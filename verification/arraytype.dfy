/**
 * `ArrayType`: the type of a whole array, a Type paired with the array's length, which
 * may be unknown. Its equality treats an unknown length as matching any length.
 */
module ArrayTypes {
  import opened Wrappers
  import opened JsonData
  import opened Errors
  import opened Types
  import opened Forms
  import opened Text

  datatype ArrayType = ArrayType(content: Type, length: Length)

  /**
   * The constructor: the content must be a Type (TypeError), then the length must be a
   * non-negative integer or the unknown-length sentinel (ValueError).
   */
  function NewArrayType(content: Value, length: Value): (r: Result<ArrayType>)
    ensures !content.VType? ==> r == Err(NotAType)
    ensures content.VType? ==>
              (r.Ok? <==> length.VUnknownLength? || (length.VJson? && length.json.JInt? && length.json.i >= 0))
    ensures content.VType? && r.Err? ==> r == Err(BadLength)
    ensures r.Ok? ==> r.value.content == content.typ
    ensures r.Ok? ==> (r.value.length.UnknownLength? <==> length.VUnknownLength?)
    ensures r.Ok? && r.value.length.Known? ==> length == VJson(JInt(r.value.length.n))
  {
    if !content.VType? then Err(NotAType)
    else if length.VUnknownLength? then Ok(ArrayType(content.typ, UnknownLength))
    else if length.VJson? && length.json.JInt? && length.json.i >= 0 then Ok(ArrayType(content.typ, Known(length.json.i)))
    else Err(BadLength)
  }

  /** Every array type is rebuilt by its constructor from its own content and length. */
  lemma NewArrayTypeRoundTrip(a: ArrayType)
    ensures NewArrayType(VType(a.content), if a.length.Known? then VJson(JInt(a.length.n)) else VUnknownLength) == Ok(a)
  {
  }

  /** Two lengths agree when either is unknown or both are the same number. */
  predicate LengthsMatch(a: Length, b: Length) {
    a.UnknownLength? || b.UnknownLength? || a == b
  }

  /**
   * `is_equal_to` / `__eq__`: `other` is None for any object that is not an ArrayType.
   * `contentEqual` stands for the content Type's own `is_equal_to`.
   */
  predicate IsEqualTo(a: ArrayType, other: Option<ArrayType>, contentEqual: (Type, Type) -> bool)
  {
    other.Some? && LengthsMatch(other.value.length, a.length) && contentEqual(a.content, other.value.content)
  }

  /** The comparison is symmetric whenever the content comparison is. */
  lemma IsEqualToSymmetric(a: ArrayType, b: ArrayType, contentEqual: (Type, Type) -> bool)
    requires forall x, y :: contentEqual(x, y) ==> contentEqual(y, x)
    ensures IsEqualTo(a, Some(b), contentEqual) ==> IsEqualTo(b, Some(a), contentEqual)
  {
  }

  /** An array type of unknown length equals every array type with an equal content. */
  lemma UnknownLengthMatchesAny(t: Type, b: ArrayType, contentEqual: (Type, Type) -> bool)
    ensures IsEqualTo(ArrayType(t, UnknownLength), Some(b), contentEqual) <==> contentEqual(t, b.content)
    ensures IsEqualTo(b, Some(ArrayType(t, UnknownLength)), contentEqual) <==> contentEqual(b.content, t)
  {
  }

  /**
   * Because of the wildcard the comparison is not transitive: lengths 1 and 2 each match
   * an unknown length but not each other.
   */
  lemma IsEqualToNotTransitive(t: Type, contentEqual: (Type, Type) -> bool)
    requires contentEqual(t, t)
    ensures IsEqualTo(ArrayType(t, Known(1)), Some(ArrayType(t, UnknownLength)), contentEqual)
    ensures IsEqualTo(ArrayType(t, UnknownLength), Some(ArrayType(t, Known(2))), contentEqual)
    ensures !IsEqualTo(ArrayType(t, Known(1)), Some(ArrayType(t, Known(2))), contentEqual)
  {
  }

  /** `f"{length}"`; `unknownText` is how the unknown-length sentinel prints itself. */
  function LengthText(length: Length, unknownText: string): string {
    match length
    case Known(n) => NatToString(n)
    case UnknownLength => unknownText
  }

  /** A known length's text reads back as that length. */
  lemma LengthTextParses(length: Length, unknownText: string)
    ensures length.Known? ==> ParseNat(LengthText(length, unknownText)) == Some(length.n)
  {
    if length.Known? {
      ParseNatToString(length.n);
    }
  }

  /**
   * `_str(indent, compact)`: the piece `"<length> * "` followed by the content's pieces
   * (`contentStr`, the Type's own `_str`).
   */
  function StrParts(a: ArrayType, unknownText: string, contentStr: Type -> seq<string>): (r: seq<string>)
    ensures |r| == 1 + |contentStr(a.content)| && r[1..] == contentStr(a.content)
    ensures |r[0]| >= 3 && r[0][|r[0]| - 3..] == " * "
    ensures a.length.Known? ==> ParseNat(r[0][..|r[0]| - 3]) == Some(a.length.n)
    ensures a.length.Known? ==> r[0] == NatToString(a.length.n) + " * "
    ensures a.length.UnknownLength? ==> r[0] == unknownText + " * "
  {
    var prefix := LengthText(a.length, unknownText);
    var head := prefix + " * ";
    assert head[..|head| - 3] == prefix;
    assert head[|head| - 3..] == " * ";
    LengthTextParses(a.length, unknownText);
    [head] + contentStr(a.content)
  }
}
