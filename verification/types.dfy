/**
 * The semantic Type algebra: the shape of a Form with its physical encodings erased.
 * Only what the Form subsystem consumes is modelled (constructors and parameters).
 */
module Types {
  import opened Wrappers
  import opened JsonData
  import Text

  /** A parameters mapping: string keys to JSON values, in insertion order. */
  type Params = Entries

  /** A length or a size that may be unknown (`unknown_length`). */
  datatype Length = Known(n: nat) | UnknownLength

  datatype Type =
    | NumpyType(primitive: string, parameters: Option<Params>)
    | UnknownType(parameters: Option<Params>)
    | ListType(content: Type, parameters: Option<Params>)
    | RegularType(content: Type, size: Length, parameters: Option<Params>)
    | OptionType(content: Type, parameters: Option<Params>)
    | RecordType(contents: seq<Type>, fieldNames: Option<seq<string>>, parameters: Option<Params>)
    | UnionType(contents: seq<Type>, parameters: Option<Params>)

  /**
   * `RecordType.fields`: the field names, or the positional names "0", ..., "n-1" of a
   * tuple type (the same convention as `RecordForm.fields`).
   */
  function RecordTypeFields(t: Type): (r: seq<string>)
    requires t.RecordType?
    ensures t.fieldNames.None? ==> |r| == |t.contents|
    ensures t.fieldNames.None? ==> forall i :: 0 <= i < |r| ==> Text.ParseNat(r[i]) == Some(i)
  {
    match t.fieldNames
    case None =>
      var names := Text.PositionalNames(|t.contents|);
      forall i | 0 <= i < |names| ensures Text.ParseNat(names[i]) == Some(i) {
        Text.ParseNatToString(i);
      }
      names
    case Some(fs) => fs
  }
}
