/**
 * Form equality (`__eq__`) for the two node kinds whose comparison is modelled:
 * RecordForm (tuples positionally, named records as field -> content dicts) and
 * ByteMaskedForm. The comparison of other node kinds and the two parameter comparisons
 * are parameters of the model.
 */
module Equality {
  import opened Wrappers
  import opened Types
  import opened Forms
  import opened Text

  /** A comparison of two parameters headers (`_parameters_equal`, `type_parameters_equal`). */
  type ParamsEq = (Option<Params>, Option<Params>) -> bool

  /** `min(a, b)`: how many pairs `zip` produces. */
  function ZipLen(a: nat, b: nat): nat {
    if a < b then a else b
  }

  /**
   * Where `dict(zip(names, ...))` takes the value of `key` from: the last of the first `n`
   * positions holding it (a later duplicate overwrites an earlier one), or -1.
   */
  function LastIndex(names: seq<string>, n: nat, key: string): (r: int)
    requires n <= |names|
    ensures -1 <= r < n
    ensures r >= 0 ==> names[r] == key && forall j :: r < j < n ==> names[j] != key
    ensures r == -1 <==> forall j :: 0 <= j < n ==> names[j] != key
  {
    if n == 0 then -1 else if names[n - 1] == key then n - 1 else LastIndex(names, n - 1, key)
  }

  /**
   * `a == b`. Records: same form_key, same mode, same number of contents and parameters
   * equal under `recordParams`; then tuples compare their contents position by position
   * and named records compare `dict(zip(fields, contents))`: the same keys, and equal
   * contents under each key. ByteMaskedForms: same form_key, mask and valid_when,
   * parameters equal under `typeParams`, and equal contents. Any other node is compared by
   * `other`.
   */
  predicate Equal(a: Form, b: Form, recordParams: ParamsEq, typeParams: ParamsEq, other: (Form, Form) -> bool)
    decreases a, 1
  {
    match a
    case RecordForm(cs, fs, m) =>
      b.RecordForm? && m.formKey == b.meta.formKey && fs.None? == b.fieldNames.None? &&
      |cs| == |b.contents| && recordParams(m.parameters, b.meta.parameters) &&
      if fs.None? then
        forall i :: 0 <= i < |cs| ==> Equal(cs[i], b.contents[i], recordParams, typeParams, other)
      else
        DictEqual(cs, fs.value, b.contents, b.fieldNames.value, recordParams, typeParams, other)
    case ByteMaskedForm(k, c, v, m) =>
      b.ByteMaskedForm? && m.formKey == b.meta.formKey && k == b.mask && v == b.validWhen &&
      typeParams(m.parameters, b.meta.parameters) && Equal(c, b.content, recordParams, typeParams, other)
    case _ => other(a, b)
  }

  /** Every name among the first `on` of `otherNames` is among the first `n` of `names`. */
  predicate Covers(names: seq<string>, n: nat, otherNames: seq<string>, on: nat)
    requires n <= |names| && on <= |otherNames|
  {
    forall j :: 0 <= j < on ==> LastIndex(names, n, otherNames[j]) >= 0
  }

  /**
   * `dict(zip(names, cs)) == dict(zip(otherNames, ds))`: the same keys, and under each key
   * equal contents.
   */
  predicate DictEqual(cs: seq<Form>, names: seq<string>, ds: seq<Form>, otherNames: seq<string>,
                      recordParams: ParamsEq, typeParams: ParamsEq, other: (Form, Form) -> bool)
    decreases cs, 0
  {
    var n, on := ZipLen(|names|, |cs|), ZipLen(|otherNames|, |ds|);
    Covers(names, n, otherNames, on) && Covers(otherNames, on, names, n) &&
    forall j :: 0 <= j < n ==>
      Equal(cs[LastIndex(names, n, names[j])], ds[LastIndex(otherNames, on, names[j])], recordParams, typeParams, other)
  }

  /** Every form equals itself when the helper comparisons are reflexive. */
  lemma {:induction false} EqualReflexive(f: Form, recordParams: ParamsEq, typeParams: ParamsEq, other: (Form, Form) -> bool)
    requires forall p :: recordParams(p, p)
    requires forall p :: typeParams(p, p)
    requires forall g :: other(g, g)
    ensures Equal(f, f, recordParams, typeParams, other)
    decreases f
  {
    match f
    case RecordForm(cs, fs, m) =>
      forall i | 0 <= i < |cs| ensures Equal(cs[i], cs[i], recordParams, typeParams, other) {
        EqualReflexive(cs[i], recordParams, typeParams, other);
      }
    case ByteMaskedForm(k, c, v, m) =>
      EqualReflexive(c, recordParams, typeParams, other);
    case _ =>
  }

  /** The comparison is symmetric when the helper comparisons are. */
  lemma {:induction false} EqualSymmetric(a: Form, b: Form, recordParams: ParamsEq, typeParams: ParamsEq, other: (Form, Form) -> bool)
    requires forall p, q :: recordParams(p, q) ==> recordParams(q, p)
    requires forall p, q :: typeParams(p, q) ==> typeParams(q, p)
    requires forall g, h :: other(g, h) ==> other(h, g) && !h.RecordForm? && !h.ByteMaskedForm?
    requires Equal(a, b, recordParams, typeParams, other)
    ensures Equal(b, a, recordParams, typeParams, other)
    decreases a, 1
  {
    match a
    case RecordForm(cs, fs, m) =>
      var ds := b.contents;
      if fs.None? {
        forall i | 0 <= i < |ds| ensures Equal(ds[i], cs[i], recordParams, typeParams, other) {
          EqualSymmetric(cs[i], ds[i], recordParams, typeParams, other);
        }
      } else {
        DictEqualSymmetric(cs, fs.value, ds, b.fieldNames.value, recordParams, typeParams, other);
      }
    case ByteMaskedForm(k, c, v, m) =>
      EqualSymmetric(c, b.content, recordParams, typeParams, other);
    case _ =>
  }

  lemma {:induction false} DictEqualSymmetric(cs: seq<Form>, names: seq<string>, ds: seq<Form>, otherNames: seq<string>,
                                              recordParams: ParamsEq, typeParams: ParamsEq, other: (Form, Form) -> bool)
    requires forall p, q :: recordParams(p, q) ==> recordParams(q, p)
    requires forall p, q :: typeParams(p, q) ==> typeParams(q, p)
    requires forall g, h :: other(g, h) ==> other(h, g) && !h.RecordForm? && !h.ByteMaskedForm?
    requires DictEqual(cs, names, ds, otherNames, recordParams, typeParams, other)
    ensures DictEqual(ds, otherNames, cs, names, recordParams, typeParams, other)
    decreases cs, 0
  {
    var n, on := ZipLen(|names|, |cs|), ZipLen(|otherNames|, |ds|);
    forall j | 0 <= j < on
      ensures Equal(ds[LastIndex(otherNames, on, otherNames[j])], cs[LastIndex(names, n, otherNames[j])],
                    recordParams, typeParams, other)
    {
      var key := otherNames[j];
      var x := LastIndex(names, n, key);
      assert x >= 0;
      assert names[x] == key;
      var y := LastIndex(otherNames, on, key);
      assert LastIndex(names, n, names[x]) == x;
      assert Equal(cs[x], ds[y], recordParams, typeParams, other);
      EqualSymmetric(cs[x], ds[y], recordParams, typeParams, other);
    }
  }

  /** In a list without repeated names, a name is found where it stands. */
  lemma LastIndexDistinct(names: seq<string>, k: nat)
    requires Distinct(names) && k < |names|
    ensures LastIndex(names, |names|, names[k]) == k
  {
    var r := LastIndex(names, |names|, names[k]);
    assert r >= 0 by {
      assert names[k] == names[k];
    }
  }

  /** `names` reordered by the bijection `perm` (with inverse `inv`) on its positions. */
  predicate IsPermutation(perm: seq<nat>, inv: seq<nat>) {
    |perm| == |inv| &&
    (forall i :: 0 <= i < |perm| ==> perm[i] < |perm| && inv[i] < |perm|) &&
    (forall i :: 0 <= i < |perm| ==> inv[perm[i]] == i && perm[inv[i]] == i)
  }

  /** Reordering distinct names by a bijection keeps them distinct. */
  lemma PermutedDistinct(names: seq<string>, otherNames: seq<string>, perm: seq<nat>, inv: seq<nat>)
    requires |names| == |perm| == |otherNames| && Distinct(names) && IsPermutation(perm, inv)
    requires forall i :: 0 <= i < |otherNames| ==> otherNames[i] == names[perm[i]]
    ensures Distinct(otherNames)
  {
    forall i, j | 0 <= i < j < |otherNames| ensures otherNames[i] != otherNames[j] {
      assert perm[i] != perm[j] by {
        assert inv[perm[i]] == i && inv[perm[j]] == j;
      }
    }
  }

  /** Under a reordering, the name at position j moves to position inv[j], with its content. */
  lemma PermutedLookup(cs: seq<Form>, names: seq<string>, ds: seq<Form>, otherNames: seq<string>,
                       perm: seq<nat>, inv: seq<nat>, j: nat)
    requires |names| == |cs| == |perm| == |ds| == |otherNames| && Distinct(names) && IsPermutation(perm, inv)
    requires forall i :: 0 <= i < |ds| ==> ds[i] == cs[perm[i]] && otherNames[i] == names[perm[i]]
    requires j < |names|
    ensures LastIndex(names, |names|, names[j]) == j
    ensures LastIndex(otherNames, |names|, names[j]) == inv[j] && ds[inv[j]] == cs[j]
    ensures LastIndex(names, |names|, otherNames[j]) >= 0
  {
    PermutedDistinct(names, otherNames, perm, inv);
    LastIndexDistinct(names, j);
    LastIndexDistinct(names, perm[j]);
    assert otherNames[inv[j]] == names[j];
    LastIndexDistinct(otherNames, inv[j]);
  }

  /**
   * Named records are compared as dicts: listing the same (field, content) pairs in another
   * order gives an equal record, provided the names are distinct.
   */
  lemma NamedRecordOrderInsensitive(cs: seq<Form>, names: seq<string>, ds: seq<Form>, otherNames: seq<string>,
                                    m: Meta, perm: seq<nat>, inv: seq<nat>,
                                    recordParams: ParamsEq, typeParams: ParamsEq, other: (Form, Form) -> bool)
    requires |names| == |cs| == |perm| == |ds| == |otherNames| && Distinct(names) && IsPermutation(perm, inv)
    requires forall i :: 0 <= i < |ds| ==> ds[i] == cs[perm[i]] && otherNames[i] == names[perm[i]]
    requires forall p :: recordParams(p, p)
    requires forall p :: typeParams(p, p)
    requires forall g :: other(g, g)
    ensures Equal(RecordForm(cs, Some(names), m), RecordForm(ds, Some(otherNames), m), recordParams, typeParams, other)
  {
    var n := |cs|;
    forall j | 0 <= j < n
      ensures LastIndex(names, n, otherNames[j]) >= 0
      ensures LastIndex(otherNames, n, names[j]) >= 0
      ensures Equal(cs[LastIndex(names, n, names[j])], ds[LastIndex(otherNames, n, names[j])],
                    recordParams, typeParams, other)
    {
      PermutedLookup(cs, names, ds, otherNames, perm, inv, j);
      EqualReflexive(cs[j], recordParams, typeParams, other);
    }
    assert DictEqual(cs, names, ds, otherNames, recordParams, typeParams, other);
  }

  /**
   * With a repeated field name only the last content under that name takes part in the
   * comparison: the earlier one can be anything.
   */
  lemma RepeatedNameShadowed(x: Form, z: Form, y: Form, m: Meta,
                             recordParams: ParamsEq, typeParams: ParamsEq, other: (Form, Form) -> bool)
    requires forall p :: recordParams(p, p)
    requires forall p :: typeParams(p, p)
    requires forall g :: other(g, g)
    ensures Equal(RecordForm([x, y], Some(["a", "a"]), m), RecordForm([z, y], Some(["a", "a"]), m),
                  recordParams, typeParams, other)
  {
    EqualReflexive(y, recordParams, typeParams, other);
    assert LastIndex(["a", "a"], 2, "a") == 1;
  }

  /** Trees built without records. */
  predicate NoRecords(f: Form) {
    match f
    case RecordForm(_, _, _) => false
    case UnionForm(_, _, cs, _) => forall i :: 0 <= i < |cs| ==> NoRecords(cs[i])
    case NumpyForm(_, _, _) => true
    case EmptyForm(_) => true
    case _ => NoRecords(f.content)
  }

  /**
   * With plain equality for parameters and for the other node kinds, two trees without
   * records are equal exactly when they are identical: a ByteMaskedForm compares every one
   * of its fields.
   */
  lemma {:induction false} EqualIsIdentityWithoutRecords(a: Form, b: Form)
    requires NoRecords(a)
    ensures Equal(a, b, (p, q) => p == q, (p, q) => p == q, (g, h) => g == h) <==> a == b
    decreases a
  {
    if a.ByteMaskedForm? {
      if b.ByteMaskedForm? {
        EqualIsIdentityWithoutRecords(a.content, b.content);
      }
    }
  }
}
