/**
 * The node-level API of `RecordForm`: construction, tuple versus named mode, the lookups
 * between field names and positions, `content`, `_getitem_fields` and the two depth
 * summaries. Serialization is in Serialization, equality in Equality and the column
 * operations in ColumnEngine.
 */
module RecordForms {
  import opened Wrappers
  import opened JsonData
  import opened Errors
  import opened Forms
  import opened Text

  /**
   * The constructor: every content must be a Form (TypeError otherwise), then `_init`
   * validates the header. The field list is stored as given; its length is not checked.
   */
  function NewRecord(contents: seq<Value>, fields: Option<seq<string>>, parameters: Json, formKey: Json): (r: Result<Form>)
    ensures r.Ok? <==> (forall i :: 0 <= i < |contents| ==> contents[i].VForm?) && CheckInit(parameters, formKey).Ok?
    ensures (exists i :: 0 <= i < |contents| && !contents[i].VForm?) ==> r == Err(BadContent)
    ensures r.Ok? ==> r.value.RecordForm? && r.value.fieldNames == fields && r.value.meta == CheckInit(parameters, formKey).value
    ensures r.Ok? ==> |r.value.contents| == |contents| && forall i :: 0 <= i < |contents| ==> VForm(r.value.contents[i]) == contents[i]
  {
    if exists i :: 0 <= i < |contents| && !contents[i].VForm? then Err(BadContent)
    else
      var m :- CheckInit(parameters, formKey);
      Ok(RecordForm(seq(|contents|, i requires 0 <= i < |contents| => contents[i].form), fields, m))
  }

  /** `is_tuple`: no field list was given. */
  predicate IsTuple(f: Form)
    requires f.RecordForm?
  {
    f.fieldNames.None?
  }

  /** `fields`: the given names, or "0", ..., "n-1" for a tuple. */
  function Fields(f: Form): (r: seq<string>)
    requires f.RecordForm?
    ensures IsTuple(f) ==> |r| == |f.contents| && forall i :: 0 <= i < |r| ==> ParseNat(r[i]) == Some(i)
    ensures !IsTuple(f) ==> r == f.fieldNames.value
  {
    match f.fieldNames
    case None =>
      var names := PositionalNames(|f.contents|);
      forall i | 0 <= i < |names| ensures ParseNat(names[i]) == Some(i) {
        ParseNatToString(i);
      }
      names
    case Some(fs) => fs
  }

  /**
   * `index_to_field`: positions 0 <= i < n (n the number of contents) have a name; any
   * other position is an IndexError naming n. A named record whose list is shorter than
   * its contents fails on the list lookup itself.
   */
  function IndexToField(f: Form, index: int): (r: Result<string>)
    requires f.RecordForm?
    ensures !(0 <= index < |f.contents|) ==> r == Err(NoSuchIndex(index, |f.contents|))
    ensures 0 <= index < |f.contents| && IsTuple(f) ==> r == Ok(NatToString(index))
    ensures 0 <= index < |f.contents| && !IsTuple(f) ==>
              r == if index < |f.fieldNames.value| then Ok(f.fieldNames.value[index]) else Err(ListIndexOutOfRange(index))
    ensures r.Ok? ==> r.value == Fields(f)[index]
  {
    if 0 <= index < |f.contents| then
      match f.fieldNames
      case None => Ok(NatToString(index))
      case Some(fs) => if index < |fs| then Ok(fs[index]) else Err(ListIndexOutOfRange(index))
    else Err(NoSuchIndex(index, |f.contents|))
  }

  /** `fields.index(name)`: the first position holding the name. */
  function FirstIndex(names: seq<string>, name: string): (r: Option<nat>)
    ensures r.Some? <==> name in names
    ensures r.Some? ==> r.value < |names| && names[r.value] == name && forall j :: 0 <= j < r.value ==> names[j] != name
  {
    if names == [] then None
    else if names[0] == name then Some(0)
    else
      match FirstIndex(names[1..], name)
      case None => None
      case Some(i) => Some(i + 1)
  }

  /**
   * `field_to_index`: in named mode the first position of the name (not checked against the
   * number of contents); in tuple mode the decimal value of the name when it is a position;
   * IndexError otherwise.
   */
  function FieldToIndex(f: Form, field: string): (r: Result<nat>)
    requires f.RecordForm?
    ensures r.Err? ==> r.error == NoSuchField(field, |f.contents|)
    ensures IsTuple(f) ==> (r.Ok? <==> ParseNat(field).Some? && ParseNat(field).value < |f.contents|)
    ensures IsTuple(f) && r.Ok? ==> ParseNat(field) == Some(r.value)
    ensures !IsTuple(f) ==> (r.Ok? <==> field in f.fieldNames.value)
    ensures !IsTuple(f) && r.Ok? ==>
              r.value < |f.fieldNames.value| && f.fieldNames.value[r.value] == field &&
              forall j :: 0 <= j < r.value ==> f.fieldNames.value[j] != field
  {
    var found := match f.fieldNames
      case None =>
        (match ParseNat(field)
         case Some(i) => if i < |f.contents| then Some(i) else None
         case None => None)
      case Some(fs) => FirstIndex(fs, field);
    if found.Some? then Ok(found.value) else Err(NoSuchField(field, |f.contents|))
  }

  /** `has_field`, written out separately as the source does. */
  predicate HasField(f: Form, field: string)
    requires f.RecordForm?
  {
    match f.fieldNames
    case None =>
      (match ParseNat(field)
       case None => false
       case Some(i) => i < |f.contents|)
    case Some(fs) => field in fs
  }

  /** `has_field(x)` holds exactly when `field_to_index(x)` returns instead of raising. */
  lemma HasFieldIffFieldToIndex(f: Form, field: string)
    requires f.RecordForm?
    ensures HasField(f, field) <==> FieldToIndex(f, field).Ok?
  {
  }

  /** Every name `index_to_field` hands out is read back as its position. */
  lemma IndexToFieldRoundTrip(f: Form, index: int)
    requires f.RecordForm? && IndexToField(f, index).Ok?
    requires !IsTuple(f) ==> Distinct(f.fieldNames.value)
    ensures FieldToIndex(f, IndexToField(f, index).value) == Ok(index)
  {
    if IsTuple(f) {
      ParseNatToString(index);
    } else {
      var fs := f.fieldNames.value;
      var r := FieldToIndex(f, fs[index]);
      assert r.Ok? && fs[r.value] == fs[index];
    }
  }

  /** In named mode the converse holds too: a position found by name names that field. */
  lemma FieldToIndexRoundTrip(f: Form, field: string)
    requires f.RecordForm? && !IsTuple(f) && FieldToIndex(f, field).Ok?
    requires FieldToIndex(f, field).value < |f.contents|
    ensures IndexToField(f, FieldToIndex(f, field).value) == Ok(field)
  {
  }

  /** In tuple mode it does not: `int("01")` is 1, whose name is "1". */
  lemma TupleFieldSpellingsCollapse(a: Form)
    requires a.RecordForm? && IsTuple(a) && |a.contents| == 2
    ensures FieldToIndex(a, "01") == Ok(1)
    ensures IndexToField(a, 1) == Ok("1")
  {
    assert "01"[..1] == "0" && "0"[..0] == "";
    assert DigitsValue("0") == 0;
    assert DigitsValue("01") == 1;
  }

  /** The argument of `content`: an int, a str, or any other Python object. */
  datatype Key = IntKey(i: int) | StrKey(s: string) | OtherKey

  /** `list[index]` with Python's negative indexing. */
  function ListItem(items: seq<Form>, index: int): (r: Result<Form>)
    ensures r.Ok? <==> -|items| <= index < |items|
    ensures r.Ok? && index >= 0 ==> r.value == items[index]
    ensures r.Ok? && index < 0 ==> r.value == items[|items| + index]
    ensures r.Err? ==> r.error == ListIndexOutOfRange(index)
  {
    if 0 <= index < |items| then Ok(items[index])
    else if -|items| <= index < 0 then Ok(items[|items| + index])
    else Err(ListIndexOutOfRange(index))
  }

  /**
   * `content(index_or_field)`: an int indexes the contents (negative from the end), a str
   * goes through `field_to_index` first, anything else is a TypeError.
   */
  function Content(f: Form, key: Key): (r: Result<Form>)
    requires f.RecordForm?
    ensures key.OtherKey? ==> r == Err(NotIndexOrField)
    ensures key.IntKey? ==> (r.Ok? <==> -|f.contents| <= key.i < |f.contents|)
    ensures key.StrKey? && FieldToIndex(f, key.s).Err? ==> r == Err(FieldToIndex(f, key.s).error)
    ensures key.StrKey? && FieldToIndex(f, key.s).Ok? ==>
              (r.Ok? <==> FieldToIndex(f, key.s).value < |f.contents|)
    ensures r.Ok? ==> r.value in f.contents
  {
    match key
    case IntKey(i) => ListItem(f.contents, i)
    case StrKey(s) =>
      var index :- FieldToIndex(f, s);
      ListItem(f.contents, index)
    case OtherKey => Err(NotIndexOrField)
  }

  /** In a well-formed named record, the content found by a field's name is the content at its position. */
  lemma ContentByName(f: Form, i: nat)
    requires f.RecordForm? && !IsTuple(f) && i < |f.contents|
    requires |f.fieldNames.value| == |f.contents| && Distinct(f.fieldNames.value)
    ensures Content(f, StrKey(f.fieldNames.value[i])) == Ok(f.contents[i])
    ensures Content(f, IntKey(i)) == Ok(f.contents[i])
    ensures Content(f, IntKey(i - |f.contents|)) == Ok(f.contents[i])
  {
    IndexToFieldRoundTrip(f, i);
  }

  /** The positions of the requested fields, in request order; the first failure raises. */
  function Indexes(f: Form, where: seq<string>): (r: Result<seq<nat>>)
    requires f.RecordForm?
    ensures r.Ok? <==> forall j :: 0 <= j < |where| ==> FieldToIndex(f, where[j]).Ok?
    ensures r.Ok? ==> |r.value| == |where| && forall j :: 0 <= j < |where| ==> r.value[j] == FieldToIndex(f, where[j]).value
    ensures r.Err? ==> exists j :: 0 <= j < |where| && FieldToIndex(f, where[j]).Err? && r.error == FieldToIndex(f, where[j]).error
  {
    if where == [] then Ok([])
    else
      var i :- FieldToIndex(f, where[0]);
      var rest :- Indexes(f, where[1..]);
      assert forall j :: 1 <= j < |where| ==> where[j] == where[1..][j - 1];
      Ok([i] + rest)
  }

  /** `[self.content(i) for i in indexes]`. */
  function ContentsAt(f: Form, indexes: seq<nat>): (r: Result<seq<Form>>)
    requires f.RecordForm?
    ensures r.Ok? <==> forall j :: 0 <= j < |indexes| ==> indexes[j] < |f.contents|
    ensures r.Ok? ==> |r.value| == |indexes| && forall j :: 0 <= j < |indexes| ==> r.value[j] == f.contents[indexes[j]]
  {
    if indexes == [] then Ok([])
    else
      var c :- Content(f, IntKey(indexes[0]));
      var rest :- ContentsAt(f, indexes[1..]);
      assert forall j :: 1 <= j < |indexes| ==> indexes[j] == indexes[1..][j - 1];
      Ok([c] + rest)
  }

  /**
   * `_getitem_fields(where)`: a record of the requested fields, in the order requested,
   * in the same mode as the original, without parameters or form_key.
   */
  function GetItemFields(f: Form, where: seq<string>): (r: Result<Form>)
    requires f.RecordForm?
    ensures r.Ok? <==> forall j :: 0 <= j < |where| ==> Content(f, StrKey(where[j])).Ok?
    ensures r.Ok? ==> r.value.RecordForm? && IsTuple(r.value) == IsTuple(f) && r.value.meta == Meta(None, None)
    ensures r.Ok? ==> |r.value.contents| == |where|
    ensures r.Ok? ==> forall j :: 0 <= j < |where| ==> r.value.contents[j] == Content(f, StrKey(where[j])).value
    ensures r.Ok? && !IsTuple(f) ==> r.value.fieldNames.value == where
  {
    match Indexes(f, where)
    case Err(e) =>
      assert exists j :: 0 <= j < |where| && Content(f, StrKey(where[j])).Err?;
      Err(e)
    case Ok(indexes) =>
      var fields := match f.fieldNames
        case None => None
        case Some(fs) => Some(seq(|indexes|, j requires 0 <= j < |indexes| => fs[indexes[j]]));
      match ContentsAt(f, indexes)
      case Err(e) =>
        assert exists j :: 0 <= j < |where| && Content(f, StrKey(where[j])).Err?;
        Err(e)
      case Ok(contents) =>
        assert fields.Some? ==> fields.value == where;
        Ok(RecordForm(contents, fields, Meta(None, None)))
  }

  /**
   * `minmax_depth`: (1, 1) without contents; otherwise the least of the children's
   * minimum depths and the greatest of their maximum depths. The children's own
   * `minmax_depth` is the parameter `childDepth`.
   */
  method MinMaxDepth(f: Form, childDepth: Form -> (int, int)) returns (lo: int, hi: int)
    requires f.RecordForm?
    ensures f.contents == [] ==> lo == 1 && hi == 1
    ensures f.contents != [] ==>
              (exists i :: 0 <= i < |f.contents| && lo == childDepth(f.contents[i]).0) &&
              (forall i :: 0 <= i < |f.contents| ==> lo <= childDepth(f.contents[i]).0)
    ensures f.contents != [] ==>
              (exists i :: 0 <= i < |f.contents| && hi == childDepth(f.contents[i]).1) &&
              (forall i :: 0 <= i < |f.contents| ==> childDepth(f.contents[i]).1 <= hi)
  {
    var cs := f.contents;
    if |cs| == 0 {
      return 1, 1;
    }
    var mins: seq<int> := [];
    var maxs: seq<int> := [];
    for k := 0 to |cs|
      invariant |mins| == k && |maxs| == k
      invariant forall i :: 0 <= i < k ==> mins[i] == childDepth(cs[i]).0 && maxs[i] == childDepth(cs[i]).1
    {
      var d := childDepth(cs[k]);
      mins := mins + [d.0];
      maxs := maxs + [d.1];
    }
    lo := mins[0];
    hi := maxs[0];
    for k := 1 to |cs|
      invariant (exists i :: 0 <= i < k && lo == mins[i]) && forall i :: 0 <= i < k ==> lo <= mins[i]
      invariant (exists i :: 0 <= i < k && hi == maxs[i]) && forall i :: 0 <= i < k ==> maxs[i] <= hi
    {
      if mins[k] < lo { lo := mins[k]; }
      if maxs[k] > hi { hi := maxs[k]; }
    }
  }

  /** Two of the first `k` depths differ. */
  predicate Uneven(ds: seq<int>, k: nat)
    requires k <= |ds|
  {
    exists i, j :: 0 <= i < j < k && ds[i] != ds[j]
  }

  /** One of the first `k` flags is set. */
  predicate Flagged(bs: seq<bool>, k: nat)
    requires k <= |bs|
  {
    exists i :: 0 <= i < k && bs[i]
  }

  /** `m` is the least of the first `k` depths. */
  predicate IsMinOf(m: int, ds: seq<int>, k: nat)
    requires k <= |ds|
  {
    (exists i :: 0 <= i < k && m == ds[i]) && forall i :: 0 <= i < k ==> m <= ds[i]
  }

  /** What the `branch_depth` loop knows after `k` children. */
  predicate BranchSoFar(ds: seq<int>, bs: seq<bool>, k: nat, running: Option<int>, anyBranch: bool)
    requires k <= |ds| && k <= |bs|
  {
    (k == 0 <==> running.None?) &&
    (k > 0 ==> IsMinOf(running.value, ds, k)) &&
    (anyBranch <==> Flagged(bs, k) || Uneven(ds, k)) &&
    (!Uneven(ds, k) && k > 0 ==> forall i :: 0 <= i < k ==> ds[i] == running.value)
  }

  /** One child more: the running minimum and the branching flag as the loop body updates them. */
  lemma BranchStep(ds: seq<int>, bs: seq<bool>, k: nat, running: Option<int>, anyBranch: bool)
    requires k < |ds| && k < |bs| && BranchSoFar(ds, bs, k, running, anyBranch)
    ensures var seeded := if running.None? then Some(ds[k]) else running;
            var flagged := anyBranch || bs[k] || seeded.value != ds[k];
            var lowered := if seeded.value > ds[k] then Some(ds[k]) else seeded;
            BranchSoFar(ds, bs, k + 1, lowered, flagged)
  {
    var seeded := if running.None? then Some(ds[k]) else running;
    var flagged := anyBranch || bs[k] || seeded.value != ds[k];
    var lowered := if seeded.value > ds[k] then Some(ds[k]) else seeded;
    if k > 0 {
      var i :| 0 <= i < k && running.value == ds[i];
      assert IsMinOf(lowered.value, ds, k + 1) by {
        if seeded.value > ds[k] {
          assert lowered.value == ds[k];
        } else {
          assert lowered.value == ds[i];
        }
      }
      if !Uneven(ds, k) && seeded.value != ds[k] {
        assert ds[0] != ds[k];
      }
      if Uneven(ds, k + 1) && !Uneven(ds, k) {
        var a, b :| 0 <= a < b < k + 1 && ds[a] != ds[b];
        assert ds[a] == running.value;
        assert b == k;
      }
    } else {
      assert IsMinOf(lowered.value, ds, 1) by {
        assert lowered.value == ds[0];
      }
    }
    assert Flagged(bs, k + 1) <==> Flagged(bs, k) || bs[k];
  }

  /** The children's `branch_depth` depths, in order. */
  function ChildDepths(cs: seq<Form>, childBranch: Form -> (bool, int)): (r: seq<int>)
    ensures |r| == |cs| && forall i :: 0 <= i < |cs| ==> r[i] == childBranch(cs[i]).1
  {
    seq(|cs|, i requires 0 <= i < |cs| => childBranch(cs[i]).1)
  }

  /** The children's `branch_depth` flags, in order. */
  function ChildFlags(cs: seq<Form>, childBranch: Form -> (bool, int)): (r: seq<bool>)
    ensures |r| == |cs| && forall i :: 0 <= i < |cs| ==> r[i] == childBranch(cs[i]).0
  {
    seq(|cs|, i requires 0 <= i < |cs| => childBranch(cs[i]).0)
  }

  /**
   * `branch_depth`: (False, 1) without contents; otherwise the least child depth, flagged
   * as branching when some child branches or two children have different depths. The
   * children's own `branch_depth` is the parameter `childBranch`.
   */
  method BranchDepth(f: Form, childBranch: Form -> (bool, int)) returns (anyBranch: bool, minDepth: int)
    requires f.RecordForm?
    ensures f.contents == [] ==> !anyBranch && minDepth == 1
    ensures f.contents != [] ==> IsMinOf(minDepth, ChildDepths(f.contents, childBranch), |f.contents|)
    ensures f.contents != [] ==>
              (anyBranch <==> Flagged(ChildFlags(f.contents, childBranch), |f.contents|)
                              || Uneven(ChildDepths(f.contents, childBranch), |f.contents|))
  {
    var cs := f.contents;
    if |cs| == 0 {
      return false, 1;
    }
    ghost var ds := ChildDepths(cs, childBranch);
    ghost var bs := ChildFlags(cs, childBranch);
    anyBranch := false;
    var running: Option<int> := None;
    for k := 0 to |cs|
      invariant BranchSoFar(ds, bs, k, running, anyBranch)
    {
      BranchStep(ds, bs, k, running, anyBranch);
      var (branch, depth) := childBranch(cs[k]);
      if running.None? {
        running := Some(depth);
      }
      if branch || running.value != depth {
        anyBranch := true;
      }
      if running.value > depth {
        running := Some(depth);
      }
    }
    minDepth := running.value;
  }
}
