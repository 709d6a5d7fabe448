/**
 * Form <-> JSON-compatible dict (`to_dict` / `from_dict`) and the Type -> Form lift
 * (`from_type`).
 */
module Serialization {
  import opened Wrappers
  import opened JsonData
  import opened Errors
  import opened Types
  import opened Forms
  import Text

  // ---------------------------------------------------------------------------------------
  // to_dict

  /** `zip(keys, values)`: stops at the shorter of the two. */
  function Zip(keys: seq<string>, values: seq<Json>): (r: seq<(string, Json)>)
    ensures |r| == if |keys| < |values| then |keys| else |values|
    ensures forall i :: 0 <= i < |r| ==> r[i] == (keys[i], values[i])
  {
    if keys == [] || values == [] then [] else [(keys[0], values[0])] + Zip(keys[1..], values[1..])
  }

  function ShapeJson(shape: seq<nat>): (r: seq<Json>)
    ensures |r| == |shape| && forall i :: 0 <= i < |r| ==> r[i] == JInt(shape[i])
  {
    seq(|shape|, i requires 0 <= i < |shape| => JInt(shape[i]))
  }

  function SizeJson(size: Length): Json {
    match size
    case Known(n) => JInt(n)
    case UnknownLength => JNull
  }

  function Str(s: string): Json { JString(s) }

  /** The `"class"` tag a node emits. */
  function ClassName(f: Form): string {
    match f
    case NumpyForm(_, _, _) => "NumpyArray"
    case EmptyForm(_) => "EmptyArray"
    case RegularForm(_, _, _) => "RegularArray"
    case ListForm(_, _, _, _) => "ListArray"
    case ListOffsetForm(_, _, _) => "ListOffsetArray"
    case IndexedForm(_, _, _) => "IndexedArray"
    case IndexedOptionForm(_, _, _) => "IndexedOptionArray"
    case ByteMaskedForm(_, _, _, _) => "ByteMaskedArray"
    case BitMaskedForm(_, _, _, _, _) => "BitMaskedArray"
    case UnmaskedForm(_, _) => "UnmaskedArray"
    case RecordForm(_, _, _) => "RecordArray"
    case UnionForm(_, _, _, _) => "UnionArray"
  }

  /** The keys of a node's own entries after `"class"`, in the order the node emits them. */
  function PayloadKeys(f: Form): (r: seq<string>)
    ensures "class" !in r && "parameters" !in r && "form_key" !in r
    ensures forall i, j :: 0 <= i < j < |r| ==> r[i] != r[j]
  {
    match f
    case NumpyForm(_, _, _) => ["primitive", "inner_shape"]
    case EmptyForm(_) => []
    case RegularForm(_, _, _) => ["size", "content"]
    case ListForm(_, _, _, _) => ["starts", "stops", "content"]
    case ListOffsetForm(_, _, _) => ["offsets", "content"]
    case IndexedForm(_, _, _) => ["index", "content"]
    case IndexedOptionForm(_, _, _) => ["index", "content"]
    case ByteMaskedForm(_, _, _, _) => ["mask", "valid_when", "content"]
    case BitMaskedForm(_, _, _, _, _) => ["mask", "valid_when", "lsb_order", "content"]
    case UnmaskedForm(_, _) => ["content"]
    case RecordForm(_, _, _) => ["contents"]
    case UnionForm(_, _, _, _) => ["tags", "index", "contents"]
  }

  /** The values matching `PayloadKeys`; children are serialized recursively. */
  function PayloadValues(f: Form, verbose: bool): seq<Json>
    decreases f, 0
  {
    match f
    case NumpyForm(p, shape, _) => [Str(p), JArray(ShapeJson(shape))]
    case EmptyForm(_) => []
    case RegularForm(c, size, _) => [SizeJson(size), ToDictPart(c, verbose)]
    case ListForm(a, b, c, _) => [Str(a), Str(b), ToDictPart(c, verbose)]
    case ListOffsetForm(o, c, _) => [Str(o), ToDictPart(c, verbose)]
    case IndexedForm(i, c, _) => [Str(i), ToDictPart(c, verbose)]
    case IndexedOptionForm(i, c, _) => [Str(i), ToDictPart(c, verbose)]
    case ByteMaskedForm(k, c, v, _) => [Str(k), JBool(v), ToDictPart(c, verbose)]
    case BitMaskedForm(k, c, v, l, _) => [Str(k), JBool(v), JBool(l), ToDictPart(c, verbose)]
    case UnmaskedForm(c, _) => [ToDictPart(c, verbose)]
    case RecordForm(cs, fs, _) => [ContentsJson(cs, fs, verbose)]
    case UnionForm(t, i, cs, _) => [Str(t), Str(i), JArray(ToDictList(cs, verbose))]
  }

  /** A record's `contents`: named records emit a field -> content mapping, tuples a list. */
  function ContentsJson(cs: seq<Form>, fs: Option<seq<string>>, verbose: bool): Json
    decreases cs, 1
  {
    var parts := ToDictList(cs, verbose);
    if fs.None? then JArray(parts) else JObject(DictOf(Zip(fs.value, parts)))
  }

  /** A node's own entries, before `_to_dict_extra` adds its header. */
  function BaseEntries(f: Form, verbose: bool): (r: Entries)
    ensures |r| >= 1 && r[0] == ("class", Str(ClassName(f)))
    ensures !HasKey(r, "parameters") && !HasKey(r, "form_key")
    decreases f, 1
  {
    var keys := PayloadKeys(f);
    var payload := Zip(keys, PayloadValues(f, verbose));
    assert forall i :: 0 <= i < |payload| ==> payload[i].0 == keys[i];
    [("class", Str(ClassName(f)))] + payload
  }

  /** `_to_dict_part(verbose)`: the node's entries followed by its header entries. */
  function ToDictPart(f: Form, verbose: bool): (r: Json)
    ensures r.JObject?
    decreases f, 2
  {
    JObject(DictExtra(f.meta, BaseEntries(f, verbose), verbose))
  }

  function ToDictList(cs: seq<Form>, verbose: bool): (r: seq<Json>)
    ensures |r| == |cs|
    ensures forall i :: 0 <= i < |cs| ==> r[i] == ToDictPart(cs[i], verbose)
    decreases cs, 0
  {
    if cs == [] then [] else [ToDictPart(cs[0], verbose)] + ToDictList(cs[1..], verbose)
  }

  // ---------------------------------------------------------------------------------------
  // from_dict

  /** The variant a `"class"` tag selects; width-suffixed legacy spellings share a variant. */
  datatype ClassKind =
    | NumpyClass | EmptyClass | RegularClass | ListClass | ListOffsetClass | RecordClass
    | IndexedClass | IndexedOptionClass | ByteMaskedClass | BitMaskedClass | UnmaskedClass
    | UnionClass | VirtualClass | OtherClass

  function ClassKindOf(tag: Json): ClassKind {
    if tag.JString? then NamedClassKind(tag.s) else OtherClass
  }

  function NamedClassKind(name: string): ClassKind {
    if name == "NumpyArray" then NumpyClass
    else if name == "EmptyArray" then EmptyClass
    else if name == "RegularArray" then RegularClass
    else if name == "ListArray" || name == "ListArray32" || name == "ListArrayU32"
         || name == "ListArray64" then ListClass
    else if name == "ListOffsetArray" || name == "ListOffsetArray32"
         || name == "ListOffsetArrayU32" || name == "ListOffsetArray64" then ListOffsetClass
    else if name == "RecordArray" then RecordClass
    else if name == "IndexedArray" || name == "IndexedArray32" || name == "IndexedArrayU32"
         || name == "IndexedArray64" then IndexedClass
    else if name == "IndexedOptionArray" || name == "IndexedOptionArray32"
         || name == "IndexedOptionArray64" then IndexedOptionClass
    else if name == "ByteMaskedArray" then ByteMaskedClass
    else if name == "BitMaskedArray" then BitMaskedClass
    else if name == "UnmaskedArray" then UnmaskedClass
    else if name == "UnionArray" || name == "UnionArray8_32" || name == "UnionArray8_U32"
         || name == "UnionArray8_64" then UnionClass
    else if name == "VirtualArray" then VirtualClass
    else OtherClass
  }

  /** `input[key]`, raising KeyError when absent. */
  function Field(d: Entries, key: string): (r: Result<Json>)
    ensures r.Ok? <==> HasKey(d, key)
    ensures r.Ok? ==> (key, r.value) in d && Get(d, key) == Some(r.value)
    ensures r.Err? ==> r.error == MissingKey(key)
  {
    match Get(d, key)
    case None => Err(MissingKey(key))
    case Some(v) => Ok(v)
  }

  function AsString(name: string, j: Json): (r: Result<string>)
    ensures r.Ok? <==> j.JString?
    ensures r.Ok? ==> r.value == j.s
  {
    if j.JString? then Ok(j.s) else Err(BadField(name, j))
  }

  function AsBool(name: string, j: Json): (r: Result<bool>)
    ensures r.Ok? <==> j.JBool?
    ensures r.Ok? ==> r.value == j.b
  {
    if j.JBool? then Ok(j.b) else Err(BadField(name, j))
  }

  function AsList(name: string, j: Json): (r: Result<seq<Json>>)
    ensures r.Ok? <==> j.JArray?
    ensures r.Ok? ==> r.value == j.items
  {
    if j.JArray? then Ok(j.items) else Err(BadField(name, j))
  }

  /** `inner_shape`: a list of non-negative integers. */
  function AsShape(j: Json): (r: Result<seq<nat>>)
    ensures r.Ok? <==> j.JArray? && forall i :: 0 <= i < |j.items| ==> j.items[i].JInt? && j.items[i].i >= 0
    ensures r.Ok? ==> ShapeJson(r.value) == j.items
  {
    if j.JArray? && forall i :: 0 <= i < |j.items| ==> j.items[i].JInt? && j.items[i].i >= 0 then
      Ok(seq(|j.items|, i requires 0 <= i < |j.items| => j.items[i].i as nat))
    else Err(BadField("inner_shape", j))
  }

  /** Reading back a written inner shape gives that shape. */
  lemma AsShapeOfShapeJson(shape: seq<nat>)
    ensures AsShape(JArray(ShapeJson(shape))) == Ok(shape)
  {
    var items := ShapeJson(shape);
    assert forall i :: 0 <= i < |items| ==> items[i] == JInt(shape[i]);
    var back := AsShape(JArray(items));
    assert back.Ok?;
    assert |back.value| == |ShapeJson(back.value)| == |shape|;
    forall i | 0 <= i < |shape| ensures back.value[i] == shape[i] {
      assert ShapeJson(back.value)[i] == items[i];
    }
    assert back.value == shape;
  }

  /** `size`: None becomes `unknown_length`, otherwise a non-negative integer. */
  function AsSize(j: Json): (r: Result<Length>)
    ensures r.Ok? <==> j.JNull? || (j.JInt? && j.i >= 0)
    ensures r.Ok? ==> SizeJson(r.value) == j
  {
    if j.JNull? then Ok(UnknownLength)
    else if j.JInt? && j.i >= 0 then Ok(Known(j.i))
    else Err(BadField("size", j))
  }

  /** `fields`: None (a tuple) or a list of names. */
  function AsFieldNames(j: Json): (r: Result<Option<seq<string>>>)
    ensures r.Ok? <==> j.JNull? || (j.JArray? && forall i :: 0 <= i < |j.items| ==> j.items[i].JString?)
    ensures r.Ok? && j.JNull? ==> r.value == None
    ensures r.Ok? && j.JArray? ==>
              (r.value.Some? && |r.value.value| == |j.items| &&
               forall i :: 0 <= i < |j.items| ==> j.items[i] == JString(r.value.value[i]))
  {
    if j.JNull? then Ok(None)
    else if j.JArray? && forall i :: 0 <= i < |j.items| ==> j.items[i].JString? then
      Ok(Some(seq(|j.items|, i requires 0 <= i < |j.items| => j.items[i].s)))
    else Err(BadField("fields", j))
  }

  /** The payload minus its `"class"` entry: what the variant constructors read. */
  function WithoutClass(d: Entries): (r: Entries)
    ensures forall p :: p in r ==> p in d
    ensures forall k :: k != "class" ==> Get(r, k) == Get(d, k)
  {
    if d == [] then []
    else if d[0].0 == "class" then WithoutClass(d[1..])
    else [d[0]] + WithoutClass(d[1..])
  }

  /** `from_dict(input)`: a string is a NumpyForm primitive; anything else must be a dict. */
  function FromDict(input: Json): (r: Result<Form>)
    decreases input, 2, 0
  {
    match input
    case JString(p) => Ok(NumpyForm(p, [], Meta(None, None)))
    case JObject(d) => FromMapping(d)
    case _ => Err(NotAMapping(input))
  }

  /** The dict case of `from_dict`: dispatch on the `"class"` tag. */
  function FromMapping(d: Entries): (r: Result<Form>)
    decreases JObject(d), 1, 0
  {
    match Get(d, "class")
    case None => Err(MissingKey("class"))
    case Some(tag) => Build(ClassKindOf(tag), tag, WithoutClass(d), d)
  }

  /**
   * The branch of `from_dict` for one class tag. Each branch reads the variant's keys from
   * the payload `p` in the order the constructor call evaluates them (KeyError for a
   * missing one, nested errors from children), then runs the constructor's checks and
   * `_init`. `whole` is the dict `p` was taken from.
   */
  function Build(kind: ClassKind, tag: Json, p: Entries, ghost whole: Entries): (r: Result<Form>)
    requires forall e :: e in p ==> e in whole
    decreases JObject(whole), 0, 1
  {
    match kind
    case NumpyClass => BuildNumpy(p)
    case EmptyClass => BuildEmpty(p)
    case RegularClass => BuildRegular(p, whole)
    case ListClass => BuildList(p, whole)
    case ListOffsetClass => BuildListOffset(p, whole)
    case RecordClass => BuildRecord(p, whole)
    case IndexedClass => BuildIndexed(p, whole)
    case IndexedOptionClass => BuildIndexedOption(p, whole)
    case ByteMaskedClass => BuildByteMasked(p, whole)
    case BitMaskedClass => BuildBitMasked(p, whole)
    case UnmaskedClass => BuildUnmasked(p, whole)
    case UnionClass => BuildUnion(p, whole)
    case VirtualClass => Err(VirtualArrayUnsupported)
    case OtherClass => Err(UnrecognizedClass(tag))
  }

  /** `parameters` and `form_key` default to None when absent, then go through `_init`. */
  function Header(p: Entries): Result<Meta> {
    CheckInit(Get(p, "parameters").GetOr(JNull), Get(p, "form_key").GetOr(JNull))
  }

  function BuildNumpy(p: Entries): Result<Form> {
    var primitive :- Field(p, "primitive");
    var innerShape := Get(p, "inner_shape").GetOr(JArray([]));
    var prim :- AsString("primitive", primitive);
    var shape :- AsShape(innerShape);
    var m :- Header(p);
    Ok(NumpyForm(prim, shape, m))
  }

  function BuildEmpty(p: Entries): Result<Form> {
    var m :- Header(p);
    Ok(EmptyForm(m))
  }

  function BuildRegular(p: Entries, ghost whole: Entries): Result<Form>
    requires forall e :: e in p ==> e in whole
    decreases JObject(whole), 0, 0
  {
    var c :- Field(p, "content");
    var content :- FromDict(c);
    var sizeJson :- Field(p, "size");
    var size :- AsSize(sizeJson);
    var m :- Header(p);
    Ok(RegularForm(content, size, m))
  }

  function BuildList(p: Entries, ghost whole: Entries): Result<Form>
    requires forall e :: e in p ==> e in whole
    decreases JObject(whole), 0, 0
  {
    var starts :- Field(p, "starts");
    var stops :- Field(p, "stops");
    var c :- Field(p, "content");
    var content :- FromDict(c);
    var a :- AsString("starts", starts);
    var b :- AsString("stops", stops);
    var m :- Header(p);
    Ok(ListForm(a, b, content, m))
  }

  function BuildListOffset(p: Entries, ghost whole: Entries): Result<Form>
    requires forall e :: e in p ==> e in whole
    decreases JObject(whole), 0, 0
  {
    var offsets :- Field(p, "offsets");
    var c :- Field(p, "content");
    var content :- FromDict(c);
    var o :- AsString("offsets", offsets);
    var m :- Header(p);
    Ok(ListOffsetForm(o, content, m))
  }

  /**
   * The three record payload shapes: with `"fields"` (new style, list contents), without
   * it but with a mapping (old-style record, fields are the keys in order), otherwise an
   * old-style tuple.
   */
  function BuildRecord(p: Entries, ghost whole: Entries): Result<Form>
    requires forall e :: e in p ==> e in whole
    decreases JObject(whole), 0, 0
  {
    var c :- Field(p, "contents");
    if HasKey(p, "fields") then
      if c.JObject? then Err(MappingContents)
      else
        var items :- AsList("contents", c);
        var contents :- FromDictList(items, 0);
        var fields :- AsFieldNames(Get(p, "fields").value);
        var m :- Header(p);
        Ok(RecordForm(contents, fields, m))
    else if c.JObject? then
      var cf :- FromDictEntries(c.entries, 0);
      var m :- Header(p);
      Ok(RecordForm(cf.0, Some(cf.1), m))
    else
      var items :- AsList("contents", c);
      var contents :- FromDictList(items, 0);
      var m :- Header(p);
      Ok(RecordForm(contents, None, m))
  }

  function BuildIndexed(p: Entries, ghost whole: Entries): Result<Form>
    requires forall e :: e in p ==> e in whole
    decreases JObject(whole), 0, 0
  {
    var index :- Field(p, "index");
    var c :- Field(p, "content");
    var content :- FromDict(c);
    var i :- AsString("index", index);
    var m :- Header(p);
    Ok(IndexedForm(i, content, m))
  }

  function BuildIndexedOption(p: Entries, ghost whole: Entries): Result<Form>
    requires forall e :: e in p ==> e in whole
    decreases JObject(whole), 0, 0
  {
    var index :- Field(p, "index");
    var c :- Field(p, "content");
    var content :- FromDict(c);
    var i :- AsString("index", index);
    var m :- Header(p);
    Ok(IndexedOptionForm(i, content, m))
  }

  /** The ByteMaskedForm constructor checks mask, then valid_when, then `_init`. */
  function BuildByteMasked(p: Entries, ghost whole: Entries): Result<Form>
    requires forall e :: e in p ==> e in whole
    decreases JObject(whole), 0, 0
  {
    var mask :- Field(p, "mask");
    var c :- Field(p, "content");
    var content :- FromDict(c);
    var validWhen :- Field(p, "valid_when");
    if !mask.JString? then Err(BadMask)
    else if !validWhen.JBool? then Err(BadValidWhen)
    else
      var m :- Header(p);
      Ok(ByteMaskedForm(mask.s, content, validWhen.b, m))
  }

  function BuildBitMasked(p: Entries, ghost whole: Entries): Result<Form>
    requires forall e :: e in p ==> e in whole
    decreases JObject(whole), 0, 0
  {
    var mask :- Field(p, "mask");
    var c :- Field(p, "content");
    var content :- FromDict(c);
    var validWhen :- Field(p, "valid_when");
    var lsbOrder :- Field(p, "lsb_order");
    var k :- AsString("mask", mask);
    var v :- AsBool("valid_when", validWhen);
    var l :- AsBool("lsb_order", lsbOrder);
    var m :- Header(p);
    Ok(BitMaskedForm(k, content, v, l, m))
  }

  function BuildUnmasked(p: Entries, ghost whole: Entries): Result<Form>
    requires forall e :: e in p ==> e in whole
    decreases JObject(whole), 0, 0
  {
    var c :- Field(p, "content");
    var content :- FromDict(c);
    var m :- Header(p);
    Ok(UnmaskedForm(content, m))
  }

  function BuildUnion(p: Entries, ghost whole: Entries): Result<Form>
    requires forall e :: e in p ==> e in whole
    decreases JObject(whole), 0, 0
  {
    var tags :- Field(p, "tags");
    var index :- Field(p, "index");
    var c :- Field(p, "contents");
    var items :- AsList("contents", c);
    var contents :- FromDictList(items, 0);
    var t :- AsString("tags", tags);
    var i :- AsString("index", index);
    var m :- Header(p);
    Ok(UnionForm(t, i, contents, m))
  }

  /** `[from_dict(content) for content in items[start:]]`, stopping at the first error. */
  function FromDictList(items: seq<Json>, start: nat): (r: Result<seq<Form>>)
    requires start <= |items|
    ensures r.Ok? ==> |r.value| == |items| - start
    decreases JArray(items), 0, |items| - start
  {
    if start == |items| then Ok([])
    else
      var head :- FromDict(items[start]);
      var tail :- FromDictList(items, start + 1);
      Ok([head] + tail)
  }

  /** The old-style record loop over `contents.items()`: contents and field names, in order. */
  function FromDictEntries(entries: Entries, start: nat): (r: Result<(seq<Form>, seq<string>)>)
    requires start <= |entries|
    ensures r.Ok? ==> |r.value.0| == |entries| - start && r.value.1 == Keys(entries)[start..]
    decreases JObject(entries), 0, |entries| - start
  {
    if start == |entries| then Ok(([], []))
    else
      var head :- FromDict(entries[start].1);
      var tail :- FromDictEntries(entries, start + 1);
      Ok(([head] + tail.0, [entries[start].0] + tail.1))
  }

  // ---------------------------------------------------------------------------------------
  // from_type

  /** The encodings `from_type` always chooses, at every node. */
  predicate Canonical(f: Form) {
    match f
    case NumpyForm(_, shape, m) => shape == [] && m.formKey.None?
    case EmptyForm(m) => m.formKey.None?
    case RegularForm(c, _, m) => m.formKey.None? && Canonical(c)
    case ListOffsetForm(o, c, m) => o == "i64" && m.formKey.None? && Canonical(c)
    case IndexedOptionForm(i, c, m) => i == "i64" && m.formKey.None? && Canonical(c)
    case RecordForm(cs, fs, m) => fs.Some? && m.formKey.None? && forall c :: c in cs ==> Canonical(c)
    case UnionForm(t, i, cs, m) => t == "i8" && i == "i64" && m.formKey.None? && forall c :: c in cs ==> Canonical(c)
    case _ => false
  }

  /**
   * `from_type` on a Type: lists become 64-bit ListOffset, options 64-bit IndexedOption,
   * unions take 8-bit tags and a 64-bit index, unknown becomes Empty; parameters are kept.
   */
  function Lift(t: Type): (r: Form)
    ensures Canonical(r)
    ensures r.meta == Meta(t.parameters, None)
    ensures t.NumpyType? <==> r.NumpyForm?
    ensures t.UnknownType? <==> r.EmptyForm?
    ensures t.ListType? <==> r.ListOffsetForm?
    ensures t.RegularType? <==> r.RegularForm?
    ensures t.OptionType? <==> r.IndexedOptionForm?
    ensures t.RecordType? <==> r.RecordForm?
    ensures t.UnionType? <==> r.UnionForm?
    ensures r.NumpyForm? ==> r.primitive == t.primitive
    ensures r.RegularForm? ==> r.size == t.size
    ensures r.RecordForm? ==> r.fieldNames == Some(RecordTypeFields(t)) && |r.contents| == |t.contents|
    ensures r.UnionForm? ==> |r.contents| == |t.contents|
  {
    match t
    case NumpyType(p, ps) => NumpyForm(p, [], Meta(ps, None))
    case ListType(c, ps) => ListOffsetForm("i64", Lift(c), Meta(ps, None))
    case RegularType(c, size, ps) => RegularForm(Lift(c), size, Meta(ps, None))
    case OptionType(c, ps) => IndexedOptionForm("i64", Lift(c), Meta(ps, None))
    case RecordType(cs, _, ps) =>
      RecordForm(LiftList(cs), Some(RecordTypeFields(t)), Meta(ps, None))
    case UnionType(cs, ps) => UnionForm("i8", "i64", LiftList(cs), Meta(ps, None))
    case UnknownType(ps) => EmptyForm(Meta(ps, None))
  }

  function LiftList(ts: seq<Type>): (r: seq<Form>)
    ensures |r| == |ts|
    ensures forall i :: 0 <= i < |ts| ==> r[i] == Lift(ts[i])
    ensures forall c :: c in r ==> Canonical(c)
  {
    if ts == [] then [] else [Lift(ts[0])] + LiftList(ts[1..])
  }

  /** A Type with every tuple record given its positional field names, as `from_type` does. */
  function NameTuples(t: Type): (r: Type)
    ensures r.parameters == t.parameters
  {
    match t
    case ListType(c, ps) => ListType(NameTuples(c), ps)
    case RegularType(c, size, ps) => RegularType(NameTuples(c), size, ps)
    case OptionType(c, ps) => OptionType(NameTuples(c), ps)
    case RecordType(cs, _, ps) => RecordType(NameTuplesList(cs), Some(RecordTypeFields(t)), ps)
    case UnionType(cs, ps) => UnionType(NameTuplesList(cs), ps)
    case _ => t
  }

  function NameTuplesList(ts: seq<Type>): (r: seq<Type>)
    ensures |r| == |ts|
    ensures forall i :: 0 <= i < |ts| ==> r[i] == NameTuples(ts[i])
  {
    if ts == [] then [] else [NameTuples(ts[0])] + NameTuplesList(ts[1..])
  }

  /** A Type without tuple records, at any depth. */
  predicate Named(t: Type) {
    match t
    case ListType(c, _) => Named(c)
    case RegularType(c, _, _) => Named(c)
    case OptionType(c, _) => Named(c)
    case RecordType(cs, fs, _) => fs.Some? && forall c :: c in cs ==> Named(c)
    case UnionType(cs, _) => forall c :: c in cs ==> Named(c)
    case _ => true
  }

  /** The Type a canonical Form describes, with its physical encodings erased. */
  function Erase(f: Form): (t: Type)
    requires Canonical(f)
    ensures t.parameters == f.meta.parameters
  {
    match f
    case NumpyForm(p, _, m) => NumpyType(p, m.parameters)
    case EmptyForm(m) => UnknownType(m.parameters)
    case RegularForm(c, size, m) => RegularType(Erase(c), size, m.parameters)
    case ListOffsetForm(_, c, m) => ListType(Erase(c), m.parameters)
    case IndexedOptionForm(_, c, m) => OptionType(Erase(c), m.parameters)
    case RecordForm(cs, fs, m) => RecordType(EraseList(cs), fs, m.parameters)
    case UnionForm(_, _, cs, m) => UnionType(EraseList(cs), m.parameters)
  }

  function EraseList(fs: seq<Form>): (r: seq<Type>)
    requires forall c :: c in fs ==> Canonical(c)
    ensures |r| == |fs|
    ensures forall i :: 0 <= i < |fs| ==> r[i] == Erase(fs[i])
  {
    if fs == [] then [] else [Erase(fs[0])] + EraseList(fs[1..])
  }

  /**
   * Erasing the encodings of `from_type(t)` gives `t` back, except that tuple records come
   * back named by position.
   */
  lemma {:induction false} EraseLift(t: Type)
    ensures Erase(Lift(t)) == NameTuples(t)
  {
    match t
    case ListType(c, _) => EraseLift(c);
    case RegularType(c, _, _) => EraseLift(c);
    case OptionType(c, _) => EraseLift(c);
    case RecordType(cs, _, _) =>
      forall i | 0 <= i < |cs| ensures Erase(Lift(cs[i])) == NameTuples(cs[i]) {
        EraseLift(cs[i]);
      }
      assert EraseList(LiftList(cs)) == NameTuplesList(cs);
    case UnionType(cs, _) =>
      forall i | 0 <= i < |cs| ensures Erase(Lift(cs[i])) == NameTuples(cs[i]) {
        EraseLift(cs[i]);
      }
      assert EraseList(LiftList(cs)) == NameTuplesList(cs);
    case _ =>
  }

  /** Naming tuples changes nothing in a Type that has none. */
  lemma {:induction false} NameTuplesNamed(t: Type)
    requires Named(t)
    ensures NameTuples(t) == t
  {
    match t
    case ListType(c, _) => NameTuplesNamed(c);
    case RegularType(c, _, _) => NameTuplesNamed(c);
    case OptionType(c, _) => NameTuplesNamed(c);
    case RecordType(cs, _, _) =>
      forall i | 0 <= i < |cs| ensures NameTuples(cs[i]) == cs[i] {
        NameTuplesNamed(cs[i]);
      }
      assert NameTuplesList(cs) == cs;
    case UnionType(cs, _) =>
      forall i | 0 <= i < |cs| ensures NameTuples(cs[i]) == cs[i] {
        NameTuplesNamed(cs[i]);
      }
      assert NameTuplesList(cs) == cs;
    case _ =>
  }

  /** Every canonical Form is `from_type` of the Type it describes: `Lift` is onto them. */
  lemma {:induction false} LiftErase(f: Form)
    requires Canonical(f)
    ensures Lift(Erase(f)) == f
  {
    match f
    case RegularForm(c, _, _) => LiftErase(c);
    case ListOffsetForm(_, c, _) => LiftErase(c);
    case IndexedOptionForm(_, c, _) => LiftErase(c);
    case RecordForm(cs, _, _) =>
      forall i | 0 <= i < |cs| ensures Lift(Erase(cs[i])) == cs[i] {
        LiftErase(cs[i]);
      }
      assert LiftList(EraseList(cs)) == cs;
    case UnionForm(_, _, cs, _) =>
      forall i | 0 <= i < |cs| ensures Lift(Erase(cs[i])) == cs[i] {
        LiftErase(cs[i]);
      }
      assert LiftList(EraseList(cs)) == cs;
    case _ =>
  }

  /** `from_type` is one-to-one on Types without tuple records. */
  lemma LiftInjective(s: Type, t: Type)
    requires Named(s) && Named(t) && Lift(s) == Lift(t)
    ensures s == t
  {
    EraseLift(s);
    EraseLift(t);
    NameTuplesNamed(s);
    NameTuplesNamed(t);
  }

  /** `from_type(value)`: a TypeError unless the value is a Type. */
  function FromType(v: Value): (r: Result<Form>)
    ensures r.Ok? <==> v.VType?
    ensures r.Ok? ==> Canonical(r.value)
    ensures r.Ok? ==> r.value == Lift(v.typ) && Erase(r.value) == NameTuples(v.typ)
    ensures r.Err? ==> r.error.Kind() == TypeError
  {
    if v.VType? then EraseLift(v.typ); Ok(Lift(v.typ)) else Err(UnsupportedType)
  }
}
