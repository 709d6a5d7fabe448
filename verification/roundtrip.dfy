/**
 * What `from_dict` makes of `to_dict`: every well-formed Form comes back with the same
 * shape, with its header normalized by the verbose/non-verbose emission rule.
 */
module RoundTrip {
  import opened Wrappers
  import opened JsonData
  import opened Errors
  import opened Types
  import opened Forms
  import opened Serialization
  import Decoding
  import Text

  /**
   * The header `from_dict` rebuilds: parameters that were not emitted come back as None,
   * emitted ones as the `parameters` property's value; the form_key always survives.
   */
  function ReloadedMeta(m: Meta, verbose: bool): (r: Meta)
    ensures r.formKey == m.formKey
    ensures r.parameters.Some? <==> EmitsParameters(m, verbose)
    ensures r.parameters.Some? ==> r.parameters.value == ParametersView(m)
  {
    Meta(if EmitsParameters(m, verbose) then Some(ParametersView(m)) else None, m.formKey)
  }

  /** The tree `from_dict(to_dict(f))` is expected to give: `f` with every header reloaded. */
  function Reloaded(f: Form, verbose: bool): Form {
    var m := ReloadedMeta(f.meta, verbose);
    match f
    case NumpyForm(p, s, _) => NumpyForm(p, s, m)
    case EmptyForm(_) => EmptyForm(m)
    case RegularForm(c, n, _) => RegularForm(Reloaded(c, verbose), n, m)
    case ListForm(a, b, c, _) => ListForm(a, b, Reloaded(c, verbose), m)
    case ListOffsetForm(o, c, _) => ListOffsetForm(o, Reloaded(c, verbose), m)
    case IndexedForm(i, c, _) => IndexedForm(i, Reloaded(c, verbose), m)
    case IndexedOptionForm(i, c, _) => IndexedOptionForm(i, Reloaded(c, verbose), m)
    case ByteMaskedForm(k, c, v, _) => ByteMaskedForm(k, Reloaded(c, verbose), v, m)
    case BitMaskedForm(k, c, v, l, _) => BitMaskedForm(k, Reloaded(c, verbose), v, l, m)
    case UnmaskedForm(c, _) => UnmaskedForm(Reloaded(c, verbose), m)
    case RecordForm(cs, fs, _) =>
      RecordForm(seq(|cs|, i requires 0 <= i < |cs| => Reloaded(cs[i], verbose)), fs, m)
    case UnionForm(t, i, cs, _) =>
      UnionForm(t, i, seq(|cs|, k requires 0 <= k < |cs| => Reloaded(cs[k], verbose)), m)
  }

  /**
   * The trees the mapping-style record encoding can carry: every named record has one
   * distinct name per content (a repeated name would collapse in the dict).
   */
  predicate Serializable(f: Form) {
    match f
    case NumpyForm(_, _, _) => true
    case EmptyForm(_) => true
    case RecordForm(cs, fs, _) =>
      (fs.Some? ==> |fs.value| == |cs| && Text.Distinct(fs.value)) &&
      forall i :: 0 <= i < |cs| ==> Serializable(cs[i])
    case UnionForm(_, _, cs, _) => forall i :: 0 <= i < |cs| ==> Serializable(cs[i])
    case _ => Serializable(f.content)
  }

  /** A node dict: the class entry, the payload pairs, then the header entries. */
  function NodeDict(m: Meta, cls: Json, keys: seq<string>, values: seq<Json>, verbose: bool): Entries {
    DictExtra(m, [("class", cls)] + Zip(keys, values), verbose)
  }

  lemma ToDictPartIsNodeDict(f: Form, verbose: bool)
    ensures ToDictPart(f, verbose).entries
            == NodeDict(f.meta, Str(ClassName(f)), PayloadKeys(f), PayloadValues(f, verbose), verbose)
  {
  }

  /** Payload keys: distinct, and none of them is the class tag or a header key. */
  predicate PlainKeys(keys: seq<string>) {
    "class" !in keys && "parameters" !in keys && "form_key" !in keys && Text.Distinct(keys)
  }

  /** A node dict holds each payload key with its value. */
  lemma ReadEntry(m: Meta, cls: Json, keys: seq<string>, values: seq<Json>, verbose: bool, i: nat)
    requires PlainKeys(keys) && i < |keys| && i < |values|
    ensures Get(NodeDict(m, cls, keys, values, verbose), keys[i]) == Some(values[i])
  {
    var z := Zip(keys, values);
    var b := [("class", cls)] + z;
    assert b[1..] == z;
    assert Get(b, keys[i]) == Get(z, keys[i]);
    assert UniqueKeys(z);
    assert z[i].0 == keys[i];
    DictExtraKeeps(m, b, verbose, keys[i]);
  }

  /** Keys a node does not emit are absent from its dict. */
  lemma ReadAbsent(m: Meta, cls: Json, keys: seq<string>, values: seq<Json>, verbose: bool, key: string)
    requires key !in keys && key != "class" && key != "parameters" && key != "form_key"
    ensures Get(NodeDict(m, cls, keys, values, verbose), key) == None
  {
    var z := Zip(keys, values);
    var b := [("class", cls)] + z;
    assert b[1..] == z;
    forall i | 0 <= i < |z| ensures z[i].0 != key {
      assert z[i].0 == keys[i];
    }
    assert Get(b, key) == Get(z, key);
    DictExtraKeeps(m, b, verbose, key);
  }

  /** The class tag and the header read back as `_to_dict_extra` wrote them. */
  lemma ReadHeader(m: Meta, cls: Json, keys: seq<string>, values: seq<Json>, verbose: bool)
    requires PlainKeys(keys)
    ensures Get(NodeDict(m, cls, keys, values, verbose), "class") == Some(cls)
    ensures Get(NodeDict(m, cls, keys, values, verbose), "parameters").GetOr(JNull)
            == ParamsJson(ReloadedMeta(m, verbose).parameters)
    ensures Get(NodeDict(m, cls, keys, values, verbose), "form_key").GetOr(JNull) == KeyJson(m.formKey)
  {
    var z := Zip(keys, values);
    var b := [("class", cls)] + z;
    assert b[1..] == z;
    forall i | 0 <= i < |z| ensures z[i].0 != "parameters" && z[i].0 != "form_key" {
      assert z[i].0 == keys[i];
    }
    assert Get(b, "parameters") == Get(z, "parameters");
    assert Get(b, "form_key") == Get(z, "form_key");
    DictExtraKeeps(m, b, verbose, "class");
  }

  /** A NumpyArray node dict decodes to its primitive and inner shape. */
  lemma NumpyNodeDecodes(m: Meta, keys: seq<string>, values: seq<Json>, p: string, shape: seq<nat>, verbose: bool)
    requires PlainKeys(keys) && keys == ["primitive", "inner_shape"]
    requires values == [Str(p), JArray(ShapeJson(shape))]
    ensures FromDict(JObject(NodeDict(m, Str("NumpyArray"), keys, values, verbose)))
            == Ok(NumpyForm(p, shape, ReloadedMeta(m, verbose)))
  {
    var d := NodeDict(m, Str("NumpyArray"), keys, values, verbose);
    ReadHeader(m, Str("NumpyArray"), keys, values, verbose);
    CheckInitRoundTrip(ReloadedMeta(m, verbose));
    ReadEntry(m, Str("NumpyArray"), keys, values, verbose, 0);
    ReadEntry(m, Str("NumpyArray"), keys, values, verbose, 1);
    Decoding.PlainTags();
    Decoding.DecodeNumpy(d, Str("NumpyArray"), p, shape, ReloadedMeta(m, verbose));
  }

  /** A EmptyArray node dict decodes to nothing but its header. */
  lemma EmptyNodeDecodes(m: Meta, keys: seq<string>, values: seq<Json>, verbose: bool)
    requires PlainKeys(keys) && keys == []
    requires values == []
    ensures FromDict(JObject(NodeDict(m, Str("EmptyArray"), keys, values, verbose)))
            == Ok(EmptyForm(ReloadedMeta(m, verbose)))
  {
    var d := NodeDict(m, Str("EmptyArray"), keys, values, verbose);
    ReadHeader(m, Str("EmptyArray"), keys, values, verbose);
    CheckInitRoundTrip(ReloadedMeta(m, verbose));
    Decoding.PlainTags();
    Decoding.DecodeEmpty(d, Str("EmptyArray"), ReloadedMeta(m, verbose));
  }

  /** A RegularArray node dict decodes to its size and decoded content. */
  lemma RegularNodeDecodes(m: Meta, keys: seq<string>, values: seq<Json>, size: Length, c: Json, child: Form, verbose: bool)
    requires PlainKeys(keys) && keys == ["size", "content"]
    requires values == [SizeJson(size), c] && FromDict(c) == Ok(child)
    ensures FromDict(JObject(NodeDict(m, Str("RegularArray"), keys, values, verbose)))
            == Ok(RegularForm(child, size, ReloadedMeta(m, verbose)))
  {
    var d := NodeDict(m, Str("RegularArray"), keys, values, verbose);
    ReadHeader(m, Str("RegularArray"), keys, values, verbose);
    CheckInitRoundTrip(ReloadedMeta(m, verbose));
    ReadEntry(m, Str("RegularArray"), keys, values, verbose, 0);
    ReadEntry(m, Str("RegularArray"), keys, values, verbose, 1);
    Decoding.PlainTags();
    Decoding.DecodeRegular(d, Str("RegularArray"), c, child, size, ReloadedMeta(m, verbose));
  }

  /** A ListArray node dict decodes to its starts, stops and decoded content. */
  lemma ListNodeDecodes(m: Meta, keys: seq<string>, values: seq<Json>, a: string, b: string, c: Json, child: Form, verbose: bool)
    requires PlainKeys(keys) && keys == ["starts", "stops", "content"]
    requires values == [Str(a), Str(b), c] && FromDict(c) == Ok(child)
    ensures FromDict(JObject(NodeDict(m, Str("ListArray"), keys, values, verbose)))
            == Ok(ListForm(a, b, child, ReloadedMeta(m, verbose)))
  {
    var d := NodeDict(m, Str("ListArray"), keys, values, verbose);
    ReadHeader(m, Str("ListArray"), keys, values, verbose);
    CheckInitRoundTrip(ReloadedMeta(m, verbose));
    ReadEntry(m, Str("ListArray"), keys, values, verbose, 0);
    ReadEntry(m, Str("ListArray"), keys, values, verbose, 1);
    ReadEntry(m, Str("ListArray"), keys, values, verbose, 2);
    Decoding.ListTags();
    Decoding.DecodeList(d, Str("ListArray"), a, b, c, child, ReloadedMeta(m, verbose));
  }

  /** A ListOffsetArray node dict decodes to its offsets and decoded content. */
  lemma ListOffsetNodeDecodes(m: Meta, keys: seq<string>, values: seq<Json>, o: string, c: Json, child: Form, verbose: bool)
    requires PlainKeys(keys) && keys == ["offsets", "content"]
    requires values == [Str(o), c] && FromDict(c) == Ok(child)
    ensures FromDict(JObject(NodeDict(m, Str("ListOffsetArray"), keys, values, verbose)))
            == Ok(ListOffsetForm(o, child, ReloadedMeta(m, verbose)))
  {
    var d := NodeDict(m, Str("ListOffsetArray"), keys, values, verbose);
    ReadHeader(m, Str("ListOffsetArray"), keys, values, verbose);
    CheckInitRoundTrip(ReloadedMeta(m, verbose));
    ReadEntry(m, Str("ListOffsetArray"), keys, values, verbose, 0);
    ReadEntry(m, Str("ListOffsetArray"), keys, values, verbose, 1);
    Decoding.ListOffsetTags();
    Decoding.DecodeListOffset(d, Str("ListOffsetArray"), o, c, child, ReloadedMeta(m, verbose));
  }

  /** A IndexedArray node dict decodes to its index and decoded content. */
  lemma IndexedNodeDecodes(m: Meta, keys: seq<string>, values: seq<Json>, i: string, c: Json, child: Form, verbose: bool)
    requires PlainKeys(keys) && keys == ["index", "content"]
    requires values == [Str(i), c] && FromDict(c) == Ok(child)
    ensures FromDict(JObject(NodeDict(m, Str("IndexedArray"), keys, values, verbose)))
            == Ok(IndexedForm(i, child, ReloadedMeta(m, verbose)))
  {
    var d := NodeDict(m, Str("IndexedArray"), keys, values, verbose);
    ReadHeader(m, Str("IndexedArray"), keys, values, verbose);
    CheckInitRoundTrip(ReloadedMeta(m, verbose));
    ReadEntry(m, Str("IndexedArray"), keys, values, verbose, 0);
    ReadEntry(m, Str("IndexedArray"), keys, values, verbose, 1);
    Decoding.IndexedTags();
    Decoding.DecodeIndexed(d, Str("IndexedArray"), i, c, child, ReloadedMeta(m, verbose));
  }

  /** A IndexedOptionArray node dict decodes to its index and decoded content. */
  lemma IndexedOptionNodeDecodes(m: Meta, keys: seq<string>, values: seq<Json>, i: string, c: Json, child: Form, verbose: bool)
    requires PlainKeys(keys) && keys == ["index", "content"]
    requires values == [Str(i), c] && FromDict(c) == Ok(child)
    ensures FromDict(JObject(NodeDict(m, Str("IndexedOptionArray"), keys, values, verbose)))
            == Ok(IndexedOptionForm(i, child, ReloadedMeta(m, verbose)))
  {
    var d := NodeDict(m, Str("IndexedOptionArray"), keys, values, verbose);
    ReadHeader(m, Str("IndexedOptionArray"), keys, values, verbose);
    CheckInitRoundTrip(ReloadedMeta(m, verbose));
    ReadEntry(m, Str("IndexedOptionArray"), keys, values, verbose, 0);
    ReadEntry(m, Str("IndexedOptionArray"), keys, values, verbose, 1);
    Decoding.IndexedOptionTags();
    Decoding.DecodeIndexedOption(d, Str("IndexedOptionArray"), i, c, child, ReloadedMeta(m, verbose));
  }

  /** A ByteMaskedArray node dict decodes to its mask, valid_when flag and decoded content. */
  lemma ByteMaskedNodeDecodes(m: Meta, keys: seq<string>, values: seq<Json>, k: string, v: bool, c: Json, child: Form, verbose: bool)
    requires PlainKeys(keys) && keys == ["mask", "valid_when", "content"]
    requires values == [Str(k), JBool(v), c] && FromDict(c) == Ok(child)
    ensures FromDict(JObject(NodeDict(m, Str("ByteMaskedArray"), keys, values, verbose)))
            == Ok(ByteMaskedForm(k, child, v, ReloadedMeta(m, verbose)))
  {
    var d := NodeDict(m, Str("ByteMaskedArray"), keys, values, verbose);
    ReadHeader(m, Str("ByteMaskedArray"), keys, values, verbose);
    CheckInitRoundTrip(ReloadedMeta(m, verbose));
    ReadEntry(m, Str("ByteMaskedArray"), keys, values, verbose, 0);
    ReadEntry(m, Str("ByteMaskedArray"), keys, values, verbose, 1);
    ReadEntry(m, Str("ByteMaskedArray"), keys, values, verbose, 2);
    Decoding.MaskedTags();
    Decoding.DecodeByteMasked(d, Str("ByteMaskedArray"), Str(k), c, child, JBool(v), ReloadedMeta(m, verbose));
  }

  /** A BitMaskedArray node dict decodes to its mask, flags and decoded content. */
  lemma BitMaskedNodeDecodes(m: Meta, keys: seq<string>, values: seq<Json>, k: string, v: bool, l: bool, c: Json, child: Form, verbose: bool)
    requires PlainKeys(keys) && keys == ["mask", "valid_when", "lsb_order", "content"]
    requires values == [Str(k), JBool(v), JBool(l), c] && FromDict(c) == Ok(child)
    ensures FromDict(JObject(NodeDict(m, Str("BitMaskedArray"), keys, values, verbose)))
            == Ok(BitMaskedForm(k, child, v, l, ReloadedMeta(m, verbose)))
  {
    var d := NodeDict(m, Str("BitMaskedArray"), keys, values, verbose);
    ReadHeader(m, Str("BitMaskedArray"), keys, values, verbose);
    CheckInitRoundTrip(ReloadedMeta(m, verbose));
    ReadEntry(m, Str("BitMaskedArray"), keys, values, verbose, 0);
    ReadEntry(m, Str("BitMaskedArray"), keys, values, verbose, 1);
    ReadEntry(m, Str("BitMaskedArray"), keys, values, verbose, 2);
    ReadEntry(m, Str("BitMaskedArray"), keys, values, verbose, 3);
    Decoding.MaskedTags();
    Decoding.DecodeBitMasked(d, Str("BitMaskedArray"), k, c, child, v, l, ReloadedMeta(m, verbose));
  }

  /** A UnmaskedArray node dict decodes to its decoded content. */
  lemma UnmaskedNodeDecodes(m: Meta, keys: seq<string>, values: seq<Json>, c: Json, child: Form, verbose: bool)
    requires PlainKeys(keys) && keys == ["content"]
    requires values == [c] && FromDict(c) == Ok(child)
    ensures FromDict(JObject(NodeDict(m, Str("UnmaskedArray"), keys, values, verbose)))
            == Ok(UnmaskedForm(child, ReloadedMeta(m, verbose)))
  {
    var d := NodeDict(m, Str("UnmaskedArray"), keys, values, verbose);
    ReadHeader(m, Str("UnmaskedArray"), keys, values, verbose);
    CheckInitRoundTrip(ReloadedMeta(m, verbose));
    ReadEntry(m, Str("UnmaskedArray"), keys, values, verbose, 0);
    Decoding.MaskedTags();
    Decoding.DecodeUnmasked(d, Str("UnmaskedArray"), c, child, ReloadedMeta(m, verbose));
  }

  /** A UnionArray node dict decodes to its tags, index and decoded branches. */
  lemma UnionNodeDecodes(m: Meta, keys: seq<string>, values: seq<Json>, t: string, i: string, items: seq<Json>, forms: seq<Form>, verbose: bool)
    requires PlainKeys(keys) && keys == ["tags", "index", "contents"]
    requires values == [Str(t), Str(i), JArray(items)] && FromDictList(items, 0) == Ok(forms)
    ensures FromDict(JObject(NodeDict(m, Str("UnionArray"), keys, values, verbose)))
            == Ok(UnionForm(t, i, forms, ReloadedMeta(m, verbose)))
  {
    var d := NodeDict(m, Str("UnionArray"), keys, values, verbose);
    ReadHeader(m, Str("UnionArray"), keys, values, verbose);
    CheckInitRoundTrip(ReloadedMeta(m, verbose));
    ReadEntry(m, Str("UnionArray"), keys, values, verbose, 0);
    ReadEntry(m, Str("UnionArray"), keys, values, verbose, 1);
    ReadEntry(m, Str("UnionArray"), keys, values, verbose, 2);
    Decoding.UnionTags();
    Decoding.DecodeUnion(d, Str("UnionArray"), t, i, items, forms, ReloadedMeta(m, verbose));
  }

  /** A RecordArray node dict decodes to a tuple of its decoded contents. */
  lemma TupleNodeDecodes(m: Meta, keys: seq<string>, values: seq<Json>, items: seq<Json>, forms: seq<Form>, verbose: bool)
    requires PlainKeys(keys) && keys == ["contents"]
    requires values == [JArray(items)] && FromDictList(items, 0) == Ok(forms)
    ensures FromDict(JObject(NodeDict(m, Str("RecordArray"), keys, values, verbose)))
            == Ok(RecordForm(forms, None, ReloadedMeta(m, verbose)))
  {
    var d := NodeDict(m, Str("RecordArray"), keys, values, verbose);
    ReadHeader(m, Str("RecordArray"), keys, values, verbose);
    CheckInitRoundTrip(ReloadedMeta(m, verbose));
    ReadEntry(m, Str("RecordArray"), keys, values, verbose, 0);
    ReadAbsent(m, Str("RecordArray"), keys, values, verbose, "fields");
    Decoding.PlainTags();
    Decoding.DecodeTuple(d, Str("RecordArray"), items, forms, ReloadedMeta(m, verbose));
  }

  /** A RecordArray node dict decodes to a record named by the mapping's keys, in order. */
  lemma NamedNodeDecodes(m: Meta, keys: seq<string>, values: seq<Json>, entries: Entries, forms: seq<Form>, verbose: bool)
    requires PlainKeys(keys) && keys == ["contents"]
    requires values == [JObject(entries)] && FromDictEntries(entries, 0) == Ok((forms, Keys(entries)))
    ensures FromDict(JObject(NodeDict(m, Str("RecordArray"), keys, values, verbose)))
            == Ok(RecordForm(forms, Some(Keys(entries)), ReloadedMeta(m, verbose)))
  {
    var d := NodeDict(m, Str("RecordArray"), keys, values, verbose);
    ReadHeader(m, Str("RecordArray"), keys, values, verbose);
    CheckInitRoundTrip(ReloadedMeta(m, verbose));
    ReadEntry(m, Str("RecordArray"), keys, values, verbose, 0);
    ReadAbsent(m, Str("RecordArray"), keys, values, verbose, "fields");
    Decoding.PlainTags();
    Decoding.DecodeRecordOldStyle(d, Str("RecordArray"), entries, forms, ReloadedMeta(m, verbose));
  }

  /** A NumpyArray node reads back with its primitive and inner shape. */
  lemma ToDictFromDictNumpy(f: Form, verbose: bool)
    requires f.NumpyForm?
    ensures FromDict(ToDictPart(f, verbose)) == Ok(Reloaded(f, verbose))
  {
    ToDictPartIsNodeDict(f, verbose);
    NumpyNodeDecodes(f.meta, PayloadKeys(f), PayloadValues(f, verbose), f.primitive, f.innerShape, verbose);
  }

  /** An EmptyArray node reads back with its header. */
  lemma ToDictFromDictEmpty(f: Form, verbose: bool)
    requires f.EmptyForm?
    ensures FromDict(ToDictPart(f, verbose)) == Ok(Reloaded(f, verbose))
  {
    ToDictPartIsNodeDict(f, verbose);
    EmptyNodeDecodes(f.meta, PayloadKeys(f), PayloadValues(f, verbose), verbose);
  }

  // Each single-child node reads back with its own buffers and flags once its child does.

  lemma ToDictFromDictRegular(f: Form, verbose: bool)
    requires f.RegularForm?
    requires FromDict(ToDictPart(f.content, verbose)) == Ok(Reloaded(f.content, verbose))
    ensures FromDict(ToDictPart(f, verbose)) == Ok(Reloaded(f, verbose))
  {
    ToDictPartIsNodeDict(f, verbose);
    RegularNodeDecodes(f.meta, PayloadKeys(f), PayloadValues(f, verbose), f.size, ToDictPart(f.content, verbose), Reloaded(f.content, verbose), verbose);
  }

  lemma ToDictFromDictList(f: Form, verbose: bool)
    requires f.ListForm?
    requires FromDict(ToDictPart(f.content, verbose)) == Ok(Reloaded(f.content, verbose))
    ensures FromDict(ToDictPart(f, verbose)) == Ok(Reloaded(f, verbose))
  {
    ToDictPartIsNodeDict(f, verbose);
    ListNodeDecodes(f.meta, PayloadKeys(f), PayloadValues(f, verbose), f.starts, f.stops, ToDictPart(f.content, verbose), Reloaded(f.content, verbose), verbose);
  }

  lemma ToDictFromDictListOffset(f: Form, verbose: bool)
    requires f.ListOffsetForm?
    requires FromDict(ToDictPart(f.content, verbose)) == Ok(Reloaded(f.content, verbose))
    ensures FromDict(ToDictPart(f, verbose)) == Ok(Reloaded(f, verbose))
  {
    ToDictPartIsNodeDict(f, verbose);
    ListOffsetNodeDecodes(f.meta, PayloadKeys(f), PayloadValues(f, verbose), f.offsets, ToDictPart(f.content, verbose), Reloaded(f.content, verbose), verbose);
  }

  lemma ToDictFromDictIndexed(f: Form, verbose: bool)
    requires f.IndexedForm?
    requires FromDict(ToDictPart(f.content, verbose)) == Ok(Reloaded(f.content, verbose))
    ensures FromDict(ToDictPart(f, verbose)) == Ok(Reloaded(f, verbose))
  {
    ToDictPartIsNodeDict(f, verbose);
    IndexedNodeDecodes(f.meta, PayloadKeys(f), PayloadValues(f, verbose), f.index, ToDictPart(f.content, verbose), Reloaded(f.content, verbose), verbose);
  }

  lemma ToDictFromDictIndexedOption(f: Form, verbose: bool)
    requires f.IndexedOptionForm?
    requires FromDict(ToDictPart(f.content, verbose)) == Ok(Reloaded(f.content, verbose))
    ensures FromDict(ToDictPart(f, verbose)) == Ok(Reloaded(f, verbose))
  {
    ToDictPartIsNodeDict(f, verbose);
    IndexedOptionNodeDecodes(f.meta, PayloadKeys(f), PayloadValues(f, verbose), f.index, ToDictPart(f.content, verbose), Reloaded(f.content, verbose), verbose);
  }

  lemma ToDictFromDictByteMasked(f: Form, verbose: bool)
    requires f.ByteMaskedForm?
    requires FromDict(ToDictPart(f.content, verbose)) == Ok(Reloaded(f.content, verbose))
    ensures FromDict(ToDictPart(f, verbose)) == Ok(Reloaded(f, verbose))
  {
    ToDictPartIsNodeDict(f, verbose);
    ByteMaskedNodeDecodes(f.meta, PayloadKeys(f), PayloadValues(f, verbose), f.mask, f.validWhen, ToDictPart(f.content, verbose), Reloaded(f.content, verbose), verbose);
  }

  lemma ToDictFromDictBitMasked(f: Form, verbose: bool)
    requires f.BitMaskedForm?
    requires FromDict(ToDictPart(f.content, verbose)) == Ok(Reloaded(f.content, verbose))
    ensures FromDict(ToDictPart(f, verbose)) == Ok(Reloaded(f, verbose))
  {
    ToDictPartIsNodeDict(f, verbose);
    BitMaskedNodeDecodes(f.meta, PayloadKeys(f), PayloadValues(f, verbose), f.mask, f.validWhen, f.lsbOrder, ToDictPart(f.content, verbose), Reloaded(f.content, verbose), verbose);
  }

  lemma ToDictFromDictUnmasked(f: Form, verbose: bool)
    requires f.UnmaskedForm?
    requires FromDict(ToDictPart(f.content, verbose)) == Ok(Reloaded(f.content, verbose))
    ensures FromDict(ToDictPart(f, verbose)) == Ok(Reloaded(f, verbose))
  {
    ToDictPartIsNodeDict(f, verbose);
    UnmaskedNodeDecodes(f.meta, PayloadKeys(f), PayloadValues(f, verbose), ToDictPart(f.content, verbose), Reloaded(f.content, verbose), verbose);
  }

  /** A union reads back with its tags, index and branches once its branches do. */
  lemma ToDictFromDictUnion(f: Form, verbose: bool)
    requires f.UnionForm?
    requires forall i :: 0 <= i < |f.contents| ==>
               FromDict(ToDictPart(f.contents[i], verbose)) == Ok(Reloaded(f.contents[i], verbose))
    ensures FromDict(ToDictPart(f, verbose)) == Ok(Reloaded(f, verbose))
  {
    ToDictPartIsNodeDict(f, verbose);
    ChildrenBack(f, verbose);
    UnionNodeDecodes(f.meta, PayloadKeys(f), PayloadValues(f, verbose), f.tags, f.index, ToDictList(f.contents, verbose), Reloaded(f, verbose).contents, verbose);
  }

  /** A tuple reads back through the list style once its contents do. */
  lemma ToDictFromDictTuple(f: Form, verbose: bool)
    requires f.RecordForm? && f.fieldNames.None?
    requires forall i :: 0 <= i < |f.contents| ==>
               FromDict(ToDictPart(f.contents[i], verbose)) == Ok(Reloaded(f.contents[i], verbose))
    ensures FromDict(ToDictPart(f, verbose)) == Ok(Reloaded(f, verbose))
  {
    ToDictPartIsNodeDict(f, verbose);
    ChildrenBack(f, verbose);
    TupleNodeDecodes(f.meta, PayloadKeys(f), PayloadValues(f, verbose), ToDictList(f.contents, verbose), Reloaded(f, verbose).contents, verbose);
  }

  /**
   * A named record reads back through the old mapping style, its fields in order, once its
   * contents do; this needs one distinct name per content.
   */
  lemma ToDictFromDictNamed(f: Form, verbose: bool)
    requires f.RecordForm? && f.fieldNames.Some?
    requires |f.fieldNames.value| == |f.contents| && Text.Distinct(f.fieldNames.value)
    requires forall i :: 0 <= i < |f.contents| ==>
               FromDict(ToDictPart(f.contents[i], verbose)) == Ok(Reloaded(f.contents[i], verbose))
    ensures FromDict(ToDictPart(f, verbose)) == Ok(Reloaded(f, verbose))
  {
    ToDictPartIsNodeDict(f, verbose);
    NamedChildrenBack(f, verbose);
    NamedNodeDecodes(f.meta, PayloadKeys(f), PayloadValues(f, verbose),
                     DictOf(Zip(f.fieldNames.value, ToDictList(f.contents, verbose))), Reloaded(f, verbose).contents, verbose);
  }

  /** The serialized children of a record or union read back as the reloaded children. */
  lemma ChildrenBack(f: Form, verbose: bool)
    requires f.RecordForm? || f.UnionForm?
    requires forall i :: 0 <= i < |f.contents| ==>
               FromDict(ToDictPart(f.contents[i], verbose)) == Ok(Reloaded(f.contents[i], verbose))
    ensures FromDictList(ToDictList(f.contents, verbose), 0) == Ok(Reloaded(f, verbose).contents)
  {
    var cs := f.contents;
    var forms := seq(|cs|, i requires 0 <= i < |cs| => Reloaded(cs[i], verbose));
    FromDictListAll(ToDictList(cs, verbose), forms, 0);
    assert forms[0..] == forms;
  }

  /** Pairing distinct names with as many values gives a dict keyed by those names, in order. */
  lemma ZipDistinct(names: seq<string>, values: seq<Json>)
    requires |names| == |values| && Text.Distinct(names)
    ensures UniqueKeys(Zip(names, values)) && Keys(Zip(names, values)) == names
  {
    var z := Zip(names, values);
    forall i, j | 0 <= i < j < |z| ensures z[i].0 != z[j].0 {
      assert z[i].0 == names[i] && z[j].0 == names[j];
    }
    assert Keys(z) == names;
  }

  /**
   * The field -> content mapping of a named record reads back as the reloaded contents,
   * keyed by the field names in order.
   */
  lemma NamedChildrenBack(f: Form, verbose: bool)
    requires f.RecordForm? && f.fieldNames.Some?
    requires |f.fieldNames.value| == |f.contents| && Text.Distinct(f.fieldNames.value)
    requires forall i :: 0 <= i < |f.contents| ==>
               FromDict(ToDictPart(f.contents[i], verbose)) == Ok(Reloaded(f.contents[i], verbose))
    ensures var z := DictOf(Zip(f.fieldNames.value, ToDictList(f.contents, verbose)));
            Keys(z) == f.fieldNames.value &&
            FromDictEntries(z, 0) == Ok((Reloaded(f, verbose).contents, Keys(z)))
  {
    var cs := f.contents;
    var parts := ToDictList(cs, verbose);
    var forms := seq(|cs|, i requires 0 <= i < |cs| => Reloaded(cs[i], verbose));
    var z := Zip(f.fieldNames.value, parts);
    ZipDistinct(f.fieldNames.value, parts);
    DictOfDistinct(z);
    FromDictEntriesAll(z, forms, 0);
    assert forms[0..] == forms;
    assert Keys(z)[0..] == Keys(z);
  }

  /**
   * `from_dict(to_dict(f))` rebuilds `f`: same variants, buffers, flags, fields and
   * children, with each header as `ReloadedMeta` gives it. Named records come back through
   * the old mapping style, tuples through the list style.
   */
  lemma {:induction false} ToDictFromDict(f: Form, verbose: bool)
    requires Serializable(f)
    ensures FromDict(ToDictPart(f, verbose)) == Ok(Reloaded(f, verbose))
    decreases f, 1
  {
    match f
    case NumpyForm(_, _, _) => ToDictFromDictNumpy(f, verbose);
    case EmptyForm(_) => ToDictFromDictEmpty(f, verbose);
    case RecordForm(_, fs, _) =>
      ToDictFromDictChildren(f, verbose);
      if fs.None? {
        ToDictFromDictTuple(f, verbose);
      } else {
        ToDictFromDictNamed(f, verbose);
      }
    case UnionForm(_, _, _, _) =>
      ToDictFromDictChildren(f, verbose);
      ToDictFromDictUnion(f, verbose);
    case RegularForm(c, _, _) => ToDictFromDict(c, verbose); ToDictFromDictRegular(f, verbose);
    case ListForm(_, _, c, _) => ToDictFromDict(c, verbose); ToDictFromDictList(f, verbose);
    case ListOffsetForm(_, c, _) => ToDictFromDict(c, verbose); ToDictFromDictListOffset(f, verbose);
    case IndexedForm(_, c, _) => ToDictFromDict(c, verbose); ToDictFromDictIndexed(f, verbose);
    case IndexedOptionForm(_, c, _) => ToDictFromDict(c, verbose); ToDictFromDictIndexedOption(f, verbose);
    case ByteMaskedForm(_, c, _, _) => ToDictFromDict(c, verbose); ToDictFromDictByteMasked(f, verbose);
    case BitMaskedForm(_, c, _, _, _) => ToDictFromDict(c, verbose); ToDictFromDictBitMasked(f, verbose);
    case UnmaskedForm(c, _) => ToDictFromDict(c, verbose); ToDictFromDictUnmasked(f, verbose);
  }

  /** The list comprehension of `from_dict` succeeds when each item does. */
  lemma {:induction false} FromDictListAll(items: seq<Json>, forms: seq<Form>, k: nat)
    requires |items| == |forms| && k <= |items|
    requires forall i :: 0 <= i < |items| ==> FromDict(items[i]) == Ok(forms[i])
    ensures FromDictList(items, k) == Ok(forms[k..])
    decreases |items| - k
  {
    if k < |items| {
      FromDictListAll(items, forms, k + 1);
      FromDictListStep(items, k, forms[k], forms[k + 1..]);
      SliceAt(forms, k);
    } else {
      assert forms[k..] == [];
    }
  }

  /** One step of the list comprehension: a decoded item in front of the decoded rest. */
  lemma FromDictListStep(items: seq<Json>, k: nat, head: Form, tail: seq<Form>)
    requires k < |items|
    requires FromDict(items[k]) == Ok(head) && FromDictList(items, k + 1) == Ok(tail)
    ensures FromDictList(items, k) == Ok([head] + tail)
  {
  }

  /** The old-style record loop of `from_dict` succeeds when each value does. */
  lemma {:induction false} FromDictEntriesAll(entries: Entries, forms: seq<Form>, k: nat)
    requires |entries| == |forms| && k <= |entries|
    requires forall i :: 0 <= i < |entries| ==> FromDict(entries[i].1) == Ok(forms[i])
    ensures FromDictEntries(entries, k) == Ok((forms[k..], Keys(entries)[k..]))
    decreases |entries| - k
  {
    if k < |entries| {
      FromDictEntriesAll(entries, forms, k + 1);
      FromDictEntriesStep(entries, k, forms[k], (forms[k + 1..], Keys(entries)[k + 1..]));
      SliceAt(forms, k);
      SliceAt(Keys(entries), k);
    } else {
      assert forms[k..] == [] && Keys(entries)[k..] == [];
    }
  }

  /** One step of the record loop: a decoded value in front of the decoded rest. */
  lemma FromDictEntriesStep(entries: Entries, k: nat, head: Form, tail: (seq<Form>, seq<string>))
    requires k < |entries|
    requires FromDict(entries[k].1) == Ok(head) && FromDictEntries(entries, k + 1) == Ok(tail)
    ensures FromDictEntries(entries, k) == Ok(([head] + tail.0, [entries[k].0] + tail.1))
  {
  }

  lemma SliceAt<T>(xs: seq<T>, k: nat)
    requires k < |xs|
    ensures xs[k..] == [xs[k]] + xs[k + 1..]
  {
  }

  /** Each child of a record or union reads back as its reloaded self. */
  lemma {:induction false} ToDictFromDictChildren(parent: Form, verbose: bool)
    requires parent.RecordForm? || parent.UnionForm?
    requires Serializable(parent)
    ensures forall i :: 0 <= i < |parent.contents| ==>
              FromDict(ToDictPart(parent.contents[i], verbose)) == Ok(Reloaded(parent.contents[i], verbose))
    decreases parent, 0
  {
    forall i | 0 <= i < |parent.contents|
      ensures FromDict(ToDictPart(parent.contents[i], verbose)) == Ok(Reloaded(parent.contents[i], verbose))
    {
      ToDictFromDict(parent.contents[i], verbose);
    }
  }
}
