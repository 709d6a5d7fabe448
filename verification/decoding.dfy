/**
 * What `from_dict` does with a dict, variant by variant: which keys it reads, what it
 * builds from them, and its error exits. Every lemma here is about arbitrary input dicts.
 */
module Decoding {
  import opened Wrappers
  import opened JsonData
  import opened Errors
  import opened Types
  import opened Forms
  import opened Serialization

  /** The payload view `from_dict` reads keys from agrees with the dict on them. */
  lemma ReadsThrough(d: Entries, key: string)
    requires key != "class"
    ensures Get(WithoutClass(d), key) == Get(d, key)
    ensures HasKey(WithoutClass(d), key) <==> HasKey(d, key)
  {
  }

  lemma HeaderThrough(d: Entries)
    ensures Header(WithoutClass(d)) == Header(d)
  {
    ReadsThrough(d, "parameters");
    ReadsThrough(d, "form_key");
  }

  /** A dict whose class tag selects `kind` is decoded by that variant's branch. */
  lemma Dispatch(d: Entries, tag: Json)
    requires Get(d, "class") == Some(tag)
    ensures FromDict(JObject(d)) == Build(ClassKindOf(tag), tag, WithoutClass(d), d)
  {
  }

  /** A bare string is the primitive of a NumpyForm with no inner shape and no header. */
  lemma DecodeString(s: string)
    ensures FromDict(JString(s)) == Ok(NumpyForm(s, [], Meta(None, None)))
  {
  }

  /** The error exits of the dispatch itself. */
  lemma DecodeErrors(input: Json)
    ensures !input.JString? && !input.JObject? ==> FromDict(input) == Err(NotAMapping(input))
    ensures input.JObject? && !HasKey(input.entries, "class") ==>
              FromDict(input) == Err(MissingKey("class")) && FromDict(input).error.Kind() == KeyError
    ensures input.JObject? && HasKey(input.entries, "class") &&
            ClassKindOf(Get(input.entries, "class").value) == VirtualClass ==>
              FromDict(input) == Err(VirtualArrayUnsupported) && FromDict(input).error.Kind() == ValueError
    ensures input.JObject? && HasKey(input.entries, "class") &&
            ClassKindOf(Get(input.entries, "class").value) == OtherClass ==>
              FromDict(input) == Err(UnrecognizedClass(Get(input.entries, "class").value)) &&
              FromDict(input).error.Kind() == ValueError
  {
    if input.JObject? && HasKey(input.entries, "class") {
      Dispatch(input.entries, Get(input.entries, "class").value);
    }
  }

  lemma DecodeNumpy(d: Entries, tag: Json, prim: string, shape: seq<nat>, m: Meta)
    requires Get(d, "class") == Some(tag) && ClassKindOf(tag) == NumpyClass
    requires Get(d, "primitive") == Some(Str(prim))
    requires Get(d, "inner_shape") == Some(JArray(ShapeJson(shape)))
    requires Header(d) == Ok(m)
    ensures FromDict(JObject(d)) == Ok(NumpyForm(prim, shape, m))
  {
    Dispatch(d, tag);
    HeaderThrough(d);
    ReadsThrough(d, "primitive");
    ReadsThrough(d, "inner_shape");
    AsShapeOfShapeJson(shape);
  }

  lemma DecodeEmpty(d: Entries, tag: Json, m: Meta)
    requires Get(d, "class") == Some(tag) && ClassKindOf(tag) == EmptyClass
    requires Header(d) == Ok(m)
    ensures FromDict(JObject(d)) == Ok(EmptyForm(m))
  {
    Dispatch(d, tag);
    HeaderThrough(d);
  }

  /** A null size is decoded as the unknown length. */
  lemma DecodeRegular(d: Entries, tag: Json, c: Json, child: Form, size: Length, m: Meta)
    requires Get(d, "class") == Some(tag) && ClassKindOf(tag) == RegularClass
    requires Get(d, "content") == Some(c) && FromDict(c) == Ok(child)
    requires Get(d, "size") == Some(SizeJson(size))
    requires Header(d) == Ok(m)
    ensures FromDict(JObject(d)) == Ok(RegularForm(child, size, m))
  {
    Dispatch(d, tag);
    HeaderThrough(d);
    ReadsThrough(d, "content");
    ReadsThrough(d, "size");
    assert AsSize(SizeJson(size)) == Ok(size) by {
      match size
      case Known(n) =>
      case UnknownLength =>
    }
  }

  /** Every spelling of the ListArray tag decodes the same starts, stops and content. */
  lemma DecodeList(d: Entries, tag: Json, a: string, b: string, c: Json, child: Form, m: Meta)
    requires Get(d, "class") == Some(tag) && ClassKindOf(tag) == ListClass
    requires Get(d, "starts") == Some(Str(a)) && Get(d, "stops") == Some(Str(b))
    requires Get(d, "content") == Some(c) && FromDict(c) == Ok(child)
    requires Header(d) == Ok(m)
    ensures FromDict(JObject(d)) == Ok(ListForm(a, b, child, m))
  {
    Dispatch(d, tag);
    HeaderThrough(d);
    ReadsThrough(d, "starts");
    ReadsThrough(d, "stops");
    ReadsThrough(d, "content");
  }

  /** Every spelling of the ListOffsetArray tag decodes the same offsets and content. */
  lemma DecodeListOffset(d: Entries, tag: Json, o: string, c: Json, child: Form, m: Meta)
    requires Get(d, "class") == Some(tag) && ClassKindOf(tag) == ListOffsetClass
    requires Get(d, "offsets") == Some(Str(o))
    requires Get(d, "content") == Some(c) && FromDict(c) == Ok(child)
    requires Header(d) == Ok(m)
    ensures FromDict(JObject(d)) == Ok(ListOffsetForm(o, child, m))
  {
    Dispatch(d, tag);
    HeaderThrough(d);
    ReadsThrough(d, "offsets");
    ReadsThrough(d, "content");
  }

  /** Every spelling of the IndexedArray tag decodes the same index and content. */
  lemma DecodeIndexed(d: Entries, tag: Json, i: string, c: Json, child: Form, m: Meta)
    requires Get(d, "class") == Some(tag) && ClassKindOf(tag) == IndexedClass
    requires Get(d, "index") == Some(Str(i))
    requires Get(d, "content") == Some(c) && FromDict(c) == Ok(child)
    requires Header(d) == Ok(m)
    ensures FromDict(JObject(d)) == Ok(IndexedForm(i, child, m))
  {
    Dispatch(d, tag);
    HeaderThrough(d);
    ReadsThrough(d, "index");
    ReadsThrough(d, "content");
  }

  /** Every spelling of the IndexedOptionArray tag decodes the same index and content. */
  lemma DecodeIndexedOption(d: Entries, tag: Json, i: string, c: Json, child: Form, m: Meta)
    requires Get(d, "class") == Some(tag) && ClassKindOf(tag) == IndexedOptionClass
    requires Get(d, "index") == Some(Str(i))
    requires Get(d, "content") == Some(c) && FromDict(c) == Ok(child)
    requires Header(d) == Ok(m)
    ensures FromDict(JObject(d)) == Ok(IndexedOptionForm(i, child, m))
  {
    Dispatch(d, tag);
    HeaderThrough(d);
    ReadsThrough(d, "index");
    ReadsThrough(d, "content");
  }

  /**
   * A ByteMaskedArray dict decodes to exactly its mask, valid_when and content; a mask that
   * is not a string or a valid_when that is not a bool is a TypeError.
   */
  lemma DecodeByteMasked(d: Entries, tag: Json, mask: Json, c: Json, child: Form, validWhen: Json, m: Meta)
    requires Get(d, "class") == Some(tag) && ClassKindOf(tag) == ByteMaskedClass
    requires Get(d, "mask") == Some(mask) && Get(d, "valid_when") == Some(validWhen)
    requires Get(d, "content") == Some(c) && FromDict(c) == Ok(child)
    requires Header(d) == Ok(m)
    ensures mask.JString? && validWhen.JBool? ==>
              FromDict(JObject(d)) == Ok(ByteMaskedForm(mask.s, child, validWhen.b, m))
    ensures !mask.JString? ==> FromDict(JObject(d)) == Err(BadMask)
    ensures mask.JString? && !validWhen.JBool? ==> FromDict(JObject(d)) == Err(BadValidWhen)
  {
    Dispatch(d, tag);
    HeaderThrough(d);
    ReadsThrough(d, "mask");
    ReadsThrough(d, "valid_when");
    ReadsThrough(d, "content");
  }

  lemma DecodeBitMasked(d: Entries, tag: Json, k: string, c: Json, child: Form, v: bool, l: bool, m: Meta)
    requires Get(d, "class") == Some(tag) && ClassKindOf(tag) == BitMaskedClass
    requires Get(d, "mask") == Some(Str(k)) && Get(d, "valid_when") == Some(JBool(v))
    requires Get(d, "lsb_order") == Some(JBool(l))
    requires Get(d, "content") == Some(c) && FromDict(c) == Ok(child)
    requires Header(d) == Ok(m)
    ensures FromDict(JObject(d)) == Ok(BitMaskedForm(k, child, v, l, m))
  {
    Dispatch(d, tag);
    HeaderThrough(d);
    ReadsThrough(d, "mask");
    ReadsThrough(d, "valid_when");
    ReadsThrough(d, "lsb_order");
    ReadsThrough(d, "content");
  }

  lemma DecodeUnmasked(d: Entries, tag: Json, c: Json, child: Form, m: Meta)
    requires Get(d, "class") == Some(tag) && ClassKindOf(tag) == UnmaskedClass
    requires Get(d, "content") == Some(c) && FromDict(c) == Ok(child)
    requires Header(d) == Ok(m)
    ensures FromDict(JObject(d)) == Ok(UnmaskedForm(child, m))
  {
    Dispatch(d, tag);
    HeaderThrough(d);
    ReadsThrough(d, "content");
  }

  /** Every spelling of the UnionArray tag decodes the same tags, index and branches. */
  lemma DecodeUnion(d: Entries, tag: Json, t: string, i: string, items: seq<Json>, forms: seq<Form>, m: Meta)
    requires Get(d, "class") == Some(tag) && ClassKindOf(tag) == UnionClass
    requires Get(d, "tags") == Some(Str(t)) && Get(d, "index") == Some(Str(i))
    requires Get(d, "contents") == Some(JArray(items)) && FromDictList(items, 0) == Ok(forms)
    requires Header(d) == Ok(m)
    ensures FromDict(JObject(d)) == Ok(UnionForm(t, i, forms, m))
  {
    Dispatch(d, tag);
    HeaderThrough(d);
    ReadsThrough(d, "tags");
    ReadsThrough(d, "index");
    ReadsThrough(d, "contents");
  }

  /**
   * New-style record: with `"fields"`, mapping contents are refused with a TypeError.
   */
  lemma DecodeRecordMappingContents(d: Entries, tag: Json, entries: Entries, fj: Json)
    requires Get(d, "class") == Some(tag) && ClassKindOf(tag) == RecordClass
    requires Get(d, "contents") == Some(JObject(entries)) && Get(d, "fields") == Some(fj)
    ensures FromDict(JObject(d)) == Err(MappingContents)
  {
    Dispatch(d, tag);
    var p := WithoutClass(d);
    ReadsThrough(d, "contents");
    ReadsThrough(d, "fields");
  }

  /**
   * New-style record: with `"fields"`, list contents are decoded in order and the
   * fields value (null or a list of names) gives the field names.
   */
  lemma DecodeRecordNewStyle(d: Entries, tag: Json, items: seq<Json>, forms: seq<Form>,
                             fj: Json, fields: Option<seq<string>>, m: Meta)
    requires Get(d, "class") == Some(tag) && ClassKindOf(tag) == RecordClass
    requires Get(d, "contents") == Some(JArray(items)) && Get(d, "fields") == Some(fj)
    requires FromDictList(items, 0) == Ok(forms) && AsFieldNames(fj) == Ok(fields)
    requires Header(d) == Ok(m)
    ensures FromDict(JObject(d)) == Ok(RecordForm(forms, fields, m))
  {
    Dispatch(d, tag);
    HeaderThrough(d);
    ReadsThrough(d, "contents");
    ReadsThrough(d, "fields");
  }

  /**
   * Old-style record: without `"fields"`, mapping contents give a named record whose
   * fields are the mapping's keys in order, each paired with its decoded value.
   */
  lemma DecodeRecordOldStyle(d: Entries, tag: Json, entries: Entries, forms: seq<Form>, m: Meta)
    requires Get(d, "class") == Some(tag) && ClassKindOf(tag) == RecordClass
    requires Get(d, "contents") == Some(JObject(entries)) && !HasKey(d, "fields")
    requires FromDictEntries(entries, 0) == Ok((forms, Keys(entries)))
    requires Header(d) == Ok(m)
    ensures FromDict(JObject(d)) == Ok(RecordForm(forms, Some(Keys(entries)), m))
  {
    Dispatch(d, tag);
    HeaderThrough(d);
    ReadsThrough(d, "contents");
    ReadsThrough(d, "fields");
  }

  /** Old-style tuple: without `"fields"`, list contents give a tuple (no field names). */
  lemma DecodeTuple(d: Entries, tag: Json, items: seq<Json>, forms: seq<Form>, m: Meta)
    requires Get(d, "class") == Some(tag) && ClassKindOf(tag) == RecordClass
    requires Get(d, "contents") == Some(JArray(items)) && !HasKey(d, "fields")
    requires FromDictList(items, 0) == Ok(forms)
    requires Header(d) == Ok(m)
    ensures FromDict(JObject(d)) == Ok(RecordForm(forms, None, m))
  {
    Dispatch(d, tag);
    HeaderThrough(d);
    ReadsThrough(d, "contents");
    ReadsThrough(d, "fields");
  }

  /** Missing `parameters` and `form_key` become None. */
  lemma HeaderDefaults(d: Entries)
    requires !HasKey(d, "parameters") && !HasKey(d, "form_key")
    ensures Header(d) == Ok(Meta(None, None))
  {
  }

  /** The tags with a single spelling, for the leaves, regular arrays and records. */
  lemma PlainTags()
    ensures ClassKindOf(Str("NumpyArray")) == NumpyClass
    ensures ClassKindOf(Str("EmptyArray")) == EmptyClass
    ensures ClassKindOf(Str("RegularArray")) == RegularClass
    ensures ClassKindOf(Str("RecordArray")) == RecordClass
  {
  }

  /** The tags with a single spelling, for the masked arrays. */
  lemma MaskedTags()
    ensures ClassKindOf(Str("ByteMaskedArray")) == ByteMaskedClass
    ensures ClassKindOf(Str("BitMaskedArray")) == BitMaskedClass
    ensures ClassKindOf(Str("UnmaskedArray")) == UnmaskedClass
  {
  }

  /** The ListArray spellings; the width suffix names the index type, not the variant. */
  lemma ListTags()
    ensures ClassKindOf(Str("ListArray")) == ListClass
    ensures ClassKindOf(Str("ListArray32")) == ListClass
    ensures ClassKindOf(Str("ListArrayU32")) == ListClass
    ensures ClassKindOf(Str("ListArray64")) == ListClass
  {
  }

  lemma ListOffsetTags()
    ensures ClassKindOf(Str("ListOffsetArray")) == ListOffsetClass
    ensures ClassKindOf(Str("ListOffsetArray32")) == ListOffsetClass
    ensures ClassKindOf(Str("ListOffsetArrayU32")) == ListOffsetClass
    ensures ClassKindOf(Str("ListOffsetArray64")) == ListOffsetClass
  {
  }

  lemma IndexedTags()
    ensures ClassKindOf(Str("IndexedArray")) == IndexedClass
    ensures ClassKindOf(Str("IndexedArray32")) == IndexedClass
    ensures ClassKindOf(Str("IndexedArrayU32")) == IndexedClass
    ensures ClassKindOf(Str("IndexedArray64")) == IndexedClass
  {
  }

  /** IndexedOptionArray has no unsigned spelling. */
  lemma IndexedOptionTags()
    ensures ClassKindOf(Str("IndexedOptionArray")) == IndexedOptionClass
    ensures ClassKindOf(Str("IndexedOptionArray32")) == IndexedOptionClass
    ensures ClassKindOf(Str("IndexedOptionArray64")) == IndexedOptionClass
    ensures ClassKindOf(Str("IndexedOptionArrayU32")) == OtherClass
  {
  }

  lemma UnionTags()
    ensures ClassKindOf(Str("UnionArray")) == UnionClass
    ensures ClassKindOf(Str("UnionArray8_32")) == UnionClass
  {
  }

  /** The remaining `UnionArray` spellings. */
  lemma UnionWideTags()
    ensures ClassKindOf(Str("UnionArray8_U32")) == UnionClass
    ensures ClassKindOf(Str("UnionArray8_64")) == UnionClass
  {
  }

  /** `"VirtualArray"` is recognised only to be refused. */
  lemma VirtualTag()
    ensures ClassKindOf(Str("VirtualArray")) == VirtualClass
  {
  }

  /** Rewriting the class tag leaves the payload view unchanged. */
  lemma {:induction false} WithoutClassIgnoresTag(d: Entries, tag: Json)
    ensures WithoutClass(Set(d, "class", tag)) == WithoutClass(d)
  {
    if d != [] && d[0].0 != "class" {
      WithoutClassIgnoresTag(d[1..], tag);
    } else if d != [] {
      assert Set(d, "class", tag)[1..] == d[1..];
    }
  }

  /**
   * Two tags that select the same variant decode a dict identically: same variant, same
   * fields, same errors. With the spelling lemmas above, every legacy tag decodes as its
   * plain tag.
   */
  lemma SameKindSameDecode(d: Entries, tag1: Json, tag2: Json)
    requires ClassKindOf(tag1) == ClassKindOf(tag2) != OtherClass
    ensures FromDict(JObject(Set(d, "class", tag1))) == FromDict(JObject(Set(d, "class", tag2)))
  {
    GetSet(d, "class", tag1);
    GetSet(d, "class", tag2);
    WithoutClassIgnoresTag(d, tag1);
    WithoutClassIgnoresTag(d, tag2);
    Dispatch(Set(d, "class", tag1), tag1);
    Dispatch(Set(d, "class", tag2), tag2);
  }
}
