# Awkward Array forms: a verified Dafny model

This project models the schema layer of Awkward Array: the `Form` tree that describes the
physical layout of a nested, ragged array without holding any data. It covers these parts:

- The node variants and their shared header. Each node carries `parameters` (None or a
  dict) and a `form_key` (None or a string). The model covers the header's validation in
  `_init`, the lazy `parameters` getter, `parameter(key)`, the `form_key` setter and the
  `_to_dict_extra` emission rule.
- Conversion to the JSON-compatible dict (`to_dict` / `_to_dict_part`) and back
  (`from_dict`). This includes every legacy class-tag spelling and the three record
  encodings: new style with `"fields"`, an old-style mapping, and an old-style tuple.
- `from_type`, which lifts a semantic `Type` to its canonical Form.
- `RecordForm`: the constructor, tuple versus named mode, the lookups between field names
  and positions, `content`, `_getitem_fields`, `minmax_depth`, `branch_depth` and `__eq__`.
- `ByteMaskedForm`: the constructor, `copy` with its UNSET arguments, the `simplified`
  dispatch, `_prune_columns`, the legacy positional `__setstate__`,
  `_expected_from_buffers` and `__eq__`.
- The column engine. `columns` enumerates column paths and `column_types` lists leaf types.
  `select_columns` takes glob patterns with shell-style brace expansion (`_expand_braces`).
- `ArrayType`: its constructor checks, its equality (an unknown length matches any length)
  and the length prefix of its printed form.

Modules follow the source: `Forms` (form.py's base class), `Serialization` and `Decoding`
(`to_dict` / `from_dict` / `from_type`), `RoundTrip`, `RecordForms`, `ByteMaskedForms`,
`Equality`, `Braces` (`_expand_braces`), `ColumnEngine` (`columns`, `column_types`,
`select_columns`) and `ArrayTypes`. `Wrappers`, `Errors`, `JsonData`, `Text` and `Types`
are support modules.

Forms are immutable after construction, so a Form is a Dafny `datatype`. The exceptions are
the mutable header and the `__setstate__` overwrite. These are classes (`Forms.FormBase`,
`ByteMaskedForms.ByteMaskedNode`) whose methods are proved against the functions that
specify them. A Python exception is an `Err` with one constructor per raise site;
`Error.Kind()` gives the exception class. Loops of the source, such as the record loop of
`_select_columns` and the `for combo in itertools.product(...)` loop of `_expand_braces`,
are methods with invariants proved equal to recursive specification functions.

Where this model follows the code rather than the documented behaviour:

- `RecordForm` does not check that `fields` and `contents` have the same length.
  `_columns`, `_select_columns` and `__eq__` go through `zip`, which stops at the shorter
  list. `index_to_field` can raise an IndexError from the list itself.
- `_select_columns` on a record always passes a list of field names to the new record. A
  tuple therefore comes back as a named record with fields `"0"`, `"1"`, ...
  (`ColumnEngine.Select`).
- `from_dict` reads a named record written by `to_dict` through the old mapping style, and
  only when the field names are distinct. A repeated name collapses in the dict
  (`RoundTrip.ToDictFromDict` requires `Serializable`).
- The record equality compares `dict(zip(fields, contents))`. With a repeated field name,
  only the last content under that name takes part (`Equality.RepeatedNameShadowed`).

## Model

| member | source | states |
|---|---|---|
| Forms.CheckInit | src/awkward/forms/form.py:258-277 | parameters must be None or a dict, then form_key None or a string, each failure a TypeError naming the value; on success the header spells back to exactly the arguments |
| Forms.CheckInitRoundTrip | src/awkward/forms/form.py:258-277 | every header, spelled as JSON, passes `_init` and comes back unchanged |
| Forms.ParameterOf | src/awkward/forms/form.py:290-294 | None without parameters or when the key is missing, otherwise the value stored under the key |
| Forms.DictExtra | src/awkward/forms/form.py:339-344 | `parameters` is written (as the getter's value) exactly when verbose or non-empty, and `form_key` exactly when verbose or set; otherwise those keys keep their old values |
| Forms.DictExtraKeeps | src/awkward/forms/form.py:339-344 | every other key of the dict is left as it was |
| Forms.DictExtraAppends | src/awkward/forms/form.py:339-344 | on a dict without header keys, the emitted entries are appended in the order parameters, form_key |
| Forms.WithContent | src/awkward/forms/bytemaskedform.py:157 | `copy(content=...)` on a single-child node keeps the variant and the header and replaces only the child |
| Forms.FormBase.Init | src/awkward/forms/form.py:258-277 | the object's header becomes the validated header; on a TypeError nothing is stored |
| Forms.FormBase.GetParameters | src/awkward/forms/form.py:279-283 | returns the parameters or `{}`, and afterwards the object stores that value; form_key is unchanged |
| Forms.FormBase.Parameter | src/awkward/forms/form.py:290-294 | None when no parameters were ever stored; reading does not trigger the lazy write |
| Forms.FormBase.SetFormKey | src/awkward/forms/form.py:327-331 | accepts exactly None or a string and stores it; anything else is a TypeError with the object unchanged; parameters never change |
| Forms.FormBase.ToDictExtra | src/awkward/forms/form.py:339-344 | returns the `DictExtra` dict of the old header; emitting parameters goes through the getter and leaves `{}` stored, and form_key is unchanged |
| JsonData.Keys | src/awkward/forms/form.py:94-96 | the keys of a dict, in insertion order |
| JsonData.Get | src/awkward/forms/form.py:38-39 | `d.get(key)` is present exactly when the key is, and is a value stored under that key |
| JsonData.Set | src/awkward/forms/form.py:341-343 | `d[key] = value` keeps keys unique, holds the new pair and adds no other key |
| JsonData.DictOf | src/awkward/forms/recordform.py:145 | `dict(pairs)` always has unique keys |
| JsonData.DictOfDistinct | src/awkward/forms/recordform.py:145 | pairs with distinct keys become a dict that is exactly those pairs, in order |
| Serialization.Zip | src/awkward/forms/recordform.py:145 | `zip` pairs items position by position and stops at the shorter list |
| Serialization.PayloadKeys | src/awkward/forms/form.py:41-171 | each variant's payload keys are distinct and never `class`, `parameters` or `form_key` |
| Serialization.BaseEntries | src/awkward/forms/recordform.py:139-147 | a node dict starts with its `class` tag and holds no header keys before `_to_dict_extra` runs |
| Serialization.ToDictPart | src/awkward/forms/recordform.py:138-149 | every node serializes to a dict; a record goes through `_tolist_part`, read as `_to_dict_part` |
| Serialization.ToDictList | src/awkward/forms/recordform.py:141-143 | the children's dicts, one per child, in order |
| Serialization.Field | src/awkward/forms/form.py:41-42 | `input[key]` succeeds exactly when the key is present and gives its value, otherwise KeyError for that key |
| Serialization.AsSize | src/awkward/forms/form.py:54 | a null size is the unknown length and a non-negative integer is itself; the size reads back as it was written |
| Serialization.AsFieldNames | src/awkward/forms/form.py:89 | `fields` is None (a tuple) or a list of strings, kept item by item |
| Serialization.FromDictList | src/awkward/forms/form.py:88 | the list comprehension gives one Form per item |
| Serialization.FromDictEntries | src/awkward/forms/form.py:91-96 | the old-style record loop gives one Form per entry, with the dict's keys as field names, in order |
| Serialization.Lift | src/awkward/forms/form.py:190-223 | each Type maps to its own variant and back (Numpy to NumpyForm with the same primitive, List to ListOffsetForm `"i64"`, Regular to RegularForm with the same size, Option to IndexedOptionForm `"i64"`, Record to a named RecordForm with `type.fields`, Union to UnionForm `"i8"`/`"i64"`, Unknown to EmptyForm), one child per Type child, with the Type's parameters and no form_key |
| Serialization.EraseLift | src/awkward/forms/form.py:190-223 | erasing the encodings of `from_type(t)` gives `t` back, children included, except that tuple records come back named by position |
| Serialization.LiftErase | src/awkward/forms/form.py:190-223 | every canonical Form is `from_type` of the Type it describes |
| Serialization.LiftInjective | src/awkward/forms/form.py:190-223 | two Types without tuple records that give the same Form are the same Type |
| Serialization.LiftList | src/awkward/forms/form.py:211 | each Type of a list is lifted in place, canonically |
| Serialization.FromType | src/awkward/forms/form.py:190-225 | succeeds exactly on Types, giving `Lift` of the Type, which erases back to it with tuples named; anything else is a TypeError |
| Types.RecordTypeFields | src/awkward/forms/form.py:212 | a tuple type's fields are the positional names, each reading back as its position |
| Serialization.FromDict | src/awkward/forms/form.py:32-183 | `from_dict(input)`; its behaviour is stated by Decoding.DecodeErrors, the Decoding.Decode* lemmas per class tag and RoundTrip.ToDictFromDict |
| Serialization.ClassKindOf | src/awkward/forms/form.py:41-176 | the variant a `class` tag selects; a non-string tag selects none; stated by the Decoding.*Tags lemmas and Decoding.SameKindSameDecode |
| Serialization.NamedClassKind | src/awkward/forms/form.py:41-176 | the variant each tag spelling selects, legacy width-suffixed spellings included; stated by the Decoding.*Tags lemmas |
| Decoding.Dispatch | src/awkward/forms/form.py:41 | a dict is decoded by the branch that its `class` tag selects |
| Decoding.DecodeString | src/awkward/forms/form.py:34-35 | a bare string is a NumpyForm with that primitive, no inner shape and no header |
| Decoding.DecodeErrors | src/awkward/forms/form.py:32-183 | a non-dict is an AssertionError; a missing `class` is a KeyError; VirtualArray and unknown tags are ValueErrors |
| Decoding.DecodeNumpy | src/awkward/forms/form.py:41-46 | a NumpyArray dict decodes to its primitive, inner shape and header |
| Decoding.DecodeEmpty | src/awkward/forms/form.py:48-49 | an EmptyArray dict decodes to its header alone |
| Decoding.DecodeRegular | src/awkward/forms/form.py:51-57 | a RegularArray dict decodes to its content and size, a null size meaning unknown |
| Decoding.DecodeList | src/awkward/forms/form.py:59-66 | any ListArray spelling decodes to its starts, stops and content |
| Decoding.DecodeListOffset | src/awkward/forms/form.py:68-79 | any ListOffsetArray spelling decodes to its offsets and content |
| Decoding.DecodeIndexed | src/awkward/forms/form.py:108-119 | any IndexedArray spelling decodes to its index and content |
| Decoding.DecodeIndexedOption | src/awkward/forms/form.py:121-131 | any IndexedOptionArray spelling decodes to its index and content |
| Decoding.DecodeByteMasked | src/awkward/forms/form.py:133-140 | a ByteMaskedArray dict decodes to its mask, valid_when and content; a non-string mask or a non-bool valid_when is a TypeError |
| Decoding.DecodeBitMasked | src/awkward/forms/form.py:142-150 | a BitMaskedArray dict decodes to its mask, both flags and content |
| Decoding.DecodeUnmasked | src/awkward/forms/form.py:152-157 | an UnmaskedArray dict decodes to its content |
| Decoding.DecodeUnion | src/awkward/forms/form.py:159-171 | any UnionArray spelling decodes to its tags, index and branches |
| Decoding.DecodeRecordMappingContents | src/awkward/forms/form.py:83-87 | with `fields` present, mapping contents are a TypeError |
| Decoding.DecodeRecordNewStyle | src/awkward/forms/form.py:83-89 | with `fields` present, list contents decode in order and `fields` gives the names |
| Decoding.DecodeRecordOldStyle | src/awkward/forms/form.py:91-96 | without `fields`, mapping contents give a record named by the mapping's keys, in order |
| Decoding.DecodeTuple | src/awkward/forms/form.py:98-100 | without `fields`, list contents give a tuple |
| Decoding.HeaderDefaults | src/awkward/forms/form.py:38-39 | absent `parameters` and `form_key` become None |
| Decoding.PlainTags | src/awkward/forms/form.py:41-81 | NumpyArray, EmptyArray, RegularArray and RecordArray select their own variants |
| Decoding.MaskedTags | src/awkward/forms/form.py:133-152 | ByteMaskedArray, BitMaskedArray and UnmaskedArray select their own variants |
| Decoding.ListTags | src/awkward/forms/form.py:59 | all four ListArray spellings select ListForm |
| Decoding.ListOffsetTags | src/awkward/forms/form.py:68-73 | all four ListOffsetArray spellings select ListOffsetForm |
| Decoding.IndexedTags | src/awkward/forms/form.py:108-113 | all four IndexedArray spellings select IndexedForm |
| Decoding.IndexedOptionTags | src/awkward/forms/form.py:121-125 | three IndexedOptionArray spellings select IndexedOptionForm; there is no unsigned 32-bit spelling |
| Decoding.UnionTags | src/awkward/forms/form.py:159-164 | UnionArray and UnionArray8_32 select UnionForm |
| Decoding.UnionWideTags | src/awkward/forms/form.py:159-164 | UnionArray8_U32 and UnionArray8_64 select UnionForm |
| Decoding.VirtualTag | src/awkward/forms/form.py:173-176 | VirtualArray is recognised only to be refused |
| Decoding.SameKindSameDecode | src/awkward/forms/form.py:59-171 | two tags that select the same variant decode any dict identically, errors included |
| RoundTrip.ReloadedMeta | src/awkward/forms/form.py:339-344 | after a round trip, form_key survives, and parameters are present exactly when they were emitted, as the getter's value |
| RoundTrip.ToDictFromDict | src/awkward/forms/form.py:32-183 | `from_dict(to_dict(f))` rebuilds every serializable tree: same variants, buffers, flags, fields and children, with headers as `ReloadedMeta` gives them |
| RoundTrip.ToDictFromDictNumpy | src/awkward/forms/form.py:41-46 | a NumpyArray node reads back with its primitive and inner shape |
| RoundTrip.ToDictFromDictEmpty | src/awkward/forms/form.py:48-49 | an EmptyArray node reads back with its header |
| RoundTrip.ToDictFromDictRegular | src/awkward/forms/form.py:51-57 | a RegularArray node reads back once its child does, with a known or unknown size |
| RoundTrip.ToDictFromDictList | src/awkward/forms/form.py:59-66 | a ListArray node reads back once its child does |
| RoundTrip.ToDictFromDictListOffset | src/awkward/forms/form.py:68-79 | a ListOffsetArray node reads back once its child does |
| RoundTrip.ToDictFromDictIndexed | src/awkward/forms/form.py:108-119 | an IndexedArray node reads back once its child does |
| RoundTrip.ToDictFromDictIndexedOption | src/awkward/forms/form.py:121-131 | an IndexedOptionArray node reads back once its child does |
| RoundTrip.ToDictFromDictByteMasked | src/awkward/forms/bytemaskedform.py:120-129 | a ByteMaskedArray node reads back with its mask and valid_when once its child does |
| RoundTrip.ToDictFromDictBitMasked | src/awkward/forms/form.py:142-150 | a BitMaskedArray node reads back once its child does |
| RoundTrip.ToDictFromDictUnmasked | src/awkward/forms/form.py:152-157 | an UnmaskedArray node reads back once its child does |
| RoundTrip.ToDictFromDictUnion | src/awkward/forms/form.py:159-171 | a union reads back once its branches do |
| RoundTrip.ToDictFromDictTuple | src/awkward/forms/recordform.py:146-147 | a tuple's list of contents reads back as a tuple |
| RoundTrip.ToDictFromDictNamed | src/awkward/forms/recordform.py:144-145 | a named record with one distinct name per content reads back through the mapping style, fields in order |
| RoundTrip.ChildrenBack | src/awkward/forms/form.py:88 | serialized children read back as the reloaded children |
| RoundTrip.NamedChildrenBack | src/awkward/forms/form.py:91-96 | `dict(zip(fields, contents))` keeps the field order and reads back as the reloaded contents |
| RoundTrip.FromDictListAll | src/awkward/forms/form.py:88 | the list comprehension succeeds, in order, when each item decodes |
| RoundTrip.FromDictEntriesAll | src/awkward/forms/form.py:91-96 | the old-style record loop succeeds, in order, when each value decodes |
| RoundTrip.ToDictFromDictChildren | src/awkward/forms/form.py:168 | every child of a serializable record or union reads back as its reloaded self |
| RecordForms.NewRecord | src/awkward/forms/recordform.py:16-52 | succeeds exactly when every content is a Form and the header is valid; the fields are stored as given, without a length check |
| RecordForms.IsTuple | src/awkward/forms/recordform.py:61-63 | `is_tuple`: no field list was given; stated through RecordForms.Fields and RecordForms.FieldToIndex |
| RecordForms.Fields | src/awkward/forms/recordform.py:54-59 | a tuple's fields are `"0"`..`"n-1"`, each reading back as its position; otherwise the given names |
| RecordForms.IndexToField | src/awkward/forms/recordform.py:73-86 | positions outside `0..n-1` are an IndexError naming n; inside, the position's name, or a list IndexError for a short field list |
| RecordForms.FirstIndex | src/awkward/forms/recordform.py:99 | `fields.index(name)` is the first position holding the name, and is absent exactly when the name is |
| RecordForms.FieldToIndex | src/awkward/forms/recordform.py:88-110 | tuple mode: a decimal position below n; named mode: the first position of the name; otherwise an IndexError naming the field and n |
| RecordForms.HasField | src/awkward/forms/recordform.py:112-121 | `has_field`; stated by RecordForms.HasFieldIffFieldToIndex |
| RecordForms.HasFieldIffFieldToIndex | src/awkward/forms/recordform.py:112-121 | `has_field` holds exactly when `field_to_index` returns |
| RecordForms.IndexToFieldRoundTrip | src/awkward/forms/recordform.py:73-110 | with distinct names, the name of a position maps back to that position |
| RecordForms.FieldToIndexRoundTrip | src/awkward/forms/recordform.py:73-110 | in named mode, the position of a field maps back to that field's name |
| RecordForms.TupleFieldSpellingsCollapse | src/awkward/forms/recordform.py:88-96 | in tuple mode `"01"` finds position 1, whose name is `"1"`: the round trip fails for non-canonical spellings |
| RecordForms.ListItem | src/awkward/forms/recordform.py:136 | `contents[index]` accepts `-n..n-1`, counting negative indexes from the end |
| RecordForms.Content | src/awkward/forms/recordform.py:123-136 | an int indexes the contents, a str goes through `field_to_index`, anything else is a TypeError; a result is always one of the contents |
| RecordForms.ContentByName | src/awkward/forms/recordform.py:123-136 | in a well-formed named record, the name, the position and the negative position all find the same content |
| RecordForms.Indexes | src/awkward/forms/recordform.py:225 | the positions of the requested fields in request order; the first failing lookup raises its IndexError |
| RecordForms.ContentsAt | src/awkward/forms/recordform.py:232 | the contents at the given positions, in order |
| RecordForms.GetItemFields | src/awkward/forms/recordform.py:224-250 | a record of exactly the requested fields, in request order, in the original mode, with no parameters or form_key |
| RecordForms.MinMaxDepth | src/awkward/forms/recordform.py:285-294 | (1, 1) without contents; otherwise the least child minimum and the greatest child maximum, each attained by some child |
| RecordForms.BranchDepth | src/awkward/forms/recordform.py:296-310 | (False, 1) without contents; otherwise the least child depth, branching exactly when a child branches or two child depths differ |
| ByteMaskedForms.CheckFields | src/awkward/forms/bytemaskedform.py:33-48 | mask must be a str, then content a Form, then valid_when a bool, each failure a TypeError |
| ByteMaskedForms.NewByteMasked | src/awkward/forms/bytemaskedform.py:24-53 | succeeds exactly when the field checks and `_init` pass, in that order, and stores exactly the arguments |
| ByteMaskedForms.Copy | src/awkward/forms/bytemaskedform.py:67-82 | each UNSET argument keeps the current value and each given one replaces it through the constructor's checks; copying with nothing given is the node itself |
| ByteMaskedForms.CopyFormKey | src/awkward/forms/bytemaskedform.py:67-82 | an explicit `form_key=None` clears the key, which UNSET would keep |
| ByteMaskedForms.Simplified | src/awkward/forms/bytemaskedform.py:84-105 | a union content becomes a union of options, an indexed or option content an IndexedOptionForm, anything else goes to the constructor |
| ByteMaskedForms.SimplifiedDropsMask | src/awkward/forms/bytemaskedform.py:94-101 | in the first two branches mask, valid_when and form_key have no effect on the result |
| ByteMaskedForms.SimplifiedWrapsPlainContent | src/awkward/forms/bytemaskedform.py:102-105 | otherwise the result is a ByteMaskedForm directly around a content that is no option, index or union |
| ByteMaskedForms.PruneColumns | src/awkward/forms/bytemaskedform.py:152-157 | None exactly when the content prunes away, otherwise the node with only its content replaced |
| ByteMaskedForms.Unpickled | src/awkward/forms/bytemaskedform.py:165-180 | six items are required (ValueError); a form_key gets the prefix `part0-`; success exactly when the items pass the constructor; a failure keeps the header |
| ByteMaskedForms.UnpickledLegacyNode | src/awkward/forms/bytemaskedform.py:173-180 | a state written from a valid node loads as that node with its form_key prefixed |
| ByteMaskedForms.UnpickledHalfUpdated | src/awkward/forms/bytemaskedform.py:178-180 | bad parameters raise after mask, content and valid_when were already replaced |
| ByteMaskedForms.ByteMaskedNode.SetState | src/awkward/forms/bytemaskedform.py:165-180 | the object's fields and the raised error are exactly what `Unpickled` gives for its old fields |
| ByteMaskedForms.ExpectedFromBuffers | src/awkward/forms/bytemaskedform.py:182-187 | the mask's key and dtype come first, then the content's entries only when recursive; an unknown mask type is a KeyError |
| ByteMaskedForms.ExpectedNestedMasks | src/awkward/forms/bytemaskedform.py:182-187 | nested masks are listed outermost first, one entry per level |
| Equality.Equal | src/awkward/forms/recordform.py:159-179 | RecordForm and ByteMaskedForm `__eq__`; stated by Equality.EqualReflexive, Equality.EqualSymmetric, Equality.NamedRecordOrderInsensitive and Equality.EqualIsIdentityWithoutRecords |
| Equality.DictEqual | src/awkward/forms/recordform.py:173-175 | `dict(zip(fields, contents))` comparison; stated by Equality.DictEqualSymmetric, Equality.NamedRecordOrderInsensitive and Equality.RepeatedNameShadowed |
| Equality.LastIndex | src/awkward/forms/recordform.py:173-175 | `dict(zip(...))` takes each key's value from the last position holding it |
| Equality.EqualReflexive | src/awkward/forms/recordform.py:159-179 | every form equals itself when the parameter and leaf comparisons are reflexive |
| Equality.EqualSymmetric | src/awkward/forms/recordform.py:159-179 | equality is symmetric when the helper comparisons are |
| Equality.DictEqualSymmetric | src/awkward/forms/recordform.py:173-175 | the field-to-content dict comparison is symmetric |
| Equality.NamedRecordOrderInsensitive | src/awkward/forms/recordform.py:170-175 | named records with distinct names are equal under any reordering of their (field, content) pairs |
| Equality.RepeatedNameShadowed | src/awkward/forms/recordform.py:173-175 | with a repeated field name, the earlier content under it is ignored |
| Equality.EqualIsIdentityWithoutRecords | src/awkward/forms/bytemaskedform.py:137-147 | with plain helper comparisons, trees without records are equal exactly when identical, since ByteMaskedForm compares every field |
| Text.Split | src/awkward/forms/form.py:233 | `split(sep)` gives at least one piece, none holding the separator; text without the separator is one piece |
| Text.JoinSplit | src/awkward/forms/form.py:386 | joining the pieces of a split gives the string back |
| Text.NatToString | src/awkward/forms/recordform.py:76 | `str(n)` is a non-empty string of digits |
| Text.ParseNat | src/awkward/forms/recordform.py:91 | `int(s)` succeeds on a non-empty run of decimal digits |
| Text.ParseNatToString | src/awkward/forms/recordform.py:113-119 | `int(str(n)) == n` |
| Text.FnMatchCase | src/awkward/forms/recordform.py:330 | `fnmatch.fnmatchcase` with `*` and `?`; stated by Text.LiteralPatternMatchesItself and Text.StarMatchesEverything |
| Text.LiteralPatternMatchesItself | src/awkward/forms/recordform.py:330 | a pattern without wildcards matches exactly its own spelling |
| Text.StarMatchesEverything | src/awkward/forms/recordform.py:330 | `*` matches every field name |
| Text.PositionalNames | src/awkward/forms/recordform.py:56-57 | `[str(i) for i in range(n)]` has n names, the i-th spelling i |
| Braces.GroupsFrom | src/awkward/forms/form.py:232 | `re.finditer` gives innermost groups, left to right, without overlap |
| Braces.GroupsFromFinds | src/awkward/forms/form.py:232 | every innermost group after the scan position is found |
| Braces.ReversedDescending | src/awkward/forms/form.py:232 | the reversed spans run right to left without overlap |
| Braces.NoSpansIffNoGroup | src/awkward/forms/form.py:232-235 | the scan finds nothing exactly when the text holds no group |
| Braces.Spans | src/awkward/forms/form.py:232 | `spans` are innermost groups, right to left, and empty exactly when there is no group |
| Braces.Alts | src/awkward/forms/form.py:233 | each group's comma-separated alternatives, in span order |
| Braces.Product | src/awkward/forms/form.py:241 | `itertools.product(*alts)`: every row picks one alternative per group, and there are `ProductSize(alts)` rows (Braces.ProductComplete gives the converse) |
| Braces.PrefixedAt | src/awkward/forms/form.py:241 | with n tails, row `i * n + j` of one level of the product is head i followed by tail j: the first group varies slowest |
| Braces.ProductSize | src/awkward/forms/form.py:241 | the product of the group sizes, zero exactly when some group has no alternative |
| Braces.ProductComplete | src/awkward/forms/form.py:241 | every choice of one alternative per group is a row of the product |
| Braces.ProductShrinks | src/awkward/forms/form.py:241-245 | each chosen alternative is shorter than its group, so the recursion terminates |
| Braces.SpliceShrinks | src/awkward/forms/form.py:242-245 | replacing at least one group makes the text strictly shorter |
| Braces.FreshAppend | src/awkward/forms/form.py:236-238 | filtering through `seen` over two runs equals filtering the first, then the second with `seen` grown by the first |
| Braces.FreshDistinct | src/awkward/forms/form.py:236-238 | what passes the `seen` test never repeats, was not in `seen` and comes from the input |
| Braces.FreshComplete | src/awkward/forms/form.py:236-238 | every input string outside `seen` passes the `seen` test at least once |
| Braces.Fresh | src/awkward/forms/form.py:236-238 | the `seen` filter; stated by Braces.FreshDistinct, Braces.FreshComplete and Braces.FreshAppend |
| Braces.Splice | src/awkward/forms/form.py:242-244 | the inner replacement loop; stated by Braces.SpliceIn and Braces.SpliceShrinks |
| Braces.ExpandAll | src/awkward/forms/form.py:241-245 | the combination loop as a function; stated by Braces.ExpandCombos and Braces.ExpansionsHaveNoGroup |
| Braces.Expansions | src/awkward/forms/form.py:228-245 | every expansion before the `seen` filter; stated by Braces.ExpandBraces, Braces.FreshExpansions and Braces.ExpansionsHaveNoGroup |
| Braces.ExpansionsHaveNoGroup | src/awkward/forms/form.py:228-245 | no result of the expansion holds a brace group |
| Braces.NoGroupExpandsToItself | src/awkward/forms/form.py:235-238 | a text without a group expands to itself alone |
| Braces.ExpandTwoAlternatives | src/awkward/forms/form.py:228-245 | `"{a,b}"` expands to `"a"` then `"b"` |
| Braces.SpliceIn | src/awkward/forms/form.py:242-244 | the inner loop puts each alternative in place of its span, right to left |
| Braces.FreshExpansions | src/awkward/forms/form.py:228-245 | the generated strings are distinct, not previously seen and free of groups |
| Braces.ExpandBraces | src/awkward/forms/form.py:228-245 | the generator yields exactly the unseen expansions in order, and `seen` grows by every expansion reached |
| Braces.ExpandCombos | src/awkward/forms/form.py:241-245 | the combination loop yields the unseen expansions of the combinations in order, threading `seen` |
| ColumnEngine.Columns | src/awkward/forms/recordform.py:320-322 | the paths `_columns` appends, a ByteMaskedForm passing the path to its content (bytemaskedform.py:149-150); stated by ColumnEngine.AppendColumns, ColumnEngine.FormColumns and ColumnEngine.ColumnsUnderPrefix |
| ColumnEngine.FieldColumns | src/awkward/forms/recordform.py:320-322 | the record loop over `zip(contents, fields)`; stated by ColumnEngine.AppendColumns |
| ColumnEngine.ColumnsUnderPrefix | src/awkward/forms/form.py:364-367 | `column_prefix` only puts itself in front of every path a leaf is reached at |
| ColumnEngine.AppendColumns | src/awkward/forms/recordform.py:320-322 | `_columns` appends exactly this subtree's paths to `output`; records extend the path by each field, and wrappers such as ByteMaskedForm pass it through |
| ColumnEngine.FormColumns | src/awkward/forms/form.py:364-367 | `columns()` lists the paths of the whole tree, each starting with `column_prefix` |
| ColumnEngine.ColumnTypes | src/awkward/forms/recordform.py:350-351 | `_column_types()`, a ByteMaskedForm deferring to its content (bytemaskedform.py:162-163); stated by ColumnEngine.ColumnTypesMatchColumns |
| ColumnEngine.ContentTypes | src/awkward/forms/recordform.py:350-351 | the `sum(...)` over the record contents; stated by ColumnEngine.ColumnTypesMatchColumns |
| ColumnEngine.ColumnTypesMatchColumns | src/awkward/forms/recordform.py:350-351 | with one name per content, `column_types()` lists as many entries as `columns()` |
| ColumnEngine.NextMatches | src/awkward/forms/recordform.py:328-332 | one flag per pattern |
| ColumnEngine.Select | src/awkward/forms/recordform.py:324-348 | the header is kept; a record gives a named record with one name per kept content, which is empty exactly when nothing was appended; a wrapper keeps everything but its child |
| ColumnEngine.SelectFields | src/awkward/forms/recordform.py:327-340 | one kept name per kept content, and nothing appended exactly when nothing is kept |
| ColumnEngine.SelectFieldsInOrder | src/awkward/forms/recordform.py:327-340 | the kept names are the field names with some left out, in their order |
| ColumnEngine.SurvivorOf | src/awkward/forms/recordform.py:333-340 | each kept name belongs to a field that some live pattern reached and whose visit appended something |
| ColumnEngine.SelectFieldsOnlySurvivors | src/awkward/forms/recordform.py:333-340 | only surviving fields are kept |
| ColumnEngine.SelectFieldsAllSurvivors | src/awkward/forms/recordform.py:333-340 | every surviving field is kept |
| ColumnEngine.SelectIn | src/awkward/forms/bytemaskedform.py:159-160 | `_select_columns` returns the `Select` node and grows `output` by its count; a ByteMaskedForm copies itself around its selected content |
| ColumnEngine.SelectRecord | src/awkward/forms/recordform.py:324-348 | the record loop returns the `Select` node and grows `output` by its count |
| ColumnEngine.SelectNoMatch | src/awkward/forms/recordform.py:328-333 | with no pattern alive, no field is visited and the record comes back empty |
| ColumnEngine.SelectOneLiteral | src/awkward/forms/recordform.py:330 | a single literal pattern keeps only fields spelled exactly like it at the top record |
| ColumnEngine.SelectReordered | src/awkward/forms/form.py:386 | any reordering or repetition of the patterns gives the same selection |
| ColumnEngine.CheckItems | src/awkward/forms/form.py:373-377 | succeeds exactly when every item is a str, and gives them in order; otherwise a TypeError naming a non-string item |
| ColumnEngine.CheckItemsFirstFailure | src/awkward/forms/form.py:373-377 | the TypeError names the first non-string item |
| ColumnEngine.CheckSpecifierItems | src/awkward/forms/form.py:373-377 | the check loop gives the `CheckItems` result |
| ColumnEngine.Patterns | src/awkward/forms/form.py:386 | one path per pattern |
| ColumnEngine.PatternsFaithful | src/awkward/forms/form.py:386 | `""` is the empty path, other patterns split on dots and join back, and distinct patterns give distinct paths |
| ColumnEngine.SelectSpec | src/awkward/forms/form.py:369-386 | the patterns are distinct and, with `expand_braces`, free of brace groups |
| ColumnEngine.ExpandEachHasNoGroup | src/awkward/forms/form.py:379-384 | no expanded item holds a brace group |
| ColumnEngine.AllAlive | src/awkward/forms/form.py:387 | every pattern starts out alive |
| ColumnEngine.SelectColumnsAnyOrder | src/awkward/forms/form.py:386-390 | the order `set(specifier)` lists the patterns in, and the de-duplication, do not change the result |
| ColumnEngine.SelectColumns | src/awkward/forms/form.py:369-390 | `select_columns` checks the items, expands braces, de-duplicates, splits and selects from depth 0 with every pattern alive |
| ColumnEngine.ExpandItems | src/awkward/forms/form.py:379-384 | the expansion loop concatenates each item's expansions, in order |
| ColumnEngine.SpecifierItems | src/awkward/forms/form.py:370-371 | a single string becomes a one-item list; stated through ColumnEngine.SelectColumns |
| ColumnEngine.ExpandEach | src/awkward/forms/form.py:379-384 | every item expanded with its own `seen`, results concatenated; stated by ColumnEngine.ExpandItems and ColumnEngine.ExpandEachHasNoGroup |
| ColumnEngine.SelectColumnsResult | src/awkward/forms/form.py:369-390 | `select_columns`; stated by ColumnEngine.SelectColumns and ColumnEngine.SelectColumnsAnyOrder |
| ArrayTypes.NewArrayType | src/awkward/types/arraytype.py:16-33 | content must be a Type (TypeError), then length a non-negative integer or unknown (ValueError); the stored length is the given one |
| ArrayTypes.NewArrayTypeRoundTrip | src/awkward/types/arraytype.py:16-33 | every array type is rebuilt by the constructor from its own content and length |
| ArrayTypes.IsEqualTo | src/awkward/types/arraytype.py:67-78 | `is_equal_to`; stated by ArrayTypes.IsEqualToSymmetric, ArrayTypes.UnknownLengthMatchesAny and ArrayTypes.IsEqualToNotTransitive |
| ArrayTypes.IsEqualToSymmetric | src/awkward/types/arraytype.py:67-76 | `is_equal_to` is symmetric when the content comparison is |
| ArrayTypes.UnknownLengthMatchesAny | src/awkward/types/arraytype.py:67-76 | an unknown length matches any length, so only the contents decide |
| ArrayTypes.IsEqualToNotTransitive | src/awkward/types/arraytype.py:67-76 | `is_equal_to` is not transitive: lengths 1 and 2 each match unknown but not each other |
| ArrayTypes.LengthTextParses | src/awkward/types/arraytype.py:55 | a known length prints as decimal text that reads back as the length |
| ArrayTypes.StrParts | src/awkward/types/arraytype.py:53-61 | `_str` is `"<length> * "` followed by the content's pieces: `str(length)` for a known length, the sentinel's text otherwise, and a known prefix reads back as the length |

## Left out

- The Form variants other than RecordForm and ByteMaskedForm are not part of this model as
  source files. Their dict keys and constructor checks are taken from what `from_dict`
  reads and passes on. Their own `_columns`, `_select_columns` and `_column_types` on
  leaves (NumpyForm, EmptyForm, UnionForm) are parameters (`leaf`, `leafTypes`). Leaves are
  assumed to return themselves from `_select_columns`.
- ColumnEngine.AppendColumns: `list_indicator` is not modelled. Whatever a list node adds to
  a path lives in the files of the list variants, which are not part of this model.
- ColumnEngine.SelectIn: the `output` list of `_select_columns` is modelled by its length,
  the only thing the record loop reads from it.
- Serialization.AsFieldNames: field names are typed as strings, so `from_dict` here refuses
  a `fields` list holding non-strings, or a `fields` string. The RecordForm constructor only
  checks that `fields` is iterable and stores it as given.
- Serialization.AsList: `contents` of a record or union are typed as a JSON list (or a
  mapping, for old-style records), so a string `contents`, which Python iterates
  character by character, is refused here.
- recordform.py defines `_tolist_part` and calls `_tolist_extra`, which no file of this
  model defines, instead of `_to_dict_part` and `_to_dict_extra`. The model serializes a
  RecordForm, and a ByteMaskedForm over one, as if those were `_to_dict_part` and
  `_to_dict_extra`. Read literally, `to_dict()` would reach the base `_to_dict_part` and
  raise NotImplementedError.
- ArrayTypes.NewArrayType: the `behavior` argument is not stored. `_str` only passes it on
  to the content's `_str`, and that is inside the `contentStr` parameter of
  ArrayTypes.StrParts.
- ByteMaskedForm's `_select_columns(match_specifier)` comes from a newer interface than
  form.py's `_select_columns(index, specifier, matches, output)`. It is modelled as passing
  the older arguments through to its content.
- Text.FnMatchCase: glob character classes (`[...]`) are not modelled; only `*` and `?`.
- Text.ParseNat: `int()` signs, surrounding whitespace and underscores are not modelled, so
  a field spelled `"+1"` or `" 1"` is treated as not a position.
- `from_dict` reads any Python dict; JSON text (`from_json`, `to_json`, `__str__`) and
  `__repr__` are left out as I/O and printing.
- `length_zero_array` and `length_one_array` call into the array builder, which is not part
  of this model. So do `type`/`_type`, `type_from_behavior` and the behaviour lookups.
- `RecordForm.has_identifier` and the positional `_init` call in recordform.py are left
  out: form.py's `_init` takes the header by keyword only. The RecordForm constructor's
  check that `contents` and `fields` are iterable is a type guarantee here.
- `_getitem_field` and the `only_fields` head/tail recursion of `_getitem_fields` are left
  out; `_getitem_fields` is modelled with `only_fields` empty.
- `generated_compatibility`, `_getitem_range`, `_carry`, `purelist_*`,
  `dimension_optiontype` and `is_identity_like` are left out as outside the modelled
  operations.
- `_parameters_equal`, `type_parameters_equal`, Type equality,
  `_union_of_optionarrays`, `IndexedOptionForm.simplified`, the children's
  `_prune_columns` and `index_to_dtype` are parameters of the members that call them.
- `__setstate__` with a dict state (`self.__dict__.update(state)`) is left out: it copies
  arbitrary attributes.
- `_expand_braces` is a lazy generator. The model computes its whole output at once; the
  yield order and the effect on `seen` are the same.
- Python's `set(specifier)` has no defined order. The model de-duplicates keeping first
  occurrences, and ColumnEngine.SelectColumnsAnyOrder proves that the order cannot change
  the result.
- ArrayTypes.StrParts: the text `unknown_length` prints as is a parameter, and the content
  Type's `_str` pieces are a parameter.
