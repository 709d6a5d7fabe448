/**
 * `ByteMaskedForm`, the option wrapper whose missing entries are marked by a byte mask:
 * constructor validation, `copy` with its three-state arguments, the `simplified`
 * canonicalising dispatch, column pruning, the legacy positional unpickle and the buffers
 * it expects. Serialization is in Serialization, equality in Equality and the column
 * pass-through in ColumnEngine.
 */
module ByteMaskedForms {
  import opened Wrappers
  import opened JsonData
  import opened Errors
  import opened Forms

  predicate IsStr(v: Value) { v.VJson? && v.json.JString? }

  predicate IsBool(v: Value) { v.VJson? && v.json.JBool? }

  /**
   * The constructor's own checks, in order: `mask` a str, `content` a Form, `valid_when`
   * a bool, each failure a TypeError.
   */
  function CheckFields(mask: Value, content: Value, validWhen: Value): (r: Result<(string, Form, bool)>)
    ensures r.Ok? <==> IsStr(mask) && content.VForm? && IsBool(validWhen)
    ensures !IsStr(mask) ==> r == Err(BadMask)
    ensures IsStr(mask) && !content.VForm? ==> r == Err(BadContent)
    ensures IsStr(mask) && content.VForm? && !IsBool(validWhen) ==> r == Err(BadValidWhen)
    ensures r.Ok? ==> VJson(JString(r.value.0)) == mask && VForm(r.value.1) == content && VJson(JBool(r.value.2)) == validWhen
  {
    if !IsStr(mask) then Err(BadMask)
    else if !content.VForm? then Err(BadContent)
    else if !IsBool(validWhen) then Err(BadValidWhen)
    else Ok((mask.json.s, content.form, validWhen.json.b))
  }

  /** `ByteMaskedForm(mask, content, valid_when, parameters=..., form_key=...)`. */
  function NewByteMasked(mask: Value, content: Value, validWhen: Value, parameters: Json, formKey: Json): (r: Result<Form>)
    ensures r.Ok? <==> CheckFields(mask, content, validWhen).Ok? && CheckInit(parameters, formKey).Ok?
    ensures CheckFields(mask, content, validWhen).Err? ==> r == Err(CheckFields(mask, content, validWhen).error)
    ensures CheckFields(mask, content, validWhen).Ok? && CheckInit(parameters, formKey).Err? ==>
              r == Err(CheckInit(parameters, formKey).error)
    ensures r.Ok? ==> r.value.ByteMaskedForm? && VJson(JString(r.value.mask)) == mask
    ensures r.Ok? ==> VForm(r.value.content) == content && VJson(JBool(r.value.validWhen)) == validWhen
    ensures r.Ok? ==> ParamsJson(r.value.meta.parameters) == parameters && KeyJson(r.value.meta.formKey) == formKey
  {
    var (k, c, v) :- CheckFields(mask, content, validWhen);
    var m :- CheckInit(parameters, formKey);
    Ok(ByteMaskedForm(k, c, v, m))
  }

  /** A `copy` argument: left at UNSET, or passed explicitly (None included). */
  datatype Update<T> = Unset | To(value: T) {
    function Or(current: T): T {
      match this
      case Unset => current
      case To(v) => v
    }
  }

  /**
   * `copy(...)`: a new node through the constructor, each UNSET argument replaced by the
   * current value.
   */
  function Copy(f: Form, mask: Update<Value>, content: Update<Value>, validWhen: Update<Value>,
                parameters: Update<Json>, formKey: Update<Json>): (r: Result<Form>)
    requires f.ByteMaskedForm?
    ensures mask.Unset? && content.Unset? && validWhen.Unset? && parameters.Unset? && formKey.Unset? ==> r == Ok(f)
    ensures r.Ok? <==>
              (mask.To? ==> IsStr(mask.value)) && (content.To? ==> content.value.VForm?) &&
              (validWhen.To? ==> IsBool(validWhen.value)) &&
              CheckInit(parameters.Or(ParamsJson(f.meta.parameters)), formKey.Or(KeyJson(f.meta.formKey))).Ok?
    ensures r.Ok? ==> r.value.ByteMaskedForm?
    ensures r.Ok? ==> (if mask.Unset? then r.value.mask == f.mask else mask.value == VJson(JString(r.value.mask)))
    ensures r.Ok? ==> (if content.Unset? then r.value.content == f.content else content.value == VForm(r.value.content))
    ensures r.Ok? ==> (if validWhen.Unset? then r.value.validWhen == f.validWhen else validWhen.value == VJson(JBool(r.value.validWhen)))
    ensures r.Ok? ==> (if parameters.Unset? then r.value.meta.parameters == f.meta.parameters
                       else parameters.value == ParamsJson(r.value.meta.parameters))
    ensures r.Ok? ==> (if formKey.Unset? then r.value.meta.formKey == f.meta.formKey
                       else formKey.value == KeyJson(r.value.meta.formKey))
  {
    CheckInitRoundTrip(f.meta);
    var r := NewByteMasked(mask.Or(VJson(JString(f.mask))), content.Or(VForm(f.content)),
                           validWhen.Or(VJson(JBool(f.validWhen))),
                           parameters.Or(ParamsJson(f.meta.parameters)), formKey.Or(KeyJson(f.meta.formKey)));
    if r.Ok? then HeaderJsonInjective(r.value.meta, f.meta); r else r
  }

  /** Passing `form_key=None` explicitly clears the key; leaving it UNSET keeps it. */
  lemma CopyFormKey(f: Form)
    requires f.ByteMaskedForm?
    ensures Copy(f, Unset, Unset, Unset, Unset, To(JNull)) == Ok(ByteMaskedForm(f.mask, f.content, f.validWhen, Meta(f.meta.parameters, None)))
    ensures Copy(f, Unset, Unset, Unset, Unset, To(JString("k"))) == Ok(ByteMaskedForm(f.mask, f.content, f.validWhen, Meta(f.meta.parameters, Some("k"))))
  {
    var r := Copy(f, Unset, Unset, Unset, Unset, To(JNull));
    assert r.Ok? && r.value.meta.formKey == None;
    var s := Copy(f, Unset, Unset, Unset, Unset, To(JString("k")));
    assert s.Ok? && s.value.meta.formKey == Some("k");
  }

  /**
   * `simplified(mask, content, valid_when, ...)`: a union content is turned into a union of
   * options (`unionOfOptions`, for `_union_of_optionarrays("i64", parameters)`), an indexed
   * or option content into an IndexedOptionForm (`indexedOption`, for
   * `IndexedOptionForm.simplified("i64", content, parameters=...)`), anything else is
   * wrapped by the constructor.
   */
  function Simplified(mask: Value, content: Form, validWhen: Value, parameters: Json, formKey: Json,
                      unionOfOptions: (Form, string, Json) -> Result<Form>,
                      indexedOption: (string, Form, Json) -> Result<Form>): (r: Result<Form>)
    ensures content.IsUnion() ==> r == unionOfOptions(content, "i64", parameters)
    ensures !content.IsUnion() && (content.IsIndexed() || content.IsOption()) ==> r == indexedOption("i64", content, parameters)
    ensures !content.IsUnion() && !content.IsIndexed() && !content.IsOption() ==>
              r == NewByteMasked(mask, VForm(content), validWhen, parameters, formKey)
  {
    if content.IsUnion() then unionOfOptions(content, "i64", parameters)
    else if content.IsIndexed() || content.IsOption() then indexedOption("i64", content, parameters)
    else NewByteMasked(mask, VForm(content), validWhen, parameters, formKey)
  }

  /**
   * In the first two branches the mask, valid_when and form_key arguments are dropped: any
   * two calls that differ only in them give the same result.
   */
  lemma SimplifiedDropsMask(content: Form, parameters: Json,
                            mask1: Value, validWhen1: Value, formKey1: Json,
                            mask2: Value, validWhen2: Value, formKey2: Json,
                            unionOfOptions: (Form, string, Json) -> Result<Form>,
                            indexedOption: (string, Form, Json) -> Result<Form>)
    requires content.IsUnion() || content.IsIndexed() || content.IsOption()
    ensures Simplified(mask1, content, validWhen1, parameters, formKey1, unionOfOptions, indexedOption)
         == Simplified(mask2, content, validWhen2, parameters, formKey2, unionOfOptions, indexedOption)
  {
  }

  /**
   * Otherwise the result is never an option wrapped around an option, an index or a union:
   * a ByteMaskedForm holding exactly the content given.
   */
  lemma SimplifiedWrapsPlainContent(mask: Value, content: Form, validWhen: Value, parameters: Json, formKey: Json,
                                    unionOfOptions: (Form, string, Json) -> Result<Form>,
                                    indexedOption: (string, Form, Json) -> Result<Form>)
    requires !content.IsUnion() && !content.IsIndexed() && !content.IsOption()
    requires IsStr(mask) && IsBool(validWhen) && CheckInit(parameters, formKey).Ok?
    ensures Simplified(mask, content, validWhen, parameters, formKey, unionOfOptions, indexedOption).Ok?
    ensures var r := Simplified(mask, content, validWhen, parameters, formKey, unionOfOptions, indexedOption).value;
            r.ByteMaskedForm? && r.content == content && !r.content.IsOption() && !r.content.IsUnion() && !r.content.IsIndexed()
  {
    var r := Simplified(mask, content, validWhen, parameters, formKey, unionOfOptions, indexedOption);
    assert r == NewByteMasked(mask, VForm(content), validWhen, parameters, formKey);
    assert VForm(r.value.content) == VForm(content);
  }

  /**
   * `_prune_columns`: None when the content prunes away (`pruneChild`, the content's own
   * `_prune_columns`), otherwise a copy with only the content replaced.
   */
  function PruneColumns(f: Form, insideRecordOrUnion: bool, pruneChild: (Form, bool) -> Option<Form>): (r: Option<Form>)
    requires f.ByteMaskedForm?
    ensures r.None? <==> pruneChild(f.content, insideRecordOrUnion).None?
    ensures r.Some? ==> r.value == f.WithContent(pruneChild(f.content, insideRecordOrUnion).value)
  {
    match pruneChild(f.content, insideRecordOrUnion)
    case None => None
    case Some(c) =>
      var copied := Copy(f, Unset, To(VForm(c)), Unset, Unset, Unset);
      CheckInitRoundTrip(f.meta);
      assert copied.Ok?;
      Some(copied.value)
  }

  /**
   * `__setstate__` with a non-dict state: the new (form, raised error) for a node currently
   * equal to `current`. The state must unpack into exactly six items
   * (has_identities, parameters, form_key, mask, content, valid_when); a form_key other
   * than None gets the prefix "part0-" (a non-str one cannot be concatenated); then
   * `__init__` runs, which stores mask, content and valid_when before `_init` checks the
   * header, so a bad parameters item leaves those three already replaced.
   */
  function Unpickled(current: Form, state: seq<Value>): (r: (Form, Option<Error>))
    requires current.ByteMaskedForm?
    ensures r.0.ByteMaskedForm?
    ensures |state| != 6 ==> r == (current, Some(WrongStateArity(|state|)))
    ensures r.1.None? <==>
              |state| == 6 && (state[2] == VJson(JNull) || IsStr(state[2])) &&
              CheckFields(state[3], state[4], state[5]).Ok? && state[1].VJson? &&
              (state[1].json.JNull? || state[1].json.JObject?)
    ensures r.1.None? ==> KeyJson(r.0.meta.formKey) == (if state[2] == VJson(JNull) then JNull else JString("part0-" + state[2].json.s))
    ensures r.1.None? ==> ParamsJson(r.0.meta.parameters) == state[1].json
    ensures r.1.Some? ==> r.0.meta == current.meta
  {
    if |state| != 6 then (current, Some(WrongStateArity(|state|)))
    else
      var formKey := state[2];
      if !(formKey == VJson(JNull) || IsStr(formKey)) then (current, Some(LegacyFormKey))
      else
        var key := if formKey == VJson(JNull) then JNull else JString("part0-" + formKey.json.s);
        match CheckFields(state[3], state[4], state[5])
        case Err(e) => (current, Some(e))
        case Ok((k, c, v)) =>
          var stored := ByteMaskedForm(k, c, v, current.meta);
          if !state[1].VJson? then (stored, Some(BadParametersObject))
          else
            match CheckInit(state[1].json, key)
            case Err(e) => (stored, Some(e))
            case Ok(m) => (ByteMaskedForm(k, c, v, m), None)
  }

  /** A state written by the 1.x pickler (a valid node's own items) loads with the key prefixed. */
  lemma UnpickledLegacyNode(current: Form, hasIdentities: Value, f: Form)
    requires current.ByteMaskedForm? && f.ByteMaskedForm?
    ensures Unpickled(current, [hasIdentities, VJson(ParamsJson(f.meta.parameters)), VJson(KeyJson(f.meta.formKey)),
                                VJson(JString(f.mask)), VForm(f.content), VJson(JBool(f.validWhen))])
         == (ByteMaskedForm(f.mask, f.content, f.validWhen,
                            Meta(f.meta.parameters, if f.meta.formKey.Some? then Some("part0-" + f.meta.formKey.value) else None)),
             None)
  {
    match f.meta.parameters
    case None =>
    case Some(d) =>
  }

  /**
   * A parameters item that is neither None nor a dict raises after the first three fields
   * were already replaced: the node is left half-updated.
   */
  lemma UnpickledHalfUpdated(current: Form, state: seq<Value>)
    requires current.ByteMaskedForm? && |state| == 6
    requires state[2] == VJson(JNull) && CheckFields(state[3], state[4], state[5]).Ok?
    requires state[1] == VJson(JInt(0))
    ensures Unpickled(current, state).1 == Some(BadParameters(JInt(0)))
    ensures Unpickled(current, state).0 == ByteMaskedForm(state[3].json.s, state[4].form, state[5].json.b, current.meta)
  {
  }

  /** A node object whose fields `__setstate__` overwrites. */
  class ByteMaskedNode {
    var mask: string
    var content: Form
    var validWhen: bool
    var header: Meta

    /** The node's current fields as a Form value. */
    function Snapshot(): (f: Form)
      reads this
      ensures f.ByteMaskedForm?
    {
      ByteMaskedForm(mask, content, validWhen, header)
    }

    constructor (f: Form)
      requires f.ByteMaskedForm?
      ensures Snapshot() == f
    {
      mask := f.mask;
      content := f.content;
      validWhen := f.validWhen;
      header := f.meta;
    }

    /** `__setstate__(state)` for a positional (non-dict) state, assignment by assignment. */
    method SetState(state: seq<Value>) returns (err: Option<Error>)
      modifies this
      ensures (Snapshot(), err) == Unpickled(old(Snapshot()), state)
    {
      if |state| != 6 {
        return Some(WrongStateArity(|state|));
      }
      var parameters, formKey, maskArg, contentArg, validWhenArg := state[1], state[2], state[3], state[4], state[5];
      if formKey != VJson(JNull) {
        if !IsStr(formKey) {
          return Some(LegacyFormKey);
        }
        formKey := VJson(JString("part0-" + formKey.json.s));
      }
      if !IsStr(maskArg) {
        return Some(BadMask);
      }
      if !contentArg.VForm? {
        return Some(BadContent);
      }
      if !IsBool(validWhenArg) {
        return Some(BadValidWhen);
      }
      mask := maskArg.json.s;
      content := contentArg.form;
      validWhen := validWhenArg.json.b;
      if !parameters.VJson? {
        return Some(BadParametersObject);
      }
      var checked := CheckInit(parameters.json, formKey.json);
      if checked.Err? {
        return Some(checked.error);
      }
      header := checked.value;
      return None;
    }
  }

  /**
   * `_expected_from_buffers(getkey, recursive)`: the mask's buffer key with the dtype of its
   * index type first, then, only when `recursive`, what the content expects (`others` for a
   * content that is not itself a ByteMaskedForm). A mask type missing from `indexToDtype`
   * is a KeyError.
   */
  function ExpectedFromBuffers<D>(f: Form, getkey: (Form, string) -> string, recursive: bool,
                                  indexToDtype: map<string, D>,
                                  others: Form -> Result<seq<(string, D)>>): (r: Result<seq<(string, D)>>)
    requires f.ByteMaskedForm?
    ensures f.mask !in indexToDtype ==> r == Err(MissingKey(f.mask))
    ensures r.Ok? ==> |r.value| >= 1 && r.value[0] == (getkey(f, "mask"), indexToDtype[f.mask])
    ensures !recursive ==> (r.Ok? <==> f.mask in indexToDtype) && (r.Ok? ==> |r.value| == 1)
    ensures recursive && r.Ok? && !f.content.ByteMaskedForm? ==> Ok(r.value[1..]) == others(f.content)
    ensures recursive && r.Ok? && f.content.ByteMaskedForm? ==>
              Ok(r.value[1..]) == ExpectedFromBuffers(f.content, getkey, recursive, indexToDtype, others)
  {
    if f.mask !in indexToDtype then Err(MissingKey(f.mask))
    else
      var head := (getkey(f, "mask"), indexToDtype[f.mask]);
      if !recursive then Ok([head])
      else
        var rest :- if f.content.ByteMaskedForm? then ExpectedFromBuffers(f.content, getkey, recursive, indexToDtype, others)
                    else others(f.content);
        assert ([head] + rest)[1..] == rest;
        Ok([head] + rest)
  }

  /** Nested masks are expected outermost first, one entry per level. */
  lemma ExpectedNestedMasks<D>(f: Form, getkey: (Form, string) -> string, indexToDtype: map<string, D>,
                               others: Form -> Result<seq<(string, D)>>)
    requires f.ByteMaskedForm? && f.content.ByteMaskedForm?
    requires f.mask in indexToDtype && f.content.mask in indexToDtype
    requires !f.content.content.ByteMaskedForm? && others(f.content.content).Ok?
    ensures var r := ExpectedFromBuffers(f, getkey, true, indexToDtype, others);
            r.Ok? && |r.value| == 2 + |others(f.content.content).value| &&
            r.value[0] == (getkey(f, "mask"), indexToDtype[f.mask]) &&
            r.value[1] == (getkey(f.content, "mask"), indexToDtype[f.content.mask])
  {
    var inner := ExpectedFromBuffers(f.content, getkey, true, indexToDtype, others);
    assert inner.Ok?;
  }
}
