/**
 * The Form node hierarchy and the contract shared by every variant: the `parameters` and
 * `form_key` header, its validation in `_init`, `parameter(key)`, the mutable `form_key`
 * setter and the verbose/non-verbose rule for serializing the header (`_to_dict_extra`).
 */
module Forms {
  import opened Wrappers
  import opened JsonData
  import opened Errors
  import opened Types

  /** The header every Form carries: `_parameters` (None or a dict) and `_form_key`. */
  datatype Meta = Meta(parameters: Option<Params>, formKey: Option<string>)

  /** The closed set of Form variants. A Record's `fieldNames` is None in tuple mode. */
  datatype Form =
    | NumpyForm(primitive: string, innerShape: seq<nat>, meta: Meta)
    | EmptyForm(meta: Meta)
    | RegularForm(content: Form, size: Length, meta: Meta)
    | ListForm(starts: string, stops: string, content: Form, meta: Meta)
    | ListOffsetForm(offsets: string, content: Form, meta: Meta)
    | IndexedForm(index: string, content: Form, meta: Meta)
    | IndexedOptionForm(index: string, content: Form, meta: Meta)
    | ByteMaskedForm(mask: string, content: Form, validWhen: bool, meta: Meta)
    | BitMaskedForm(mask: string, content: Form, validWhen: bool, lsbOrder: bool, meta: Meta)
    | UnmaskedForm(content: Form, meta: Meta)
    | RecordForm(contents: seq<Form>, fieldNames: Option<seq<string>>, meta: Meta)
    | UnionForm(tags: string, index: string, contents: seq<Form>, meta: Meta)
  {
    /** The variants with exactly one child. */
    predicate HasOneChild() {
      !(NumpyForm? || EmptyForm? || RecordForm? || UnionForm?)
    }

    /** `is_option`: the option-flavoured wrappers. */
    predicate IsOption() {
      IndexedOptionForm? || ByteMaskedForm? || BitMaskedForm? || UnmaskedForm?
    }

    /** `is_indexed`: the index-carrying wrappers. */
    predicate IsIndexed() {
      IndexedForm? || IndexedOptionForm?
    }

    /** `is_union`. */
    predicate IsUnion() {
      UnionForm?
    }

    /** The same node with its header replaced. */
    function WithMeta(m: Meta): (r: Form)
      ensures r.meta == m
    {
      match this
      case NumpyForm(p, s, _) => NumpyForm(p, s, m)
      case EmptyForm(_) => EmptyForm(m)
      case RegularForm(c, n, _) => RegularForm(c, n, m)
      case ListForm(a, b, c, _) => ListForm(a, b, c, m)
      case ListOffsetForm(o, c, _) => ListOffsetForm(o, c, m)
      case IndexedForm(i, c, _) => IndexedForm(i, c, m)
      case IndexedOptionForm(i, c, _) => IndexedOptionForm(i, c, m)
      case ByteMaskedForm(k, c, v, _) => ByteMaskedForm(k, c, v, m)
      case BitMaskedForm(k, c, v, l, _) => BitMaskedForm(k, c, v, l, m)
      case UnmaskedForm(c, _) => UnmaskedForm(c, m)
      case RecordForm(cs, fs, _) => RecordForm(cs, fs, m)
      case UnionForm(t, i, cs, _) => UnionForm(t, i, cs, m)
    }

    /** The same single-child node with its child replaced (`copy(content=...)`). */
    function WithContent(c: Form): (r: Form)
      requires HasOneChild()
      ensures r.HasOneChild() && r.content == c && r.meta == meta
    {
      match this
      case RegularForm(_, n, m) => RegularForm(c, n, m)
      case ListForm(a, b, _, m) => ListForm(a, b, c, m)
      case ListOffsetForm(o, _, m) => ListOffsetForm(o, c, m)
      case IndexedForm(i, _, m) => IndexedForm(i, c, m)
      case IndexedOptionForm(i, _, m) => IndexedOptionForm(i, c, m)
      case ByteMaskedForm(k, _, v, m) => ByteMaskedForm(k, c, v, m)
      case BitMaskedForm(k, _, v, l, m) => BitMaskedForm(k, c, v, l, m)
      case UnmaskedForm(_, m) => UnmaskedForm(c, m)
    }
  }

  /** A Python value handed to a constructor, whose type the constructor checks. */
  datatype Value = VJson(json: Json) | VForm(form: Form) | VType(typ: Type) | VUnknownLength

  /** The JSON spelling of a parameters header: None or a dict. */
  function ParamsJson(p: Option<Params>): Json {
    match p
    case None => JNull
    case Some(d) => JObject(d)
  }

  /** The JSON spelling of a form_key: None or a string. */
  function KeyJson(k: Option<string>): Json {
    match k
    case None => JNull
    case Some(s) => JString(s)
  }

  /** Distinct headers have distinct JSON spellings. */
  lemma HeaderJsonInjective(a: Meta, b: Meta)
    ensures ParamsJson(a.parameters) == ParamsJson(b.parameters) ==> a.parameters == b.parameters
    ensures KeyJson(a.formKey) == KeyJson(b.formKey) ==> a.formKey == b.formKey
  {
  }

  /**
   * `Form._init`: parameters must be None or a dict and form_key None or a string, checked
   * in that order; otherwise the TypeError names the offending value.
   */
  function CheckInit(parameters: Json, formKey: Json): (r: Result<Meta>)
    ensures r.Ok? <==> (parameters.JNull? || parameters.JObject?) && (formKey.JNull? || formKey.JString?)
    ensures !(parameters.JNull? || parameters.JObject?) ==> r == Err(BadParameters(parameters))
    ensures (parameters.JNull? || parameters.JObject?) && !(formKey.JNull? || formKey.JString?) ==>
              r == Err(BadFormKey(formKey))
    ensures r.Ok? ==> ParamsJson(r.value.parameters) == parameters && KeyJson(r.value.formKey) == formKey
  {
    if !(parameters.JNull? || parameters.JObject?) then Err(BadParameters(parameters))
    else if !(formKey.JNull? || formKey.JString?) then Err(BadFormKey(formKey))
    else
      Ok(Meta(if parameters.JNull? then None else Some(parameters.entries),
              if formKey.JNull? then None else Some(formKey.s)))
  }

  /** Every header survives being spelled as JSON and validated again. */
  lemma CheckInitRoundTrip(m: Meta)
    ensures CheckInit(ParamsJson(m.parameters), KeyJson(m.formKey)) == Ok(m)
  {
    match m.parameters
    case None =>
    case Some(d) =>
  }

  /** The value of the `parameters` property: `{}` when no parameters were given. */
  function ParametersView(m: Meta): Params {
    m.parameters.GetOr([])
  }

  /**
   * `parameter(key)`: None (JNull) when the node has no parameters or lacks the key,
   * else the stored value.
   */
  function ParameterOf(m: Meta, key: string): (r: Json)
    ensures m.parameters.None? ==> r == JNull
    ensures m.parameters.Some? && HasKey(m.parameters.value, key) ==> (key, r) in m.parameters.value
    ensures m.parameters.Some? && !HasKey(m.parameters.value, key) ==> r == JNull
  {
    match m.parameters
    case None => JNull
    case Some(d) => Get(d, key).GetOr(JNull)
  }

  /** Whether the non-verbose serialization must still emit the parameters. */
  predicate EmitsParameters(m: Meta, verbose: bool) {
    verbose || (m.parameters.Some? && |m.parameters.value| > 0)
  }

  /** Whether the non-verbose serialization must still emit the form_key. */
  predicate EmitsFormKey(m: Meta, verbose: bool) {
    verbose || m.formKey.Some?
  }

  /** `_to_dict_extra`: adds the header entries to a node's dict. */
  function DictExtra(m: Meta, out: Entries, verbose: bool): (r: Entries)
    ensures EmitsParameters(m, verbose) ==> Get(r, "parameters") == Some(JObject(ParametersView(m)))
    ensures !EmitsParameters(m, verbose) ==> Get(r, "parameters") == Get(out, "parameters")
    ensures EmitsFormKey(m, verbose) ==> Get(r, "form_key") == Some(KeyJson(m.formKey))
    ensures !EmitsFormKey(m, verbose) ==> Get(r, "form_key") == Get(out, "form_key")
  {
    var withParams := if EmitsParameters(m, verbose) then Set(out, "parameters", JObject(ParametersView(m))) else out;
    GetSet(out, "parameters", JObject(ParametersView(m)));
    GetSet(withParams, "form_key", KeyJson(m.formKey));
    if EmitsFormKey(m, verbose) then Set(withParams, "form_key", KeyJson(m.formKey)) else withParams
  }

  /** `_to_dict_extra` leaves every key other than the two header keys as it was. */
  lemma DictExtraKeeps(m: Meta, out: Entries, verbose: bool, key: string)
    requires key != "parameters" && key != "form_key"
    ensures Get(DictExtra(m, out, verbose), key) == Get(out, key)
  {
    var withParams := if EmitsParameters(m, verbose) then Set(out, "parameters", JObject(ParametersView(m))) else out;
    GetSet(out, "parameters", JObject(ParametersView(m)));
    GetSet(withParams, "form_key", KeyJson(m.formKey));
  }

  /** On a dict lacking both header keys, `_to_dict_extra` appends the emitted entries. */
  function ExtraEntries(m: Meta, verbose: bool): Entries {
    (if EmitsParameters(m, verbose) then [("parameters", JObject(ParametersView(m)))] else [])
    + (if EmitsFormKey(m, verbose) then [("form_key", KeyJson(m.formKey))] else [])
  }

  lemma DictExtraAppends(m: Meta, out: Entries, verbose: bool)
    requires !HasKey(out, "parameters") && !HasKey(out, "form_key")
    ensures DictExtra(m, out, verbose) == out + ExtraEntries(m, verbose)
  {
    var p := [("parameters", JObject(ParametersView(m)))];
    var withParams := if EmitsParameters(m, verbose) then Set(out, "parameters", JObject(ParametersView(m))) else out;
    if EmitsParameters(m, verbose) {
      SetAbsentAppends(out, "parameters", JObject(ParametersView(m)));
    }
    if EmitsFormKey(m, verbose) {
      assert !HasKey(withParams, "form_key") by {
        forall i | 0 <= i < |withParams| ensures withParams[i].0 != "form_key" {
          if i < |out| { assert withParams[i] == out[i]; }
        }
      }
      SetAbsentAppends(withParams, "form_key", KeyJson(m.formKey));
    }
  }

  /** Reading the key just written gives the value written; other keys are unaffected. */
  lemma {:induction false} GetSet(d: Entries, key: string, value: Json)
    ensures Get(Set(d, key, value), key) == Some(value)
    ensures forall k :: k != key ==> Get(Set(d, key, value), k) == Get(d, k)
  {
    if d != [] && d[0].0 != key {
      GetSet(d[1..], key, value);
    }
  }

  /**
   * The mutable header of a Form node. Everything else about a node is fixed at
   * construction (the datatype above); `_parameters` is written lazily by the
   * `parameters` getter and `_form_key` by the `form_key` setter.
   */
  class FormBase {
    var parameters: Option<Params>
    var formKey: Option<string>

    /** The header as a value. */
    function Snapshot(): Meta
      reads this
    {
      Meta(parameters, formKey)
    }

    constructor ()
      ensures Snapshot() == Meta(None, None)
    {
      parameters := None;
      formKey := None;
    }

    /** `_init`: validates, then stores both fields; on a TypeError nothing is stored. */
    method Init(parametersArg: Json, formKeyArg: Json) returns (err: Option<Error>)
      modifies this
      ensures err.None? <==> CheckInit(parametersArg, formKeyArg).Ok?
      ensures err.Some? ==> err.value == CheckInit(parametersArg, formKeyArg).error
      ensures err.None? ==> Snapshot() == CheckInit(parametersArg, formKeyArg).value
      ensures err.Some? ==> Snapshot() == old(Snapshot())
    {
      if !(parametersArg.JNull? || parametersArg.JObject?) {
        return Some(BadParameters(parametersArg));
      }
      if !(formKeyArg.JNull? || formKeyArg.JString?) {
        return Some(BadFormKey(formKeyArg));
      }
      parameters := if parametersArg.JNull? then None else Some(parametersArg.entries);
      formKey := if formKeyArg.JNull? then None else Some(formKeyArg.s);
      return None;
    }

    /** The `parameters` getter: turns a missing mapping into `{}` on first read. */
    method GetParameters() returns (p: Params)
      modifies this
      ensures p == ParametersView(old(Snapshot()))
      ensures parameters == Some(p) && formKey == old(formKey)
    {
      if parameters.None? {
        parameters := Some([]);
      }
      p := parameters.value;
    }

    /** `parameter(key)`, which does not trigger the lazy write. */
    function Parameter(key: string): (r: Json)
      reads this
      ensures parameters.None? ==> r == JNull
    {
      ParameterOf(Snapshot(), key)
    }

    /** The `form_key` setter: None or a string, else TypeError and no change. */
    method SetFormKey(value: Json) returns (err: Option<Error>)
      modifies this
      ensures err.None? <==> (value.JNull? || value.JString?)
      ensures err.Some? ==> err.value.Kind() == TypeError && Snapshot() == old(Snapshot())
      ensures err.None? ==> formKey == (if value.JNull? then None else Some(value.s))
      ensures parameters == old(parameters)
    {
      if !(value.JNull? || value.JString?) {
        return Some(BadFormKey(value));
      }
      formKey := if value.JNull? then None else Some(value.s);
      return None;
    }

    /**
     * `_to_dict_extra(out, verbose)`: emitting the parameters goes through the getter, so a
     * verbose call leaves `{}` behind where there were no parameters.
     */
    method ToDictExtra(out: Entries, verbose: bool) returns (r: Entries)
      modifies this
      ensures r == DictExtra(old(Snapshot()), out, verbose)
      ensures formKey == old(formKey)
      ensures parameters == (if EmitsParameters(old(Snapshot()), verbose) then Some(ParametersView(old(Snapshot())))
                             else old(parameters))
    {
      r := out;
      if verbose || (parameters.Some? && |parameters.value| > 0) {
        var p := GetParameters();
        r := Set(r, "parameters", JObject(p));
      }
      if verbose || formKey.Some? {
        r := Set(r, "form_key", KeyJson(formKey));
      }
    }
  }
}
