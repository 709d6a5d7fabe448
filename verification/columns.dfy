/**
 * Column paths and column selection over a Form tree: `columns` / `_columns`,
 * `column_types` / `_column_types`, and `select_columns` / `_select_columns`.
 *
 * Records are the only nodes that extend a path or filter children; single-child
 * wrappers pass everything through to their content, as ByteMaskedForm does. The
 * remaining variants (Numpy, Empty, Union) are leaves whose own behaviour is given as a
 * parameter.
 */
module ColumnEngine {
  import opened Wrappers
  import opened JsonData
  import opened Errors
  import opened Forms
  import opened Text
  import RecordForms
  import Braces

  /* ---------------------------------------------------------------- columns */

  /**
   * The column paths `_columns(path, output, ...)` appends below `path`. A record extends
   * the path by each field name (`zip(contents, fields)`, which stops at the shorter of
   * the two); `leaf(g, p)` is what a leaf node `g` appends at path `p`.
   */
  function Columns(f: Form, path: seq<string>, leaf: (Form, seq<string>) -> seq<string>): seq<string>
    decreases f, 1
  {
    if f.RecordForm? then FieldColumns(f.contents, RecordForms.Fields(f), path, leaf)
    else if f.HasOneChild() then Columns(f.content, path, leaf)
    else leaf(f, path)
  }

  /** The columns of the record slots `zip(cs, names)`, in order. */
  function FieldColumns(cs: seq<Form>, names: seq<string>, path: seq<string>, leaf: (Form, seq<string>) -> seq<string>): seq<string>
    decreases cs, 0
  {
    if cs == [] || names == [] then []
    else Columns(cs[0], path + [names[0]], leaf) + FieldColumns(cs[1..], names[1..], path, leaf)
  }

  /** A leaf function that sees every path with `prefix` in front. */
  function Prefixed(prefix: seq<string>, leaf: (Form, seq<string>) -> seq<string>): (Form, seq<string>) -> seq<string> {
    (g: Form, p: seq<string>) => leaf(g, prefix + p)
  }

  /** `column_prefix` only puts itself in front of every path a leaf is reached at. */
  lemma {:induction false} ColumnsUnderPrefix(f: Form, prefix: seq<string>, path: seq<string>, leaf: (Form, seq<string>) -> seq<string>)
    ensures Columns(f, prefix + path, leaf) == Columns(f, path, Prefixed(prefix, leaf))
    decreases f, 1
  {
    if f.RecordForm? {
      FieldColumnsUnderPrefix(f.contents, RecordForms.Fields(f), prefix, path, leaf);
    } else if f.HasOneChild() {
      ColumnsUnderPrefix(f.content, prefix, path, leaf);
    }
  }

  lemma {:induction false} FieldColumnsUnderPrefix(cs: seq<Form>, names: seq<string>, prefix: seq<string>, path: seq<string>,
                                                  leaf: (Form, seq<string>) -> seq<string>)
    ensures FieldColumns(cs, names, prefix + path, leaf) == FieldColumns(cs, names, path, Prefixed(prefix, leaf))
    decreases cs, 0
  {
    if cs != [] && names != [] {
      assert prefix + path + [names[0]] == prefix + (path + [names[0]]);
      ColumnsUnderPrefix(cs[0], prefix, path + [names[0]], leaf);
      FieldColumnsUnderPrefix(cs[1..], names[1..], prefix, path, leaf);
    }
  }

  /** `_columns(path, output, list_indicator)`: appends this subtree's columns to `output`. */
  method AppendColumns(f: Form, path: seq<string>, output: seq<string>, leaf: (Form, seq<string>) -> seq<string>)
    returns (out: seq<string>)
    ensures out == output + Columns(f, path, leaf)
    decreases f
  {
    if f.RecordForm? {
      var names := RecordForms.Fields(f);
      out := output;
      var i := 0;
      while i < |f.contents| && i < |names|
        invariant 0 <= i <= |f.contents| && i <= |names|
        invariant out + FieldColumns(f.contents[i..], names[i..], path, leaf) == output + Columns(f, path, leaf)
      {
        assert f.contents[i..][1..] == f.contents[i + 1..] && names[i..][1..] == names[i + 1..];
        out := AppendColumns(f.contents[i], path + [names[i]], out, leaf);
        i := i + 1;
      }
      assert FieldColumns(f.contents[i..], names[i..], path, leaf) == [];
    } else if f.HasOneChild() {
      out := AppendColumns(f.content, path, output, leaf);
    } else {
      out := output + leaf(f, path);
    }
  }

  /** `columns(list_indicator, column_prefix)`: every column path, starting from `columnPrefix`. */
  method FormColumns(f: Form, columnPrefix: seq<string>, leaf: (Form, seq<string>) -> seq<string>) returns (output: seq<string>)
    ensures output == Columns(f, [], Prefixed(columnPrefix, leaf))
  {
    output := AppendColumns(f, columnPrefix, [], leaf);
    ColumnsUnderPrefix(f, columnPrefix, [], leaf);
    assert columnPrefix + [] == columnPrefix;
  }

  /* ----------------------------------------------------------- column types */

  /** `_column_types()`: a record concatenates the types of all of its contents. */
  function ColumnTypes<T>(f: Form, leafTypes: Form -> seq<T>): seq<T>
    decreases f, 1
  {
    if f.RecordForm? then ContentTypes(f.contents, leafTypes)
    else if f.HasOneChild() then ColumnTypes(f.content, leafTypes)
    else leafTypes(f)
  }

  function ContentTypes<T>(cs: seq<Form>, leafTypes: Form -> seq<T>): seq<T>
    decreases cs, 0
  {
    if cs == [] then [] else ColumnTypes(cs[0], leafTypes) + ContentTypes(cs[1..], leafTypes)
  }

  /** Every record in the tree has exactly one name per content. */
  predicate NamesMatchContents(f: Form)
    decreases f, 1
  {
    if f.RecordForm? then
      (f.fieldNames.None? || |f.fieldNames.value| == |f.contents|) && AllNamesMatch(f.contents)
    else f.HasOneChild() ==> NamesMatchContents(f.content)
  }

  predicate AllNamesMatch(cs: seq<Form>)
    decreases cs, 0
  {
    cs == [] || (NamesMatchContents(cs[0]) && AllNamesMatch(cs[1..]))
  }

  /**
   * When every record has one name per content and each leaf reports as many types as it
   * has columns, `column_types()` and `columns()` have the same length.
   */
  lemma {:induction false} ColumnTypesMatchColumns<T>(f: Form, path: seq<string>, leaf: (Form, seq<string>) -> seq<string>, leafTypes: Form -> seq<T>)
    requires NamesMatchContents(f)
    requires forall g, p :: |leaf(g, p)| == |leafTypes(g)|
    ensures |ColumnTypes(f, leafTypes)| == |Columns(f, path, leaf)|
    decreases f, 1
  {
    if f.RecordForm? {
      ContentTypesMatchColumns(f.contents, RecordForms.Fields(f), path, leaf, leafTypes);
    } else if f.HasOneChild() {
      ColumnTypesMatchColumns(f.content, path, leaf, leafTypes);
    }
  }

  lemma {:induction false} ContentTypesMatchColumns<T>(cs: seq<Form>, names: seq<string>, path: seq<string>,
                                                      leaf: (Form, seq<string>) -> seq<string>, leafTypes: Form -> seq<T>)
    requires AllNamesMatch(cs) && |names| == |cs|
    requires forall g, p :: |leaf(g, p)| == |leafTypes(g)|
    ensures |ContentTypes(cs, leafTypes)| == |FieldColumns(cs, names, path, leaf)|
    decreases cs, 0
  {
    if cs != [] {
      ColumnTypesMatchColumns(cs[0], path + [names[0]], leaf, leafTypes);
      ContentTypesMatchColumns(cs[1..], names[1..], path, leaf, leafTypes);
    }
  }

  /* ------------------------------------------------------- column selection */

  /**
   * `next_matches` for one field at depth `index`: pattern i is still alive when it was
   * alive before and is either exhausted or its component at this depth glob-matches.
   */
  function NextMatches(field: string, index: nat, spec: seq<seq<string>>, matches: seq<bool>): (r: seq<bool>)
    requires |matches| == |spec|
    ensures |r| == |spec|
  {
    seq(|spec|, i requires 0 <= i < |spec| => matches[i] && (index >= |spec[i]| || FnMatchCase(field, spec[i][index])))
  }

  /**
   * `_select_columns(index, specifier, matches, output)`: the pruned node and how many
   * entries it appended to `output`. A record visits a field only when some pattern is
   * still alive for it, and keeps it only when that visit appended something; the kept
   * fields are written out as a list of names. `leaf(g)` is how many entries a leaf
   * appends; leaves come back unchanged.
   */
  function Select(f: Form, index: nat, spec: seq<seq<string>>, matches: seq<bool>, leaf: Form -> nat): (r: (Form, nat))
    requires |matches| == |spec|
    ensures r.0.meta == f.meta
    ensures f.RecordForm? ==> r.0.RecordForm? && r.0.fieldNames.Some? && |r.0.fieldNames.value| == |r.0.contents|
    ensures f.RecordForm? ==> (r.1 == 0 <==> r.0.contents == [])
    ensures f.HasOneChild() ==> r.0.HasOneChild() && r.0 == f.WithContent(r.0.content)
    decreases f, 1
  {
    if f.RecordForm? then
      var s := SelectFields(f.contents, RecordForms.Fields(f), index, spec, matches, leaf);
      (RecordForm(s.0, Some(s.1), f.meta), s.2)
    else if f.HasOneChild() then
      var s := Select(f.content, index, spec, matches, leaf);
      (f.WithContent(s.0), s.1)
    else (f, leaf(f))
  }

  /**
   * One record slot: visited one level deeper with its `next_matches` when some pattern
   * is alive for it, otherwise left alone with nothing appended.
   */
  function SelectSlot(c: Form, name: string, index: nat, spec: seq<seq<string>>, matches: seq<bool>, leaf: Form -> nat): (Form, nat)
    requires |matches| == |spec|
    decreases c, 2
  {
    var next := NextMatches(name, index, spec, matches);
    if true in next then Select(c, index + 1, spec, next, leaf) else (c, 0)
  }

  /** The loop of a record's `_select_columns` over `zip(contents, fields)`. */
  function SelectFields(cs: seq<Form>, names: seq<string>, index: nat, spec: seq<seq<string>>, matches: seq<bool>,
                        leaf: Form -> nat): (r: (seq<Form>, seq<string>, nat))
    requires |matches| == |spec|
    ensures |r.0| == |r.1|
    ensures r.2 == 0 <==> r.0 == []
    decreases cs, 0
  {
    if cs == [] || names == [] then ([], [], 0)
    else
      Gather(SelectSlot(cs[0], names[0], index, spec, matches, leaf), names[0],
             SelectFields(cs[1..], names[1..], index, spec, matches, leaf))
  }

  /** The slot in front of the rest when its visit appended something, otherwise just the rest. */
  function Gather(head: (Form, nat), name: string, rest: (seq<Form>, seq<string>, nat)): (seq<Form>, seq<string>, nat) {
    if head.1 > 0 then ([head.0] + rest.0, [name] + rest.1, head.1 + rest.2) else rest
  }

  /** Field `name` with content `c` survives: some pattern is alive for it and its visit appended something. */
  predicate Keeps(c: Form, name: string, index: nat, spec: seq<seq<string>>, matches: seq<bool>, leaf: Form -> nat)
    requires |matches| == |spec|
  {
    SelectSlot(c, name, index, spec, matches, leaf).1 > 0
  }

  /** `xs` is `ys` with some items left out, the rest in their order. */
  predicate IsSubsequence(xs: seq<string>, ys: seq<string>)
    decreases |ys|
  {
    xs == [] || (ys != [] && ((xs[0] == ys[0] && IsSubsequence(xs[1..], ys[1..])) || IsSubsequence(xs, ys[1..])))
  }

  /** The names kept from a non-empty listing: the first name when it survives, then those kept from the rest. */
  lemma SelectFieldsFront(cs: seq<Form>, names: seq<string>, index: nat, spec: seq<seq<string>>, matches: seq<bool>,
                          leaf: Form -> nat)
    requires |matches| == |spec| && cs != [] && names != []
    ensures SelectFields(cs, names, index, spec, matches, leaf).1
            == (if Keeps(cs[0], names[0], index, spec, matches, leaf) then [names[0]] else [])
               + SelectFields(cs[1..], names[1..], index, spec, matches, leaf).1
  {
  }

  /** The kept names are the field names with some left out, the rest in their order. */
  lemma {:induction false} SelectFieldsInOrder(cs: seq<Form>, names: seq<string>, index: nat, spec: seq<seq<string>>,
                                              matches: seq<bool>, leaf: Form -> nat)
    requires |matches| == |spec|
    ensures IsSubsequence(SelectFields(cs, names, index, spec, matches, leaf).1, names)
    decreases |cs|
  {
    if cs != [] && names != [] {
      SelectFieldsInOrder(cs[1..], names[1..], index, spec, matches, leaf);
      SelectFieldsFront(cs, names, index, spec, matches, leaf);
      var r := SelectFields(cs, names, index, spec, matches, leaf).1;
      if Keeps(cs[0], names[0], index, spec, matches, leaf) {
        assert r[1..] == SelectFields(cs[1..], names[1..], index, spec, matches, leaf).1;
      }
    }
  }

  /** The surviving field behind the `k`-th kept name. */
  lemma {:induction false} SurvivorOf(cs: seq<Form>, names: seq<string>, index: nat, spec: seq<seq<string>>,
                                     matches: seq<bool>, leaf: Form -> nat, k: nat) returns (j: nat)
    requires |matches| == |spec| && k < |SelectFields(cs, names, index, spec, matches, leaf).1|
    ensures j < |cs| && j < |names| && names[j] == SelectFields(cs, names, index, spec, matches, leaf).1[k]
    ensures Keeps(cs[j], names[j], index, spec, matches, leaf)
    decreases |cs|
  {
    SelectFieldsFront(cs, names, index, spec, matches, leaf);
    var kept := Keeps(cs[0], names[0], index, spec, matches, leaf);
    if kept && k == 0 {
      j := 0;
    } else {
      var k' := if kept then k - 1 else k;
      var j' := SurvivorOf(cs[1..], names[1..], index, spec, matches, leaf, k');
      j := j' + 1;
      assert cs[1..][j'] == cs[j] && names[1..][j'] == names[j];
    }
  }

  /** `name` is the name of some surviving field. */
  ghost predicate SurvivingName(cs: seq<Form>, names: seq<string>, index: nat, spec: seq<seq<string>>,
                                matches: seq<bool>, leaf: Form -> nat, name: string)
    requires |matches| == |spec|
  {
    exists j :: 0 <= j < |cs| && j < |names| && names[j] == name && Keeps(cs[j], names[j], index, spec, matches, leaf)
  }

  /** Every kept name is the name of a surviving field. */
  lemma SelectFieldsOnlySurvivors(cs: seq<Form>, names: seq<string>, index: nat, spec: seq<seq<string>>,
                                  matches: seq<bool>, leaf: Form -> nat)
    requires |matches| == |spec|
    ensures forall k :: 0 <= k < |SelectFields(cs, names, index, spec, matches, leaf).1| ==>
              SurvivingName(cs, names, index, spec, matches, leaf, SelectFields(cs, names, index, spec, matches, leaf).1[k])
  {
    var r := SelectFields(cs, names, index, spec, matches, leaf).1;
    forall k | 0 <= k < |r|
      ensures SurvivingName(cs, names, index, spec, matches, leaf, r[k])
    {
      var j := SurvivorOf(cs, names, index, spec, matches, leaf, k);
    }
  }

  /** Every surviving field's name is kept. */
  lemma {:induction false} SelectFieldsAllSurvivors(cs: seq<Form>, names: seq<string>, index: nat, spec: seq<seq<string>>,
                                                   matches: seq<bool>, leaf: Form -> nat)
    requires |matches| == |spec|
    ensures forall j :: 0 <= j < |cs| && j < |names| && Keeps(cs[j], names[j], index, spec, matches, leaf) ==>
              names[j] in SelectFields(cs, names, index, spec, matches, leaf).1
    decreases |cs|
  {
    if cs != [] && names != [] {
      SelectFieldsAllSurvivors(cs[1..], names[1..], index, spec, matches, leaf);
      SelectFieldsFront(cs, names, index, spec, matches, leaf);
      forall j | 0 <= j < |cs| && j < |names| && Keeps(cs[j], names[j], index, spec, matches, leaf)
        ensures names[j] in SelectFields(cs, names, index, spec, matches, leaf).1
      {
        if j > 0 {
          assert cs[1..][j - 1] == cs[j] && names[1..][j - 1] == names[j];
        }
      }
    }
  }

  /** One step of the record loop: the slot at position `i` and everything after it. */
  lemma SelectFieldsAt(cs: seq<Form>, names: seq<string>, i: nat, index: nat, spec: seq<seq<string>>, matches: seq<bool>,
                       leaf: Form -> nat)
    requires |matches| == |spec| && i < |cs| && i < |names|
    ensures SelectFields(cs[i..], names[i..], index, spec, matches, leaf)
            == Gather(SelectSlot(cs[i], names[i], index, spec, matches, leaf), names[i],
                      SelectFields(cs[i + 1..], names[i + 1..], index, spec, matches, leaf))
  {
    assert cs[i..][1..] == cs[i + 1..] && names[i..][1..] == names[i + 1..];
  }

  /** `_select_columns(index, specifier, matches, output)`, with `output` counted by its length. */
  method SelectIn(f: Form, index: nat, spec: seq<seq<string>>, matches: seq<bool>, output: nat, leaf: Form -> nat)
    returns (g: Form, outputAfter: nat)
    requires |matches| == |spec|
    ensures g == Select(f, index, spec, matches, leaf).0
    ensures outputAfter == output + Select(f, index, spec, matches, leaf).1
    decreases f, 1
  {
    if f.RecordForm? {
      g, outputAfter := SelectRecord(f, index, spec, matches, output, leaf);
    } else if f.HasOneChild() {
      var c;
      c, outputAfter := SelectIn(f.content, index, spec, matches, output, leaf);
      g := f.WithContent(c);
    } else {
      g := f;
      outputAfter := output + leaf(f);
    }
  }

  /** The kept slots so far followed by what the remaining slots give make up the whole result. */
  predicate Accounts(contents: seq<Form>, fields: seq<string>, added: nat, rest: (seq<Form>, seq<string>, nat),
                     all: (seq<Form>, seq<string>, nat))
  {
    contents + rest.0 == all.0 && fields + rest.1 == all.1 && added + rest.2 == all.2
  }

  /** Keeping slot `i` when its visit appended something, and skipping it otherwise, keeps the account. */
  lemma AccountsStep(cs: seq<Form>, names: seq<string>, i: nat, index: nat, spec: seq<seq<string>>, matches: seq<bool>,
                     leaf: Form -> nat, contents: seq<Form>, fields: seq<string>, added: nat, all: (seq<Form>, seq<string>, nat))
    requires |matches| == |spec| && i < |cs| && i < |names|
    requires Accounts(contents, fields, added, SelectFields(cs[i..], names[i..], index, spec, matches, leaf), all)
    ensures var head := SelectSlot(cs[i], names[i], index, spec, matches, leaf);
            var restNext := SelectFields(cs[i + 1..], names[i + 1..], index, spec, matches, leaf);
            (head.1 > 0 ==> Accounts(contents + [head.0], fields + [names[i]], added + head.1, restNext, all)) &&
            (head.1 == 0 ==> Accounts(contents, fields, added, restNext, all))
  {
    SelectFieldsAt(cs, names, i, index, spec, matches, leaf);
    var head := SelectSlot(cs[i], names[i], index, spec, matches, leaf);
    var restNext := SelectFields(cs[i + 1..], names[i + 1..], index, spec, matches, leaf);
    assert contents + ([head.0] + restNext.0) == contents + [head.0] + restNext.0;
    assert fields + ([names[i]] + restNext.1) == fields + [names[i]] + restNext.1;
  }

  /** RecordForm's `_select_columns`: the loop over `zip(contents, fields)`. */
  method SelectRecord(f: Form, index: nat, spec: seq<seq<string>>, matches: seq<bool>, output: nat, leaf: Form -> nat)
    returns (g: Form, outputAfter: nat)
    requires |matches| == |spec| && f.RecordForm?
    ensures g == Select(f, index, spec, matches, leaf).0
    ensures outputAfter == output + Select(f, index, spec, matches, leaf).1
    decreases f, 0
  {
    var names := RecordForms.Fields(f);
    ghost var all := SelectFields(f.contents, names, index, spec, matches, leaf);
    assert f.contents[0..] == f.contents && names[0..] == names;
    var contents: seq<Form> := [];
    var fields: seq<string> := [];
    outputAfter := output;
    var i := 0;
    while i < |f.contents| && i < |names|
      invariant 0 <= i <= |f.contents| && i <= |names| && output <= outputAfter
      invariant Accounts(contents, fields, outputAfter - output, SelectFields(f.contents[i..], names[i..], index, spec, matches, leaf), all)
    {
      AccountsStep(f.contents, names, i, index, spec, matches, leaf, contents, fields, outputAfter - output, all);
      var next := NextMatches(names[i], index, spec, matches);
      if true in next {
        var lenOutput := outputAfter;
        var nextContent;
        nextContent, outputAfter := SelectIn(f.contents[i], index + 1, spec, next, outputAfter, leaf);
        if lenOutput != outputAfter {
          contents := contents + [nextContent];
          fields := fields + [names[i]];
        }
      }
      i := i + 1;
    }
    assert SelectFields(f.contents[i..], names[i..], index, spec, matches, leaf) == ([], [], 0);
    assert contents == all.0 && fields == all.1;
    g := RecordForm(contents, Some(fields), f.meta);
  }

  /** A record reached with no pattern alive visits none of its fields and keeps none. */
  lemma SelectNoMatch(f: Form, index: nat, spec: seq<seq<string>>, matches: seq<bool>, leaf: Form -> nat)
    requires |matches| == |spec| && true !in matches
    requires f.RecordForm?
    ensures Select(f, index, spec, matches, leaf) == (RecordForm([], Some([]), f.meta), 0)
  {
    SelectFieldsNoMatch(f.contents, RecordForms.Fields(f), index, spec, matches, leaf);
  }

  lemma {:induction false} SelectFieldsNoMatch(cs: seq<Form>, names: seq<string>, index: nat, spec: seq<seq<string>>,
                                              matches: seq<bool>, leaf: Form -> nat)
    requires |matches| == |spec| && true !in matches
    ensures SelectFields(cs, names, index, spec, matches, leaf) == ([], [], 0)
    decreases |cs|
  {
    if cs != [] && names != [] {
      var next := NextMatches(names[0], index, spec, matches);
      assert true !in next by {
        forall i | 0 <= i < |next| ensures !next[i] {
          assert !matches[i];
        }
      }
      SelectFieldsNoMatch(cs[1..], names[1..], index, spec, matches, leaf);
    }
  }

  /** A single literal pattern keeps, at the top record, only fields spelled exactly like it. */
  lemma SelectOneLiteral(f: Form, name: string, leaf: Form -> nat)
    requires f.RecordForm? && !HasWildcard(name)
    ensures forall k :: 0 <= k < |Select(f, 0, [[name]], [true], leaf).0.fieldNames.value| ==>
              Select(f, 0, [[name]], [true], leaf).0.fieldNames.value[k] == name
  {
    var names := RecordForms.Fields(f);
    var r := SelectFields(f.contents, names, 0, [[name]], [true], leaf);
    forall k | 0 <= k < |r.1| ensures r.1[k] == name {
      var j := SurvivorOf(f.contents, names, 0, [[name]], [true], leaf, k);
      var next := NextMatches(names[j], 0, [[name]], [true]);
      assert next[0];
      LiteralPatternMatchesItself(names[j], name);
    }
  }

  /**
   * `spec2`/`matches2` list the patterns of `spec`/`matches`, possibly in another order and
   * possibly repeated: entry i of the new list is entry `perm[i]` of the old one, and
   * every old entry j reappears at position `inv[j]`.
   */
  predicate Reordered(spec: seq<seq<string>>, matches: seq<bool>, spec2: seq<seq<string>>, matches2: seq<bool>, perm: seq<nat>, inv: seq<nat>) {
    |spec| == |matches| == |inv| && |spec2| == |matches2| == |perm| &&
    (forall i :: 0 <= i < |perm| ==> perm[i] < |spec| && spec2[i] == spec[perm[i]] && matches2[i] == matches[perm[i]]) &&
    (forall j :: 0 <= j < |inv| ==> inv[j] < |perm| && perm[inv[j]] == j)
  }

  lemma NextMatchesReordered(field: string, index: nat, spec: seq<seq<string>>, matches: seq<bool>,
                             spec2: seq<seq<string>>, matches2: seq<bool>, perm: seq<nat>, inv: seq<nat>)
    requires Reordered(spec, matches, spec2, matches2, perm, inv)
    ensures Reordered(spec, NextMatches(field, index, spec, matches), spec2, NextMatches(field, index, spec2, matches2), perm, inv)
    ensures true in NextMatches(field, index, spec, matches) <==> true in NextMatches(field, index, spec2, matches2)
  {
    var next := NextMatches(field, index, spec, matches);
    var next2 := NextMatches(field, index, spec2, matches2);
    assert forall i :: 0 <= i < |perm| ==> next2[i] == next[perm[i]];
    if true in next {
      var j :| 0 <= j < |next| && next[j];
      assert next2[inv[j]];
    }
  }

  /**
   * The order of the patterns does not matter: `_select_columns` gives the same result
   * for any reordering of `specifier` (with `matches` reordered alike), so the order in
   * which `set(specifier)` lists the patterns cannot change the selection.
   */
  lemma {:induction false} SelectReordered(f: Form, index: nat, spec: seq<seq<string>>, matches: seq<bool>,
                                          spec2: seq<seq<string>>, matches2: seq<bool>, perm: seq<nat>, inv: seq<nat>, leaf: Form -> nat)
    requires Reordered(spec, matches, spec2, matches2, perm, inv)
    ensures Select(f, index, spec, matches, leaf) == Select(f, index, spec2, matches2, leaf)
    decreases f, 1
  {
    if f.RecordForm? {
      SelectFieldsReordered(f.contents, RecordForms.Fields(f), index, spec, matches, spec2, matches2, perm, inv, leaf);
    } else if f.HasOneChild() {
      SelectReordered(f.content, index, spec, matches, spec2, matches2, perm, inv, leaf);
    }
  }

  lemma {:induction false} SelectFieldsReordered(cs: seq<Form>, names: seq<string>, index: nat, spec: seq<seq<string>>, matches: seq<bool>,
                                                spec2: seq<seq<string>>, matches2: seq<bool>, perm: seq<nat>, inv: seq<nat>, leaf: Form -> nat)
    requires Reordered(spec, matches, spec2, matches2, perm, inv)
    ensures SelectFields(cs, names, index, spec, matches, leaf) == SelectFields(cs, names, index, spec2, matches2, leaf)
    decreases cs, 0
  {
    if cs != [] && names != [] {
      SlotReordered(cs[0], names[0], index, spec, matches, spec2, matches2, perm, inv, leaf);
      SelectFieldsReordered(cs[1..], names[1..], index, spec, matches, spec2, matches2, perm, inv, leaf);
    }
  }

  /** One record slot is visited, and pruned, alike under both orders. */
  lemma {:induction false} SlotReordered(c: Form, name: string, index: nat, spec: seq<seq<string>>, matches: seq<bool>,
                                        spec2: seq<seq<string>>, matches2: seq<bool>, perm: seq<nat>, inv: seq<nat>, leaf: Form -> nat)
    requires Reordered(spec, matches, spec2, matches2, perm, inv)
    ensures SelectSlot(c, name, index, spec, matches, leaf) == SelectSlot(c, name, index, spec2, matches2, leaf)
    decreases c, 2
  {
    NextMatchesReordered(name, index, spec, matches, spec2, matches2, perm, inv);
    var next := NextMatches(name, index, spec, matches);
    var next2 := NextMatches(name, index, spec2, matches2);
    if true in next {
      SelectReordered(c, index + 1, spec, next, spec2, next2, perm, inv, leaf);
    }
  }

  /* --------------------------------------------------- the select_columns front end */

  /** `specifier`: a single string, or a list of arbitrary JSON-like items. */
  datatype Specifier = OneString(s: string) | Items(items: seq<Json>)

  /** `if isinstance(specifier, str): specifier = [specifier]`. */
  function SpecifierItems(specifier: Specifier): seq<Json> {
    match specifier
    case OneString(s) => [JString(s)]
    case Items(items) => items
  }

  /** The items as strings, or a TypeError for the first item that is not a string. */
  function CheckItems(items: seq<Json>): (r: Result<seq<string>>)
    ensures r.Ok? <==> forall i :: 0 <= i < |items| ==> items[i].JString?
    ensures r.Ok? ==> |r.value| == |items| && forall i :: 0 <= i < |items| ==> items[i] == JString(r.value[i])
    ensures r.Err? ==> r.error.Kind() == TypeError && exists i :: 0 <= i < |items| && !items[i].JString? && r.error == NonStringSpecifier(items[i])
  {
    if items == [] then Ok([])
    else if !items[0].JString? then Err(NonStringSpecifier(items[0]))
    else
      var rest := CheckItems(items[1..]);
      if rest.Err? then
        var i :| 0 <= i < |items[1..]| && !items[1..][i].JString? && rest.error == NonStringSpecifier(items[1..][i]);
        assert items[i + 1] == items[1..][i];
        rest
      else
        var r := [items[0].s] + rest.value;
        assert forall i :: 1 <= i < |items| ==> items[i] == items[1..][i - 1];
        Ok(r)
  }

  /** Checking stops at the first item that is not a string. */
  lemma {:induction false} CheckItemsFirstFailure(items: seq<Json>, i: nat)
    requires i < |items| && !items[i].JString?
    requires forall k :: 0 <= k < i ==> items[k].JString?
    ensures CheckItems(items) == Err(NonStringSpecifier(items[i]))
  {
    if i > 0 {
      CheckItemsFirstFailure(items[1..], i - 1);
    }
  }

  lemma {:induction false} CheckItemsAllStrings(items: seq<Json>, strs: seq<string>)
    requires |strs| == |items| && forall k :: 0 <= k < |items| ==> items[k] == JString(strs[k])
    ensures CheckItems(items) == Ok(strs)
  {
    if items != [] {
      CheckItemsAllStrings(items[1..], strs[1..]);
      assert strs == [strs[0]] + strs[1..];
    }
  }

  /** Every item expanded on its own, with a fresh `seen` set each (`_expand_braces(item)`), results concatenated. */
  function ExpandEach(strs: seq<string>): seq<string>
  {
    if strs == [] then []
    else ExpandEach(strs[..|strs| - 1]) + Braces.Fresh(Braces.Expansions(strs[|strs| - 1]), {})
  }

  /** `[] if item == "" else item.split(".")`: the path components of each pattern. */
  function Patterns(unique: seq<string>): (r: seq<seq<string>>)
    ensures |r| == |unique|
  {
    seq(|unique|, i requires 0 <= i < |unique| => if unique[i] == "" then [] else Split(unique[i], '.'))
  }

  /** Distinct pattern strings give distinct paths, each reading back as its string. */
  lemma PatternsFaithful(unique: seq<string>)
    requires Distinct(unique)
    ensures forall i :: 0 <= i < |unique| ==> (Patterns(unique)[i] == [] <==> unique[i] == "")
    ensures forall i :: 0 <= i < |unique| && unique[i] != "" ==> Join(Patterns(unique)[i], '.') == unique[i]
    ensures forall i, j :: 0 <= i < j < |unique| ==> Patterns(unique)[i] != Patterns(unique)[j]
  {
    var r := Patterns(unique);
    forall i | 0 <= i < |unique| && unique[i] != "" ensures Join(r[i], '.') == unique[i] {
      JoinSplit(unique[i], '.');
    }
    forall i, j | 0 <= i < j < |unique| ensures r[i] != r[j] {
      if unique[i] != "" && unique[j] != "" {
        JoinSplit(unique[i], '.');
        JoinSplit(unique[j], '.');
      }
    }
  }

  /** The patterns `select_columns` builds: checked, optionally brace-expanded, de-duplicated, split. */
  function SelectSpec(specifier: Specifier, expandBraces: bool): (r: Result<seq<string>>)
    ensures r.Ok? ==> Distinct(r.value)
    ensures r.Ok? && expandBraces ==> forall k :: 0 <= k < |r.value| ==> Braces.NoGroup(r.value[k])
  {
    var strs :- CheckItems(SpecifierItems(specifier));
    var expanded := if expandBraces then ExpandEach(strs) else strs;
    Braces.FreshDistinct(expanded, {});
    if expandBraces then
      ExpandEachHasNoGroup(strs);
      Ok(Braces.Fresh(expanded, {}))
    else
      Ok(Braces.Fresh(expanded, {}))
  }

  lemma {:induction false} ExpandEachHasNoGroup(strs: seq<string>)
    ensures forall k :: 0 <= k < |ExpandEach(strs)| ==> Braces.NoGroup(ExpandEach(strs)[k])
  {
    if strs != [] {
      var last := strs[|strs| - 1];
      ExpandEachHasNoGroup(strs[..|strs| - 1]);
      Braces.FreshExpansions(last, {});
    }
  }

  /** `select_columns(specifier, expand_braces)`: every pattern starts out alive at depth 0. */
  function SelectColumnsResult(f: Form, specifier: Specifier, expandBraces: bool, leaf: Form -> nat): Result<Form>
  {
    var unique :- SelectSpec(specifier, expandBraces);
    var spec := Patterns(unique);
    Ok(Select(f, 0, spec, AllAlive(|spec|), leaf).0)
  }

  /** `matches = [True] * len(specifier)`. */
  function AllAlive(n: nat): (r: seq<bool>)
    ensures |r| == n && forall i :: 0 <= i < n ==> r[i]
  {
    seq(n, _ => true)
  }

  /**
   * The selection is the same for any listing of the patterns, in any order and with any
   * repetitions: neither the order `set(specifier)` happens to produce nor the
   * de-duplication changes the result.
   */
  lemma SelectColumnsAnyOrder(f: Form, specifier: Specifier, expandBraces: bool, leaf: Form -> nat,
                              spec2: seq<seq<string>>, perm: seq<nat>, inv: seq<nat>)
    requires SelectSpec(specifier, expandBraces).Ok?
    requires var spec := Patterns(SelectSpec(specifier, expandBraces).value);
             Reordered(spec, AllAlive(|spec|), spec2, AllAlive(|spec2|), perm, inv)
    ensures SelectColumnsResult(f, specifier, expandBraces, leaf) == Ok(Select(f, 0, spec2, AllAlive(|spec2|), leaf).0)
  {
    var spec := Patterns(SelectSpec(specifier, expandBraces).value);
    SelectReordered(f, 0, spec, AllAlive(|spec|), spec2, AllAlive(|spec2|), perm, inv, leaf);
  }

  /** `select_columns`: the type check loop, the brace-expansion loop, then `_select_columns`. */
  method SelectColumns(f: Form, specifier: Specifier, expandBraces: bool, leaf: Form -> nat) returns (r: Result<Form>)
    ensures r == SelectColumnsResult(f, specifier, expandBraces, leaf)
  {
    var checked := CheckSpecifierItems(SpecifierItems(specifier));
    if checked.Err? {
      return Err(checked.error);
    }
    var strs := checked.value;
    if expandBraces {
      strs := ExpandItems(strs);
    }
    var unique := Braces.Fresh(strs, {});
    var spec := Patterns(unique);
    var matches := AllAlive(|spec|);
    var g, _ := SelectIn(f, 0, spec, matches, 0, leaf);
    r := Ok(g);
  }

  /** The type check loop of `select_columns`: every item must be a string. */
  method CheckSpecifierItems(items: seq<Json>) returns (r: Result<seq<string>>)
    ensures r == CheckItems(items)
  {
    var strs: seq<string> := [];
    var i := 0;
    while i < |items|
      invariant 0 <= i <= |items| && |strs| == i
      invariant forall k :: 0 <= k < i ==> items[k] == JString(strs[k])
    {
      if !items[i].JString? {
        CheckItemsFirstFailure(items, i);
        return Err(NonStringSpecifier(items[i]));
      }
      strs := strs + [items[i].s];
      i := i + 1;
    }
    CheckItemsAllStrings(items, strs);
    r := Ok(strs);
  }

  /** The `next_specifier` loop of `select_columns`: each item's expansions, in order. */
  method ExpandItems(strs: seq<string>) returns (next: seq<string>)
    ensures next == ExpandEach(strs)
  {
    next := [];
    var j := 0;
    while j < |strs|
      invariant 0 <= j <= |strs|
      invariant next == ExpandEach(strs[..j])
    {
      var results, _ := Braces.ExpandBraces(strs[j], {});
      assert strs[..j + 1][..j] == strs[..j];
      next := next + results;
      j := j + 1;
    }
    assert strs[..j] == strs;
  }
}
