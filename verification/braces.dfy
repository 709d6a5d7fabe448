/**
 * `_expand_braces`: shell-style alternatives in a column pattern. Every innermost group
 * `{a,b,...}` (a brace pair with no brace inside) is replaced by each of its comma-separated
 * alternatives, all groups at once, one combination at a time; the results are expanded
 * again until no group is left. A `seen` set shared by the whole expansion makes each
 * result come out once.
 */
module Braces {
  import opened Text

  /** The span `[start, stop)` of a match in the text. */
  type Span = (nat, nat)

  predicate IsBrace(c: char) {
    c == '{' || c == '}'
  }

  /** The first position at or after `i` holding a brace, or the length of the text. */
  function NextBrace(text: string, i: nat): (j: nat)
    requires i <= |text|
    ensures i <= j <= |text|
    ensures forall k :: i <= k < j ==> !IsBrace(text[k])
    ensures j < |text| ==> IsBrace(text[j])
    decreases |text| - i
  {
    if i == |text| || IsBrace(text[i]) then i else NextBrace(text, i + 1)
  }

  lemma {:induction false} NextBraceIs(text: string, i: nat, j: nat)
    requires i <= j < |text| && IsBrace(text[j])
    requires forall k :: i <= k < j ==> !IsBrace(text[k])
    ensures NextBrace(text, i) == j
    decreases j - i
  {
    if i < j {
      NextBraceIs(text, i + 1, j);
    }
  }

  /** `text[s:e]` matches `\{[^\{\}]*\}`: an innermost brace group. */
  predicate GroupAt(text: string, s: nat, e: nat) {
    s + 2 <= e <= |text| && text[s] == '{' && text[e - 1] == '}' &&
    forall k :: s < k < e - 1 ==> !IsBrace(text[k])
  }

  /** The text holds no innermost brace group. */
  ghost predicate NoGroup(text: string) {
    forall s: nat, e: nat :: !GroupAt(text, s, e)
  }

  /** The spans `re.finditer(r"\{[^\{\}]*\}", text)` yields from position `i` on, left to right. */
  function GroupsFrom(text: string, i: nat): (r: seq<Span>)
    requires i <= |text|
    ensures forall k :: 0 <= k < |r| ==> i <= r[k].0 && GroupAt(text, r[k].0, r[k].1)
    ensures forall a, b :: 0 <= a < b < |r| ==> r[a].1 <= r[b].0
    decreases |text| - i
  {
    if i == |text| then []
    else if text[i] == '{' && NextBrace(text, i + 1) < |text| && text[NextBrace(text, i + 1)] == '}' then
      var j := NextBrace(text, i + 1);
      [(i, j + 1)] + GroupsFrom(text, j + 1)
    else GroupsFrom(text, i + 1)
  }

  /** Any group at or after `i` is found by the scan from `i`. */
  lemma {:induction false} GroupsFromFinds(text: string, i: nat, s: nat, e: nat)
    requires i <= s && GroupAt(text, s, e)
    ensures GroupsFrom(text, i) != []
    decreases s - i
  {
    if i == s {
      NextBraceIs(text, s + 1, e - 1);
    } else if !(text[i] == '{' && NextBrace(text, i + 1) < |text| && text[NextBrace(text, i + 1)] == '}') {
      GroupsFromFinds(text, i + 1, s, e);
    }
  }

  /** Spans listed right to left, each ending at or before the start of the one before it. */
  predicate Descending(spans: seq<Span>, n: nat) {
    (forall k :: 0 <= k < |spans| ==> spans[k].0 <= spans[k].1) &&
    (|spans| > 0 ==> spans[0].1 <= n) &&
    (forall a, b :: 0 <= a < b < |spans| ==> spans[b].1 <= spans[a].0)
  }

  /** The spans of `g` last first. */
  function Reversed(g: seq<Span>): (r: seq<Span>)
    ensures |r| == |g|
    ensures forall k :: 0 <= k < |r| ==> r[k] == g[|g| - 1 - k]
  {
    seq(|g|, k requires 0 <= k < |g| => g[|g| - 1 - k])
  }

  /** Non-overlapping spans found left to right are descending once reversed. */
  lemma ReversedDescending(g: seq<Span>, n: nat)
    requires forall k :: 0 <= k < |g| ==> g[k].0 <= g[k].1 <= n
    requires forall a, b :: 0 <= a < b < |g| ==> g[a].1 <= g[b].0
    ensures Descending(Reversed(g), n)
  {
    var r := Reversed(g);
    forall a, b | 0 <= a < b < |r| ensures r[b].1 <= r[a].0 {
      assert r[b] == g[|g| - 1 - b] && r[a] == g[|g| - 1 - a];
    }
  }

  /** The scan from the start finds nothing exactly when the text holds no group. */
  lemma NoSpansIffNoGroup(text: string)
    ensures GroupsFrom(text, 0) == [] <==> NoGroup(text)
  {
    var g := GroupsFrom(text, 0);
    if g == [] {
      forall s: nat, e: nat ensures !GroupAt(text, s, e) {
        if GroupAt(text, s, e) {
          GroupsFromFinds(text, 0, s, e);
        }
      }
    } else {
      assert GroupAt(text, g[0].0, g[0].1);
    }
  }

  /** `spans`: the matches in reverse order, so that replacing them keeps earlier positions valid. */
  function Spans(text: string): (r: seq<Span>)
    ensures Descending(r, |text|)
    ensures forall k :: 0 <= k < |r| ==> GroupAt(text, r[k].0, r[k].1)
    ensures r == [] <==> NoGroup(text)
  {
    var g := GroupsFrom(text, 0);
    ReversedDescending(g, |text|);
    NoSpansIffNoGroup(text);
    Reversed(g)
  }

  /** The comma-separated alternatives inside the group `text[s:e]`. */
  function Alternatives(text: string, s: nat, e: nat): (r: seq<string>)
    requires GroupAt(text, s, e)
    ensures forall m :: 0 <= m < |r| ==> |r[m]| + s < e
  {
    Split(text[s + 1..e - 1], ',')
  }

  /** `alts`: the alternatives of each group, in span order. */
  function Alts(text: string, spans: seq<Span>): (r: seq<seq<string>>)
    requires forall k :: 0 <= k < |spans| ==> GroupAt(text, spans[k].0, spans[k].1)
    ensures |r| == |spans|
    ensures forall k :: 0 <= k < |spans| ==> r[k] == Alternatives(text, spans[k].0, spans[k].1)
  {
    seq(|spans|, k requires 0 <= k < |spans| => Alternatives(text, spans[k].0, spans[k].1))
  }

  /** `[x] + t` for every x in `heads` and every t in `tails`, heads varying slowest. */
  function Prefixed(heads: seq<string>, tails: seq<seq<string>>): (r: seq<seq<string>>)
    ensures forall j :: 0 <= j < |r| ==> |r[j]| >= 1 && r[j][0] in heads && r[j][1..] in tails
    ensures |r| == |heads| * |tails|
  {
    if heads == [] then []
    else
      var first := seq(|tails|, j requires 0 <= j < |tails| => [heads[0]] + tails[j]);
      assert forall j :: 0 <= j < |first| ==> first[j][1..] == tails[j];
      first + Prefixed(heads[1..], tails)
  }

  /** Row `i * |tails| + j` is head i followed by tail j: the heads vary slowest. */
  lemma {:induction false} PrefixedAt(heads: seq<string>, tails: seq<seq<string>>, i: nat, j: nat)
    requires i < |heads| && j < |tails|
    ensures i * |tails| + j < |Prefixed(heads, tails)|
    ensures Prefixed(heads, tails)[i * |tails| + j] == [heads[i]] + tails[j]
  {
    if i > 0 {
      PrefixedAt(heads[1..], tails, i - 1, j);
      assert i * |tails| + j == |tails| + ((i - 1) * |tails| + j);
    }
  }

  /** Where head i followed by tail j sits in `Prefixed(heads, tails)`. */
  lemma RowOf(heads: seq<string>, tails: seq<seq<string>>, i: nat, j: nat) returns (pos: nat)
    requires i < |heads| && j < |tails|
    ensures pos < |Prefixed(heads, tails)| && Prefixed(heads, tails)[pos] == [heads[i]] + tails[j]
  {
    PrefixedAt(heads, tails, i, j);
    pos := i * |tails| + j;
  }

  /** The number of rows `itertools.product(*alts)` yields: the product of the list lengths. */
  function ProductSize(alts: seq<seq<string>>): (n: nat)
    ensures n == 0 <==> exists k :: 0 <= k < |alts| && alts[k] == []
  {
    if alts == [] then 1
    else
      var rest := ProductSize(alts[1..]);
      assert forall k :: 1 <= k < |alts| ==> alts[1..][k - 1] == alts[k];
      |alts[0]| * rest
  }

  /** `itertools.product(*alts)`: every choice of one item per list, the first list slowest. */
  function Product(alts: seq<seq<string>>): (r: seq<seq<string>>)
    ensures forall j :: 0 <= j < |r| ==> |r[j]| == |alts| && forall k :: 0 <= k < |alts| ==> r[j][k] in alts[k]
    ensures |r| == ProductSize(alts)
  {
    if alts == [] then [[]]
    else
      var tails := Product(alts[1..]);
      var r := Prefixed(alts[0], tails);
      assert forall j, k :: 0 <= j < |r| && 1 <= k < |alts| ==> r[j][k] == r[j][1..][k - 1];
      r
  }

  /** Every choice of one item per list is a row of the product. */
  lemma {:induction false} ProductComplete(alts: seq<seq<string>>, choice: seq<string>)
    requires |choice| == |alts| && forall k :: 0 <= k < |alts| ==> choice[k] in alts[k]
    ensures choice in Product(alts)
  {
    if alts != [] {
      var tails := Product(alts[1..]);
      ProductComplete(alts[1..], choice[1..]);
      var j :| 0 <= j < |tails| && tails[j] == choice[1..];
      var i :| 0 <= i < |alts[0]| && alts[0][i] == choice[0];
      var rows := Prefixed(alts[0], tails);
      var pos := RowOf(alts[0], tails, i, j);
      assert rows == Product(alts);
      assert rows[pos] == choice by {
        assert [choice[0]] + choice[1..] == choice;
      }
    }
  }

  /** Each replacement is shorter than the group it replaces. */
  predicate Shrinks(spans: seq<Span>, combo: seq<string>) {
    |combo| == |spans| && forall k :: 0 <= k < |spans| ==> |combo[k]| + spans[k].0 < spans[k].1
  }

  lemma ProductShrinks(text: string, spans: seq<Span>)
    requires forall k :: 0 <= k < |spans| ==> GroupAt(text, spans[k].0, spans[k].1)
    ensures forall j :: 0 <= j < |Product(Alts(text, spans))| ==> Shrinks(spans, Product(Alts(text, spans))[j])
  {
    var alts := Alts(text, spans);
    var combos := Product(alts);
    forall j, k | 0 <= j < |combos| && 0 <= k < |spans| ensures |combos[j][k]| + spans[k].0 < spans[k].1 {
      assert combos[j][k] in alts[k];
      var m :| 0 <= m < |alts[k]| && alts[k][m] == combos[j][k];
      assert alts[k] == Alternatives(text, spans[k].0, spans[k].1);
    }
  }

  /** The text with `combo[k]` put in place of span k, right to left (`replaced[start:stop] = ...`). */
  function Splice(text: string, spans: seq<Span>, combo: seq<string>): (r: string)
    requires |combo| == |spans| && Descending(spans, |text|)
    decreases |spans|
  {
    if spans == [] then text
    else
      var next := text[..spans[0].0] + combo[0] + text[spans[0].1..];
      assert Descending(spans[1..], |next|);
      Splice(next, spans[1..], combo[1..])
  }

  lemma {:induction false} SpliceShrinks(text: string, spans: seq<Span>, combo: seq<string>)
    requires Descending(spans, |text|) && Shrinks(spans, combo)
    ensures |Splice(text, spans, combo)| <= |text|
    ensures spans != [] ==> |Splice(text, spans, combo)| < |text|
    decreases |spans|
  {
    if spans != [] {
      var next := text[..spans[0].0] + combo[0] + text[spans[0].1..];
      assert Descending(spans[1..], |next|);
      SpliceShrinks(next, spans[1..], combo[1..]);
    }
  }

  /**
   * Everything `_expand_braces(text)` yields when `seen` starts empty and every result is
   * kept, duplicates included: the text itself when it has no group, otherwise the
   * expansions of each combination's replacement in turn.
   */
  function Expansions(text: string): (r: seq<string>)
    decreases |text|, 1
  {
    var spans := Spans(text);
    if spans == [] then [text]
    else
      var combos := Product(Alts(text, spans));
      ProductShrinks(text, spans);
      ExpandAll(text, spans, combos, |combos|)
  }

  /** The expansions of the replacements made with the first `n` combinations, in order. */
  function ExpandAll(text: string, spans: seq<Span>, combos: seq<seq<string>>, n: nat): (r: seq<string>)
    requires spans != [] && Descending(spans, |text|)
    requires forall j :: 0 <= j < |combos| ==> Shrinks(spans, combos[j])
    requires n <= |combos|
    decreases |text|, 0, n
  {
    if n == 0 then []
    else
      SpliceShrinks(text, spans, combos[n - 1]);
      ExpandAll(text, spans, combos, n - 1) + Expansions(Splice(text, spans, combos[n - 1]))
  }

  /** The strings of a list. */
  function Elems(xs: seq<string>): set<string> {
    set x | x in xs
  }

  /** The items of `xs` not in `seen`, each at its first occurrence: what passes the `seen` test. */
  function Fresh(xs: seq<string>, seen: set<string>): (r: seq<string>)
  {
    if xs == [] then []
    else if xs[0] in seen then Fresh(xs[1..], seen)
    else [xs[0]] + Fresh(xs[1..], seen + {xs[0]})
  }

  lemma {:induction false} FreshAppend(xs: seq<string>, ys: seq<string>, seen: set<string>)
    ensures Fresh(xs + ys, seen) == Fresh(xs, seen) + Fresh(ys, seen + Elems(xs))
  {
    if xs != [] {
      assert (xs + ys)[1..] == xs[1..] + ys;
      assert xs[0] in seen ==> seen + Elems(xs) == seen + Elems(xs[1..]) by {
        assert Elems(xs) == {xs[0]} + Elems(xs[1..]) by {
          assert forall x :: x in xs <==> x == xs[0] || x in xs[1..] by {
            assert xs == [xs[0]] + xs[1..];
          }
        }
      }
      if xs[0] in seen {
        FreshAppend(xs[1..], ys, seen);
      } else {
        FreshAppend(xs[1..], ys, seen + {xs[0]});
        assert Elems(xs) == {xs[0]} + Elems(xs[1..]) by {
          assert forall x :: x in xs <==> x == xs[0] || x in xs[1..] by {
            assert xs == [xs[0]] + xs[1..];
          }
        }
        assert seen + {xs[0]} + Elems(xs[1..]) == seen + Elems(xs);
      }
    } else {
      assert Elems(xs) == {};
      assert seen + Elems(xs) == seen;
      assert xs + ys == ys;
    }
  }

  /** What passes the `seen` test is new, comes from the input and never repeats. */
  lemma {:induction false} FreshDistinct(xs: seq<string>, seen: set<string>)
    ensures Distinct(Fresh(xs, seen))
    ensures forall k :: 0 <= k < |Fresh(xs, seen)| ==> Fresh(xs, seen)[k] !in seen && Fresh(xs, seen)[k] in xs
  {
    if xs != [] {
      if xs[0] in seen {
        FreshDistinct(xs[1..], seen);
      } else {
        FreshDistinct(xs[1..], seen + {xs[0]});
        var r := Fresh(xs, seen);
        assert r[1..] == Fresh(xs[1..], seen + {xs[0]});
        forall i, j | 0 <= i < j < |r| ensures r[i] != r[j] {
          if i == 0 {
            assert r[j] == r[1..][j - 1];
          } else {
            assert r[i] == r[1..][i - 1] && r[j] == r[1..][j - 1];
          }
        }
        forall k | 0 <= k < |r| ensures r[k] !in seen && r[k] in xs {
          if k > 0 {
            assert r[k] == r[1..][k - 1];
            assert r[k] in xs[1..];
          }
        }
      }
    }
  }

  /** Everything of `xs` outside `seen` passes the `seen` test at least once. */
  lemma {:induction false} FreshComplete(xs: seq<string>, seen: set<string>, x: string)
    requires x in xs && x !in seen
    ensures x in Fresh(xs, seen)
  {
    if xs[0] != x {
      assert x in xs[1..];
      if xs[0] in seen {
        FreshComplete(xs[1..], seen, x);
      } else {
        FreshComplete(xs[1..], seen + {xs[0]}, x);
      }
    }
  }

  /** No expansion holds an innermost group. */
  lemma {:induction false} ExpansionsHaveNoGroup(text: string)
    ensures forall k :: 0 <= k < |Expansions(text)| ==> NoGroup(Expansions(text)[k])
    decreases |text|, 1
  {
    var spans := Spans(text);
    if spans != [] {
      var combos := Product(Alts(text, spans));
      ProductShrinks(text, spans);
      ExpandAllHaveNoGroup(text, spans, combos, |combos|);
    }
  }

  lemma {:induction false} ExpandAllHaveNoGroup(text: string, spans: seq<Span>, combos: seq<seq<string>>, n: nat)
    requires spans != [] && Descending(spans, |text|)
    requires forall j :: 0 <= j < |combos| ==> Shrinks(spans, combos[j])
    requires n <= |combos|
    ensures forall k :: 0 <= k < |ExpandAll(text, spans, combos, n)| ==> NoGroup(ExpandAll(text, spans, combos, n)[k])
    decreases |text|, 0, n
  {
    if n > 0 {
      SpliceShrinks(text, spans, combos[n - 1]);
      ExpandAllHaveNoGroup(text, spans, combos, n - 1);
      ExpansionsHaveNoGroup(Splice(text, spans, combos[n - 1]));
    }
  }

  /** A text without a group is its own only expansion. */
  lemma NoGroupExpandsToItself(text: string)
    requires NoGroup(text)
    ensures Expansions(text) == [text]
  {
  }

  lemma SpansOfPair()
    ensures Spans("{a,b}") == [(0, 5)]
  {
    var text := "{a,b}";
    NextBraceIs(text, 1, 4);
    assert GroupsFrom(text, 5) == [];
    assert GroupsFrom(text, 0) == [(0, 5)];
  }

  lemma SplitPair()
    ensures Split("a,b", ',') == ["a", "b"]
  {
    assert Split("b", ',') == ["b"];
    assert ",b"[1..] == "b";
    assert Split(",b", ',') == ["", "b"];
    assert "a,b"[1..] == ",b";
    assert ['a'] + "" == "a";
    assert ["", "b"][1..] == ["b"];
  }

  /** With one list, the product is its items one by one. */
  lemma {:induction false} ProductOfOne(heads: seq<string>)
    ensures Product([heads]) == seq(|heads|, k requires 0 <= k < |heads| => [heads[k]])
  {
    assert [heads][1..] == [];
    PrefixedSingles(heads);
  }

  lemma {:induction false} PrefixedSingles(heads: seq<string>)
    ensures Prefixed(heads, [[]]) == seq(|heads|, k requires 0 <= k < |heads| => [heads[k]])
  {
    if heads != [] {
      PrefixedSingles(heads[1..]);
      assert [heads[0]] + [] == [heads[0]];
    }
  }

  lemma AltsOfPair()
    ensures GroupAt("{a,b}", 0, 5)
    ensures Alts("{a,b}", [(0, 5)]) == [["a", "b"]]
  {
    var text := "{a,b}";
    NextBraceIs(text, 1, 4);
    assert text[1..4] == "a,b";
    SplitPair();
  }

  lemma ProductOfPair()
    ensures GroupAt("{a,b}", 0, 5)
    ensures Product(Alts("{a,b}", [(0, 5)])) == [["a"], ["b"]]
  {
    AltsOfPair();
    ProductOfOne(["a", "b"]);
  }

  /** `"{a,b}"` expands to its two alternatives, in order. */
  lemma ExpandTwoAlternatives()
    ensures Expansions("{a,b}") == ["a", "b"]
  {
    var text := "{a,b}";
    var spans := [(0, 5)];
    SpansOfPair();
    ProductOfPair();
    ProductShrinks(text, spans);
    ExpandWholeTwice(text, "a", "b");
  }

  /** A text that is one group with two group-free alternatives expands to the two of them. */
  lemma ExpandWholeTwice(text: string, x: string, y: string)
    requires |text| >= 2 && NoGroup(x) && NoGroup(y)
    requires Shrinks([(0, |text|)], [x]) && Shrinks([(0, |text|)], [y])
    ensures ExpandAll(text, [(0, |text|)], [[x], [y]], 2) == [x, y]
  {
    var spans := [(0, |text|)];
    var combos := [[x], [y]];
    SpliceWhole(text, x);
    SpliceWhole(text, y);
    NoGroupExpandsToItself(x);
    NoGroupExpandsToItself(y);
    assert ExpandAll(text, spans, combos, 1) == [x];
  }

  /** Replacing a span covering the whole text leaves just the replacement. */
  lemma SpliceWhole(text: string, x: string)
    ensures Splice(text, [(0, |text|)], [x]) == x
  {
    assert text[..0] + x + text[|text|..] == x;
  }

  /** The inner loop of `_expand_braces`: put each replacement in place of its span, right to left. */
  method SpliceIn(text: string, spans: seq<Span>, combo: seq<string>) returns (replaced: string)
    requires |combo| == |spans| && Descending(spans, |text|)
    ensures replaced == Splice(text, spans, combo)
  {
    replaced := text;
    var k := 0;
    while k < |spans|
      invariant 0 <= k <= |spans|
      invariant Descending(spans[k..], |replaced|)
      invariant Splice(replaced, spans[k..], combo[k..]) == Splice(text, spans, combo)
    {
      assert spans[k..][1..] == spans[k + 1..] && combo[k..][1..] == combo[k + 1..];
      replaced := replaced[..spans[k].0] + combo[k] + replaced[spans[k].1..];
      k := k + 1;
    }
    assert spans[k..] == [] && combo[k..] == [];
  }

  /** Expanding one more combination appends its fresh expansions and grows the seen set by all of them. */
  lemma ExpandAllStep(text: string, spans: seq<Span>, combos: seq<seq<string>>, i: nat, seen: set<string>)
    requires spans != [] && Descending(spans, |text|)
    requires forall j :: 0 <= j < |combos| ==> Shrinks(spans, combos[j])
    requires i < |combos| && Shrinks(spans, combos[i])
    ensures |Splice(text, spans, combos[i])| < |text|
    ensures Fresh(ExpandAll(text, spans, combos, i + 1), seen)
         == Fresh(ExpandAll(text, spans, combos, i), seen)
            + Fresh(Expansions(Splice(text, spans, combos[i])), seen + Elems(ExpandAll(text, spans, combos, i)))
    ensures seen + Elems(ExpandAll(text, spans, combos, i + 1))
         == seen + Elems(ExpandAll(text, spans, combos, i)) + Elems(Expansions(Splice(text, spans, combos[i])))
  {
    SpliceShrinks(text, spans, combos[i]);
    var before := ExpandAll(text, spans, combos, i);
    var next := Expansions(Splice(text, spans, combos[i]));
    FreshAppend(before, next, seen);
    assert Elems(before + next) == Elems(before) + Elems(next);
  }

  /** What `_expand_braces` yields never repeats, was not seen before and holds no group. */
  lemma FreshExpansions(text: string, seen: set<string>)
    ensures Distinct(Fresh(Expansions(text), seen))
    ensures forall k :: 0 <= k < |Fresh(Expansions(text), seen)| ==>
              NoGroup(Fresh(Expansions(text), seen)[k]) && Fresh(Expansions(text), seen)[k] !in seen
  {
    var out := Fresh(Expansions(text), seen);
    FreshDistinct(Expansions(text), seen);
    ExpansionsHaveNoGroup(text);
    forall k | 0 <= k < |out| ensures NoGroup(out[k]) {
      var x := out[k];
      assert x in Expansions(text);
    }
  }

  /**
   * `_expand_braces(text, seen)`: the results not yet in `seen`, in order, with `seen`
   * grown by everything reached. The shared set is threaded through as a value.
   */
  method ExpandBraces(text: string, seen: set<string>) returns (out: seq<string>, seenAfter: set<string>)
    ensures out == Fresh(Expansions(text), seen)
    ensures seenAfter == seen + Elems(Expansions(text))
    decreases |text|, 1
  {
    var spans := Spans(text);
    if |spans| == 0 {
      if text !in seen {
        out := [text];
      } else {
        out := [];
      }
      seenAfter := seen + {text};
      assert Elems([text]) == {text};
    } else {
      var alts := Alts(text, spans);
      var combos := Product(alts);
      ProductShrinks(text, spans);
      out, seenAfter := ExpandCombos(text, spans, combos, seen);
    }
  }

  /** The `for combo in itertools.product(*alts)` loop of `_expand_braces`. */
  method ExpandCombos(text: string, spans: seq<Span>, combos: seq<seq<string>>, seen: set<string>)
    returns (out: seq<string>, seenAfter: set<string>)
    requires spans != [] && Descending(spans, |text|)
    requires forall j :: 0 <= j < |combos| ==> Shrinks(spans, combos[j])
    ensures out == Fresh(ExpandAll(text, spans, combos, |combos|), seen)
    ensures seenAfter == seen + Elems(ExpandAll(text, spans, combos, |combos|))
    decreases |text|, 0
  {
    out := [];
    seenAfter := seen;
    var i := 0;
    while i < |combos|
      invariant 0 <= i <= |combos|
      invariant out == Fresh(ExpandAll(text, spans, combos, i), seen)
      invariant seenAfter == seen + Elems(ExpandAll(text, spans, combos, i))
    {
      var replaced := SpliceIn(text, spans, combos[i]);
      ExpandAllStep(text, spans, combos, i, seen);
      var sub, seenNext := ExpandBraces(replaced, seenAfter);
      out := out + sub;
      seenAfter := seenNext;
      i := i + 1;
    }
  }
}
