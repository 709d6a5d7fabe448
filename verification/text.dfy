/**
 * String helpers the Form subsystem borrows from Python: `str.split` with one separator,
 * `str(int)`, `int(str)` restricted to decimal digits, and `fnmatch.fnmatchcase` restricted
 * to the wildcards `*` and `?`.
 */
module Text {
  import opened Wrappers

  /** `s.split(sep)`: the pieces between separators; always at least one piece. */
  function Split(s: string, sep: char): (r: seq<string>)
    ensures |r| >= 1
    ensures forall k :: 0 <= k < |r| ==> sep !in r[k] && |r[k]| <= |s|
    ensures sep !in s ==> r == [s]
  {
    if s == [] then [""]
    else if s[0] == sep then [""] + Split(s[1..], sep)
    else
      var rest := Split(s[1..], sep);
      var r := [[s[0]] + rest[0]] + rest[1..];
      assert forall k :: 1 <= k < |r| ==> r[k] == rest[k];
      assert sep !in s ==> r == [s] by {
        if sep !in s { assert [s[0]] + s[1..] == s; }
      }
      r
  }

  /** `sep.join(parts)`. */
  function Join(parts: seq<string>, sep: char): string
    requires |parts| >= 1
  {
    if |parts| == 1 then parts[0] else parts[0] + [sep] + Join(parts[1..], sep)
  }

  /** Splitting and re-joining on the same separator gives the original string back. */
  lemma {:induction false} JoinSplit(s: string, sep: char)
    ensures Join(Split(s, sep), sep) == s
  {
    if s != [] {
      JoinSplit(s[1..], sep);
      var rest := Split(s[1..], sep);
      if s[0] == sep {
        assert Split(s, sep)[1..] == rest;
      } else {
        var r := Split(s, sep);
        if |rest| == 1 {
          assert r == [[s[0]] + rest[0]];
        } else {
          assert r[1..] == rest[1..];
          assert Join(r, sep) == [s[0]] + rest[0] + [sep] + Join(rest[1..], sep);
        }
      }
    }
  }

  predicate IsDigit(c: char) { '0' <= c <= '9' }

  function DigitChar(d: nat): (c: char)
    requires d < 10
    ensures IsDigit(c) && c as int - '0' as int == d
  {
    ('0' as int + d) as char
  }

  /** `str(n)` for a non-negative integer: its shortest decimal spelling. */
  function NatToString(n: nat): (r: string)
    ensures |r| >= 1
    ensures forall k :: 0 <= k < |r| ==> IsDigit(r[k])
  {
    if n < 10 then [DigitChar(n)] else NatToString(n / 10) + [DigitChar(n % 10)]
  }

  /** `str(i)` for any integer. */
  function IntToString(i: int): string {
    if i < 0 then "-" + NatToString(-i) else NatToString(i)
  }

  /** The value of a string of decimal digits (empty spells 0). */
  function DigitsValue(s: string): nat
    requires forall k :: 0 <= k < |s| ==> IsDigit(s[k])
  {
    if s == [] then 0
    else
      assert IsDigit(s[|s| - 1]);
      DigitsValue(s[..|s| - 1]) * 10 + (s[|s| - 1] as int - '0' as int)
  }

  /** `int(s)` where the string is decimal digits only; None stands for the ValueError. */
  function ParseNat(s: string): (r: Option<nat>)
    ensures r.Some? <==> s != [] && forall k :: 0 <= k < |s| ==> IsDigit(s[k])
  {
    if s != [] && forall k :: 0 <= k < |s| ==> IsDigit(s[k]) then Some(DigitsValue(s)) else None
  }

  /** `int(str(n)) == n`: a tuple field name is read back as its position. */
  lemma {:induction false} ParseNatToString(n: nat)
    ensures ParseNat(NatToString(n)) == Some(n)
  {
    DigitsValueToString(n);
  }

  lemma {:induction false} DigitsValueToString(n: nat)
    ensures DigitsValue(NatToString(n)) == n
  {
    if n >= 10 {
      DigitsValueToString(n / 10);
      var s := NatToString(n);
      assert s[..|s| - 1] == NatToString(n / 10);
    }
  }

  /** `fnmatch.fnmatchcase(name, pattern)`: `*` matches any run, `?` any one character. */
  predicate FnMatchCase(name: string, pattern: string)
    decreases |pattern|, |name|
  {
    if pattern == [] then name == []
    else if pattern[0] == '*' then
      FnMatchCase(name, pattern[1..]) || (name != [] && FnMatchCase(name[1..], pattern))
    else if pattern[0] == '?' then
      name != [] && FnMatchCase(name[1..], pattern[1..])
    else
      name != [] && name[0] == pattern[0] && FnMatchCase(name[1..], pattern[1..])
  }

  predicate HasWildcard(pattern: string) {
    '*' in pattern || '?' in pattern
  }

  /** A pattern without wildcards matches exactly itself. */
  lemma {:induction false} LiteralPatternMatchesItself(name: string, pattern: string)
    requires !HasWildcard(pattern)
    ensures FnMatchCase(name, pattern) <==> name == pattern
  {
    if pattern != [] && name != [] {
      assert pattern[1..] == pattern[1..] && !HasWildcard(pattern[1..]) by {
        assert forall c :: c in pattern[1..] ==> c in pattern;
      }
      LiteralPatternMatchesItself(name[1..], pattern[1..]);
      if name[0] == pattern[0] && name[1..] == pattern[1..] {
        assert name == [name[0]] + name[1..];
        assert pattern == [pattern[0]] + pattern[1..];
      }
    }
  }

  /** The pattern `*` matches every name. */
  lemma {:induction false} StarMatchesEverything(name: string)
    ensures FnMatchCase(name, "*")
  {
    if name != [] {
      StarMatchesEverything(name[1..]);
    } else {
      assert "*"[1..] == [];
    }
  }

  /** Names that can serve as the keys of one dict: no name occurs twice. */
  predicate Distinct(names: seq<string>) {
    forall i, j :: 0 <= i < j < |names| ==> names[i] != names[j]
  }

  /** The names a tuple's slots answer to: `[str(i) for i in range(n)]`. */
  function PositionalNames(n: nat): (r: seq<string>)
    ensures |r| == n
    ensures forall i :: 0 <= i < n ==> r[i] == NatToString(i)
  {
    seq(n, i requires 0 <= i => NatToString(i))
  }
}
