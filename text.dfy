/**
 * The JavaScript string operations the plugin relies on, written out over
 * `seq<char>`: `indexOf`, `split` on one character, `replace` of every
 * occurrence of one character, `replace` of the first occurrence of a
 * substring, `startsWith`, and the decimal form of an array index.
 */
module Text {
  import opened Wrappers

  /** `s.indexOf(c)`: the first position of `c` in `s`, or -1 when there is none. */
  function IndexOf(s: string, c: char): (i: int)
    ensures -1 <= i < |s|
    ensures 0 <= i ==> s[i] == c && c !in s[..i]
    ensures i == -1 <==> c !in s
  {
    if s == [] then -1
    else if s[0] == c then 0
    else
      var j := IndexOf(s[1..], c);
      if j == -1 then -1 else j + 1
  }

  /** `s.split(sep)` for a one-character separator: never empty, and empty pieces are kept. */
  function Split(s: string, sep: char): (parts: seq<string>)
    ensures |parts| >= 1
    ensures forall i :: 0 <= i < |parts| ==> sep !in parts[i]
    decreases |s|
  {
    var i := IndexOf(s, sep);
    if i == -1 then [s] else [s[..i]] + Split(s[i + 1..], sep)
  }

  /** `parts.join(sep)`. */
  function Join(parts: seq<string>, sep: string): string
  {
    if |parts| == 0 then ""
    else if |parts| == 1 then parts[0]
    else parts[0] + sep + Join(parts[1..], sep)
  }

  lemma JoinCons(a: string, tail: seq<string>, sep: string)
    requires |tail| >= 1
    ensures Join([a] + tail, sep) == a + sep + Join(tail, sep)
  {
    assert ([a] + tail)[1..] == tail;
  }

  /** Splitting loses nothing: joining the pieces with the separator gives the input back. */
  lemma {:induction false} JoinSplit(s: string, sep: char)
    ensures Join(Split(s, sep), [sep]) == s
    decreases |s|
  {
    var i := IndexOf(s, sep);
    if i != -1 {
      var pre, rest := s[..i], s[i + 1..];
      var tail := Split(rest, sep);
      assert s == pre + [sep] + rest;
      assert Split(s, sep) == [pre] + tail;
      JoinSplit(rest, sep);
      JoinCons(pre, tail, [sep]);
    } else {
      assert Split(s, sep) == [s];
    }
  }

  /** `s.replace(/c/g, repl)` for a replacement text without `$` patterns. */
  function ReplaceAll(s: string, c: char, repl: string): (r: string)
    ensures c !in repl ==> c !in r
    ensures c !in s ==> r == s
  {
    if s == [] then ""
    else (if s[0] == c then repl else [s[0]]) + ReplaceAll(s[1..], c, repl)
  }

  lemma {:induction false} ReplaceAllAppend(a: string, b: string, c: char, repl: string)
    ensures ReplaceAll(a + b, c, repl) == ReplaceAll(a, c, repl) + ReplaceAll(b, c, repl)
    decreases |a|
  {
    if a == [] {
      assert a + b == b;
    } else {
      var head := if a[0] == c then repl else [a[0]];
      assert (a + b)[0] == a[0] && (a + b)[1..] == a[1..] + b;
      calc {
        ReplaceAll(a + b, c, repl);
        head + ReplaceAll(a[1..] + b, c, repl);
        { ReplaceAllAppend(a[1..], b, c, repl); }
        head + (ReplaceAll(a[1..], c, repl) + ReplaceAll(b, c, repl));
        (head + ReplaceAll(a[1..], c, repl)) + ReplaceAll(b, c, repl);
      }
    }
  }

  lemma ReplaceAllAtSeparator(rest: string, c: char, repl: string)
    ensures ReplaceAll([c] + rest, c, repl) == repl + ReplaceAll(rest, c, repl)
  {
    assert ([c] + rest)[0] == c && ([c] + rest)[1..] == rest;
  }

  /** Replacing every `c` is the same as splitting on `c` and joining with the replacement. */
  lemma {:induction false} ReplaceAllIsSplitJoin(s: string, c: char, repl: string)
    ensures ReplaceAll(s, c, repl) == Join(Split(s, c), repl)
    decreases |s|
  {
    var i := IndexOf(s, c);
    if i != -1 {
      var pre, rest := s[..i], s[i + 1..];
      var tail := Split(rest, c);
      assert s == pre + [c] + rest;
      assert Split(s, c) == [pre] + tail;
      ReplaceAllAround(pre, rest, c, repl);
      ReplaceAllIsSplitJoin(rest, c, repl);
      JoinCons(pre, tail, repl);
    } else {
      assert Split(s, c) == [s];
    }
  }

  /** The text up to the first `c` is kept, the `c` becomes `repl`, and the rest is replaced on its own. */
  lemma ReplaceAllAround(pre: string, rest: string, c: char, repl: string)
    requires c !in pre
    ensures ReplaceAll(pre + [c] + rest, c, repl) == pre + repl + ReplaceAll(rest, c, repl)
  {
    assert pre + [c] + rest == pre + ([c] + rest);
    ReplaceAllAppend(pre, [c] + rest, c, repl);
    ReplaceAllAtSeparator(rest, c, repl);
  }

  lemma NotInConcat(a: string, b: string, c: char)
    requires c !in a && c !in b
    ensures c !in a + b
  {
  }

  /** `t` occurs in `s` at position `i`. */
  predicate OccursAt(s: string, t: string, i: int)
  {
    0 <= i && i + |t| <= |s| && s[i..i + |t|] == t
  }

  function FindFrom(s: string, t: string, k: nat): (i: int)
    requires k <= |s| + 1
    ensures i == -1 || (k <= i && OccursAt(s, t, i))
    ensures forall j :: k <= j < (if i == -1 then |s| + 1 else i) ==> !OccursAt(s, t, j)
    decreases |s| + 1 - k
  {
    if k + |t| > |s| then -1
    else if s[k..k + |t|] == t then k
    else FindFrom(s, t, k + 1)
  }

  /** `s.indexOf(t)`: the first position where `t` occurs in `s`, or -1. */
  function FindSub(s: string, t: string): (i: int)
    ensures i == -1 || OccursAt(s, t, i)
    ensures forall j :: 0 <= j <= |s| && (i == -1 || j < i) ==> !OccursAt(s, t, j)
  {
    FindFrom(s, t, 0)
  }

  /** `s.replace(t, repl)` with a string pattern: only the first occurrence is replaced. */
  function ReplaceFirst(s: string, t: string, repl: string): (r: string)
    ensures FindSub(s, t) == -1 ==> r == s
    ensures FindSub(s, t) != -1 ==>
      var i := FindSub(s, t);
      r == s[..i] + repl + s[i + |t|..]
  {
    var i := FindSub(s, t);
    if i == -1 then s else s[..i] + repl + s[i + |t|..]
  }

  /** `s.startsWith(p)`. */
  predicate StartsWith(s: string, p: string)
  {
    |p| <= |s| && s[..|p|] == p
  }

  /** `s.endsWith(p)`. */
  predicate EndsWith(s: string, p: string)
  {
    |p| <= |s| && s[|s| - |p|..] == p
  }

  predicate IsDigit(c: char) { '0' <= c <= '9' }

  function DigitChar(d: nat): (c: char)
    requires d < 10
    ensures IsDigit(c)
  {
    (('0' as int) + d) as char
  }

  function DigitValue(c: char): (d: nat)
    requires IsDigit(c)
    ensures d < 10 && DigitChar(d) == c
  {
    (c as int) - ('0' as int)
  }

  /** The decimal text of a natural number, as `String(n)` gives it. */
  function NatToString(n: nat): (s: string)
    ensures |s| >= 1
    ensures forall i :: 0 <= i < |s| ==> IsDigit(s[i])
    ensures |s| > 1 ==> s[0] != '0'
  {
    if n < 10 then [DigitChar(n)] else NatToString(n / 10) + [DigitChar(n % 10)]
  }

  function DigitsValue(s: string): nat
    requires forall i :: 0 <= i < |s| ==> IsDigit(s[i])
  {
    if s == [] then 0 else DigitsValue(s[..|s| - 1]) * 10 + DigitValue(s[|s| - 1])
  }

  /**
   * The array element a string property key names: a non-empty run of digits
   * without a leading zero (other keys, such as "01" or "x", name no element).
   */
  function ParseIndex(s: string): Option<nat>
  {
    if s == [] || (|s| > 1 && s[0] == '0') then None
    else if forall i :: 0 <= i < |s| ==> IsDigit(s[i]) then Some(DigitsValue(s))
    else None
  }

  /** The decimal text of `n` names element `n`. */
  lemma {:induction false} ParseNatToString(n: nat)
    ensures ParseIndex(NatToString(n)) == Some(n)
  {
    var s := NatToString(n);
    if n < 10 {
      assert s == [DigitChar(n)];
      assert s[..0] == [];
      assert DigitsValue(s) == n;
    } else {
      ParseNatToString(n / 10);
      var prefix := NatToString(n / 10);
      assert s == prefix + [DigitChar(n % 10)];
      assert s[..|s| - 1] == prefix;
      assert DigitsValue(prefix) == n / 10;
      assert DigitsValue(s) == (n / 10) * 10 + n % 10;
    }
  }

  lemma {:induction false} LeadingDigitPositive(s: string)
    requires |s| >= 1 && s[0] != '0'
    requires forall i :: 0 <= i < |s| ==> IsDigit(s[i])
    ensures DigitsValue(s) > 0
    decreases |s|
  {
    if |s| > 1 {
      LeadingDigitPositive(s[..|s| - 1]);
    } else {
      assert DigitValue(s[0]) != 0;
    }
  }

  /** Conversely, only the decimal text of an index names it. */
  lemma {:induction false} ParseIndexCanonical(s: string)
    requires ParseIndex(s).Some?
    ensures NatToString(ParseIndex(s).value) == s
    decreases |s|
  {
    var v := DigitsValue(s);
    if |s| > 1 {
      var prefix := s[..|s| - 1];
      var d := DigitValue(s[|s| - 1]);
      assert ParseIndex(prefix) == Some(DigitsValue(prefix));
      ParseIndexCanonical(prefix);
      LeadingDigitPositive(prefix);
      assert v == DigitsValue(prefix) * 10 + d;
      assert v / 10 == DigitsValue(prefix) && v % 10 == d;
      assert NatToString(v) == NatToString(v / 10) + [DigitChar(v % 10)];
      assert s == prefix + [s[|s| - 1]];
    } else {
      assert |s| == 1 && s[..|s| - 1] == [];
      assert DigitsValue(s[..|s| - 1]) == 0;
      assert v == DigitValue(s[0]);
      assert NatToString(v) == [DigitChar(v)];
    }
  }

  /** Two indices have the same decimal text only if they are equal. */
  lemma NatToStringInjective(m: nat, n: nat)
    requires NatToString(m) == NatToString(n)
    ensures m == n
  {
    ParseNatToString(m);
    ParseNatToString(n);
  }

  /** A lower-case hexadecimal digit, as `Buffer.toString("hex")` and `JSON.stringify` write them. */
  predicate IsHexDigit(c: char) { '0' <= c <= '9' || 'a' <= c <= 'f' }

  function HexDigit(d: nat): (c: char)
    requires d < 16
    ensures IsHexDigit(c)
  {
    if d < 10 then (('0' as int) + d) as char else (('a' as int) + d - 10) as char
  }

  function HexValue(c: char): (d: nat)
    requires IsHexDigit(c)
    ensures d < 16 && HexDigit(d) == c
  {
    if c <= '9' then (c as int) - ('0' as int) else (c as int) - ('a' as int) + 10
  }
}
