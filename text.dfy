/** The string formatting the service relies on: Python's `str()` of an int
    (used by the f-strings that build alarm histories), a decimal reader that
    inverts it, splitting at the first occurrence of a delimiter, and Python's
    substring test `t in s`. */
module Text {
  import opened Wrappers

  predicate IsDigit(c: char) {
    '0' <= c <= '9'
  }

  predicate AllDigits(s: string) {
    forall k :: 0 <= k < |s| ==> IsDigit(s[k])
  }

  function DigitChar(d: nat): (c: char)
    requires d < 10
    ensures IsDigit(c)
  {
    ('0' as int + d) as char
  }

  function DigitValue(c: char): (d: nat)
    requires IsDigit(c)
    ensures d < 10 && DigitChar(d) == c
  {
    c as int - '0' as int
  }

  /** Decimal digits of n, most significant first, without leading zeros. */
  function NatToString(n: nat): (s: string)
    ensures 0 < |s| && AllDigits(s)
    ensures '/' !in s && ':' !in s && '-' !in s
    decreases n
  {
    if n < 10 then [DigitChar(n)] else NatToString(n / 10) + [DigitChar(n % 10)]
  }

  /** Python's `str(i)` (and `f"{i}"`) for an int: a minus sign for negatives. */
  function IntToString(i: int): (s: string)
    ensures 0 < |s| && '/' !in s
    ensures s[0] == '-' <==> i < 0
    ensures AllDigits(if i < 0 then s[1..] else s)
  {
    if i < 0 then "-" + NatToString(-i) else NatToString(i)
  }

  /** Value of a string of decimal digits. */
  function DigitsValue(s: string): nat
    requires AllDigits(s)
  {
    if s == [] then 0 else DigitsValue(s[..|s| - 1]) * 10 + DigitValue(s[|s| - 1])
  }

  /** Reads back what IntToString writes: optional '-' then at least one digit. */
  function ParseDecimal(s: string): Option<int> {
    if 0 < |s| && AllDigits(s) then Some(DigitsValue(s))
    else if 1 < |s| && s[0] == '-' && AllDigits(s[1..]) then Some(-(DigitsValue(s[1..]) as int))
    else None
  }

  lemma {:induction false} NatToStringRoundTrip(n: nat)
    ensures DigitsValue(NatToString(n)) == n
    decreases n
  {
    var s := NatToString(n);
    if n < 10 {
      assert s[..0] == [];
    } else {
      var hd := NatToString(n / 10);
      NatToStringRoundTrip(n / 10);
      assert s == hd + [DigitChar(n % 10)];
      assert s[..|s| - 1] == hd;
    }
  }

  /** Formatting an int and reading it back gives the same int. */
  lemma IntToStringRoundTrip(i: int)
    ensures ParseDecimal(IntToString(i)) == Some(i)
  {
    var s := IntToString(i);
    if i < 0 {
      NatToStringRoundTrip(-i);
      assert s[1..] == NatToString(-i);
      assert !IsDigit(s[0]);
    } else {
      NatToStringRoundTrip(i);
    }
  }

  /** Index of the first occurrence of c in s, if any. */
  function IndexOf(s: string, c: char): (r: Option<nat>)
    ensures r.Some? ==> r.value < |s| && s[r.value] == c && c !in s[..r.value]
    ensures r.None? <==> c !in s
  {
    if s == [] then None
    else if s[0] == c then Some(0)
    else
      match IndexOf(s[1..], c)
      case None => None
      case Some(k) => assert s[..k + 1] == [s[0]] + s[1..][..k]; Some(k + 1)
  }

  /** The parts of s before and after its first c. */
  function SplitOnce(s: string, c: char): (r: Option<(string, string)>)
    ensures r.Some? ==> s == r.value.0 + [c] + r.value.1 && c !in r.value.0
    ensures r.None? <==> c !in s
  {
    match IndexOf(s, c)
    case None => None
    case Some(k) => assert s == s[..k] + [c] + s[k + 1..]; Some((s[..k], s[k + 1..]))
  }

  /** Joining two strings with a delimiter the first one does not contain is undone by SplitOnce. */
  lemma SplitOnceJoin(a: string, c: char, b: string)
    requires c !in a
    ensures SplitOnce(a + [c] + b, c) == Some((a, b))
  {
    var s := a + [c] + b;
    assert s[|a|] == c;
    var r := SplitOnce(s, c);
    assert r.value.0 == s[..|a|] == a;
    assert r.value.1 == s[|a| + 1..] == b;
  }

  /** t occurs in s starting at index k. */
  predicate MatchAt(s: string, t: string, k: nat) {
    k + |t| <= |s| && s[k..k + |t|] == t
  }

  /** Python's `t in s` for strings. */
  predicate Contains(s: string, t: string)
    ensures Contains(s, t) ==> |t| <= |s|
    ensures |t| == 0 ==> Contains(s, t)
  {
    assert |t| == 0 ==> MatchAt(s, t, 0);
    exists k: nat | k <= |s| :: MatchAt(s, t, k)
  }

  /** A string contains every one of its prefixes. */
  lemma ContainsPrefix(t: string, rest: string)
    ensures Contains(t + rest, t)
  {
    assert MatchAt(t + rest, t, 0);
  }

  /** From index k on, character a is never directly followed by b. */
  predicate NoPairFrom(s: string, a: char, b: char, k: nat)
    decreases |s| - k
  {
    k + 1 >= |s| || ((s[k] != a || s[k + 1] != b) && NoPairFrom(s, a, b, k + 1))
  }

  lemma {:induction false} NoPairAt(s: string, a: char, b: char, k: nat, j: nat)
    requires NoPairFrom(s, a, b, k) && k <= j && j + 1 < |s|
    ensures s[j] != a || s[j + 1] != b
    decreases j - k
  {
    if k < j {
      NoPairAt(s, a, b, k + 1, j);
    }
  }

  /** A string in which the first two characters of t never stand side by side does not contain t. */
  lemma NoPairNotContains(s: string, t: string)
    requires 2 <= |t| && NoPairFrom(s, t[0], t[1], 0)
    ensures !Contains(s, t)
  {
    forall k: nat ensures !MatchAt(s, t, k) {
      if k + 1 < |s| {
        NoPairAt(s, t[0], t[1], 0, k);
      }
    }
  }
}
