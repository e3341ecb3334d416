/** Python's `str()` of an integer, as the metadata template and the output
    directory name use it, and the facts about it that make those texts
    unambiguous. */
module Text {
  import opened Types

  predicate IsDigit(c: char) {
    '0' <= c <= '9'
  }

  predicate AllDigits(s: string) {
    forall i :: 0 <= i < |s| ==> IsDigit(s[i])
  }

  function DigitChar(d: nat): (c: char)
    requires d < 10
    ensures IsDigit(c)
  {
    ('0' as int + d) as char
  }

  function DigitValue(c: char): (d: nat)
    requires IsDigit(c)
    ensures d < 10
  {
    c as int - '0' as int
  }

  /** Decimal digits of `n`, most significant first, without leading zeros. */
  function NatToString(n: nat): (s: string)
    ensures |s| > 0 && AllDigits(s)
    decreases n
  {
    if n < 10 then [DigitChar(n)] else NatToString(n / 10) + [DigitChar(n % 10)]
  }

  /** `str(i)` for a Python int. */
  function IntToString(i: int): (s: string)
    ensures |s| > 0
    ensures forall k :: 0 <= k < |s| ==> IsDigit(s[k]) || s[k] == '-'
  {
    if i < 0 then "-" + NatToString(-i) else NatToString(i)
  }

  function ParseNat(s: string): nat
    requires |s| > 0 && AllDigits(s)
  {
    if |s| == 1 then DigitValue(s[0]) else ParseNat(s[..|s| - 1]) * 10 + DigitValue(s[|s| - 1])
  }

  /** `int(s)` restricted to what `str` produces: an optional minus sign and digits. */
  function ParseInt(s: string): Option<int> {
    if |s| > 1 && s[0] == '-' && AllDigits(s[1..]) then Some(-(ParseNat(s[1..]) as int))
    else if |s| > 0 && AllDigits(s) then Some(ParseNat(s))
    else None
  }

  lemma {:induction false} ParseNatToString(n: nat)
    ensures ParseNat(NatToString(n)) == n
    decreases n
  {
    if n >= 10 {
      var s := NatToString(n);
      assert s[..|s| - 1] == NatToString(n / 10);
      ParseNatToString(n / 10);
    }
  }

  /** `int(str(i)) == i` */
  lemma IntToStringRoundTrip(i: int)
    ensures ParseInt(IntToString(i)) == Some(i)
  {
    if i < 0 {
      ParseNatToString(-i);
      assert IntToString(i)[1..] == NatToString(-i);
    } else {
      ParseNatToString(i);
      var s := NatToString(i);
      assert s[0] != '-';
    }
  }

  /** Different integers print differently. */
  lemma IntToStringInjective(a: int, b: int)
    ensures IntToString(a) == IntToString(b) <==> a == b
  {
    if IntToString(a) == IntToString(b) {
      IntToStringRoundTrip(a);
      IntToStringRoundTrip(b);
    }
  }

  /** Where `a` and `b` do not contain the separator `sep`, and both tails
      begin with it, equal concatenations split at the same place. */
  lemma SplitAtSeparator(sep: char, a: string, r1: string, b: string, r2: string)
    requires sep !in a && sep !in b
    requires |r1| > 0 && r1[0] == sep && |r2| > 0 && r2[0] == sep
    requires a + r1 == b + r2
    ensures a == b && r1 == r2
  {
    // The first separator of the common string sits at |a| and at |b|.
    assert forall i :: 0 <= i < |a| ==> (a + r1)[i] == a[i];
    assert (a + r1)[|a|] == sep;
    assert forall i :: 0 <= i < |b| ==> (b + r2)[i] == b[i];
    assert (b + r2)[|b|] == sep;
    assert |a| == |b|;
    assert a == (a + r1)[..|a|];
    assert b == (b + r2)[..|b|];
    assert r1 == (a + r1)[|a|..];
    assert r2 == (b + r2)[|b|..];
  }

  /** A printed integer holds neither a newline nor an underscore. */
  lemma IntToStringHasNoSeparators(i: int)
    ensures '\n' !in IntToString(i) && '_' !in IntToString(i)
  {
  }
}
