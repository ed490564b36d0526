/** Decimal text of integers: Python's `str(n)` (as used by f-strings) and
    `int(token)`, restricted to ASCII whitespace, one optional sign and
    ASCII digits. */
module Numbers {
  import opened Results
  import opened Text

  predicate IsDigit(c: char) { '0' <= c <= '9' }

  predicate AllDigits(s: string) { forall i :: 0 <= i < |s| ==> IsDigit(s[i]) }

  /** The ASCII characters `str.isspace` accepts, which `int()` ignores at both ends. */
  const Whitespace: set<char> :=
    {' ', '\t', '\n', '\r', 11 as char, 12 as char, 28 as char, 29 as char, 30 as char, 31 as char}

  function DigitChar(d: nat): (c: char)
    requires d < 10
    ensures IsDigit(c) && c as int - '0' as int == d
  {
    ('0' as int + d) as char
  }

  /** `str(n)` for a non-negative `n`: its decimal digits, no leading zero. */
  function NatToString(n: nat): (r: string)
    ensures |r| >= 1 && AllDigits(r)
    ensures |r| > 1 ==> r[0] != '0'
    decreases n
  {
    if n < 10 then [DigitChar(n)] else NatToString(n / 10) + [DigitChar(n % 10)]
  }

  /** `str(i)`: a minus sign before the digits of a negative number. */
  function IntToString(i: int): (r: string)
    ensures |r| >= 1 && (r[0] == '-' <==> i < 0)
    ensures i >= 0 ==> AllDigits(r)
  {
    if i < 0 then "-" + NatToString(-i) else NatToString(i)
  }

  /** The number a string of decimal digits denotes. */
  function DigitsValue(ds: string): nat
    requires AllDigits(ds)
    decreases |ds|
  {
    if |ds| == 0 then 0
    else 10 * DigitsValue(ds[..|ds| - 1]) + (ds[|ds| - 1] as int - '0' as int)
  }

  /** Reading back the digits `str` writes gives the number. */
  lemma {:induction false} DigitsOfNat(n: nat)
    ensures DigitsValue(NatToString(n)) == n
    decreases n
  {
    if n >= 10 {
      DigitsOfNat(n / 10);
      var s := NatToString(n);
      assert s[..|s| - 1] == NatToString(n / 10);
    }
  }

  /** Different numbers have different decimal texts. */
  lemma NatToStringInjective(a: nat, b: nat)
    requires NatToString(a) == NatToString(b)
    ensures a == b
  {
    DigitsOfNat(a);
    DigitsOfNat(b);
  }

  /** A run of digits ended by a non-digit is determined by the text it
      starts: equal texts have equal digit runs and equal remainders. */
  lemma DigitRunPrefix(d1: string, c1: char, r1: string, d2: string, c2: char, r2: string)
    requires AllDigits(d1) && AllDigits(d2) && !IsDigit(c1) && !IsDigit(c2)
    requires d1 + [c1] + r1 == d2 + [c2] + r2
    ensures d1 == d2 && c1 == c2 && r1 == r2
  {
    var s, t := d1 + [c1] + r1, d2 + [c2] + r2;
    assert s[|d1|] == c1 && t[|d2|] == c2;
    assert forall k :: 0 <= k < |d1| ==> s[k] == d1[k];
    assert forall k :: 0 <= k < |d2| ==> t[k] == d2[k];
    if |d1| < |d2| {
      assert false;
    } else if |d2| < |d1| {
      assert false;
    } else {
      assert d1 == s[..|d1|] && d2 == t[..|d2|];
      assert r1 == s[|d1| + 1..] && r2 == t[|d2| + 1..];
    }
  }

  /** `int(token)`: `None` where Python raises `ValueError`. */
  function ParseInt(token: string): (r: Option<int>)
    ensures r.Some? ==> |Strip(token, Whitespace)| > 0
    ensures (forall k :: 0 <= k < |token| ==> token[k] !in Whitespace) ==> r == ParseSigned(token)
  {
    ParseSigned(Strip(token, Whitespace))
  }

  /** `int()` ignores whitespace around the numeral: padding a token that
      neither starts nor ends with whitespace does not change how it reads. */
  lemma ParseIntPadded(pre: string, t: string, post: string)
    requires forall k :: 0 <= k < |pre| ==> pre[k] in Whitespace
    requires forall k :: 0 <= k < |post| ==> post[k] in Whitespace
    requires |t| > 0 && t[0] !in Whitespace && t[|t| - 1] !in Whitespace
    ensures ParseInt(pre + t + post) == ParseSigned(t)
  {
    StripPadded(pre, t, post, Whitespace);
  }

  /** An optional sign, then one or more digits. */
  function ParseSigned(t: string): (r: Option<int>)
    ensures r.Some? <==>
      || (|t| > 0 && AllDigits(t))
      || (|t| > 1 && (t[0] == '-' || t[0] == '+') && AllDigits(t[1..]))
    ensures |t| > 0 && AllDigits(t) ==> r == Some(DigitsValue(t))
    ensures |t| > 1 && t[0] == '+' && AllDigits(t[1..]) ==> r == Some(DigitsValue(t[1..]) as int)
  {
    if |t| > 0 && (t[0] == '-' || t[0] == '+') then
      var body := t[1..];
      if |body| > 0 && AllDigits(body) then
        var v: int := if t[0] == '-' then -(DigitsValue(body) as int) else DigitsValue(body);
        Some(v)
      else None
    else if |t| > 0 && AllDigits(t) then Some(DigitsValue(t))
    else None
  }

  /** Text made of digits and minus signs has no whitespace to strip. */
  lemma StripNumeral(s: string)
    requires forall k :: 0 <= k < |s| ==> s[k] == '-' || IsDigit(s[k])
    ensures Strip(s, Whitespace) == s
  {
    forall k | 0 <= k < |s| ensures s[k] !in Whitespace {
      NumeralCharNotSpace(s[k]);
    }
  }

  lemma NumeralCharNotSpace(c: char)
    requires c == '-' || IsDigit(c)
    ensures c !in Whitespace
  {
  }

  lemma SignedRoundTrip(i: int)
    ensures ParseSigned(IntToString(i)) == Some(i)
  {
    if i < 0 {
      var n: nat := -i;
      var d := NatToString(n);
      assert IntToString(i) == "-" + d;
      ParseSignedNegative(d);
      DigitsOfNat(n);
    } else {
      assert IntToString(i) == NatToString(i);
      DigitsOfNat(i);
    }
  }

  /** A minus sign before a digit run reads as the negated number. */
  lemma ParseSignedNegative(d: string)
    requires |d| > 0 && AllDigits(d)
    ensures ParseSigned("-" + d) == Some(-(DigitsValue(d) as int))
  {
    var s := "-" + d;
    assert s[0] == '-' && s[1..] == d;
  }

  /** `int(str(i)) == i`. */
  lemma IntRoundTrip(i: int)
    ensures ParseInt(IntToString(i)) == Some(i)
  {
    var s := IntToString(i);
    if i < 0 {
      assert s == "-" + NatToString(-i);
      assert forall k :: 1 <= k < |s| ==> IsDigit(s[k]);
    }
    StripNumeral(s);
    SignedRoundTrip(i);
  }
}
