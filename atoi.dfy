/** The C library's atoi, as get_nextInt uses it: skip leading white
    space, read an optional sign, then the longest run of decimal digits;
    no digits gives 0. Integers are unbounded, so the undefined behaviour
    of atoi on a value that does not fit an int is outside the model. */
module CString {

  /** The characters C's isspace accepts in the "C" locale. */
  predicate IsSpace(c: char)
  {
    c == ' ' || c == '\t' || c == '\n' || c == '\U{B}' || c == '\U{C}' || c == '\r'
  }

  predicate IsDigit(c: char)
  {
    '0' <= c <= '9'
  }

  function DigitValue(c: char): (d: nat)
    requires IsDigit(c)
    ensures d < 10
  {
    (c as int) - ('0' as int)
  }

  function DigitChar(d: nat): (c: char)
    requires d < 10
    ensures IsDigit(c) && DigitValue(c) == d
  {
    (('0' as int) + d) as char
  }

  /** The input with its leading white space removed. */
  function SkipSpaces(s: string): (r: string)
    ensures |r| <= |s| && r == s[|s| - |r|..]
    ensures r == [] || !IsSpace(r[0])
    ensures forall i :: 0 <= i < |s| - |r| ==> IsSpace(s[i])
  {
    if s != [] && IsSpace(s[0]) then SkipSpaces(s[1..]) else s
  }

  /** Length of the run of digits at the start of s. */
  function DigitRun(s: string): (n: nat)
    ensures n <= |s|
    ensures forall i :: 0 <= i < n ==> IsDigit(s[i])
    ensures n < |s| ==> !IsDigit(s[n])
  {
    if s != [] && IsDigit(s[0]) then 1 + DigitRun(s[1..]) else 0
  }

  /** Value of a string of digits, most significant first. */
  function DigitsValue(s: string): nat
    requires forall i :: 0 <= i < |s| ==> IsDigit(s[i])
  {
    if s == [] then 0 else DigitsValue(s[..|s| - 1]) * 10 + DigitValue(s[|s| - 1])
  }

  /** Value of the longest digit prefix of u. */
  function LeadingValue(u: string): nat
  {
    DigitsValue(u[..DigitRun(u)])
  }

  /** An optional sign followed by the digit prefix. */
  function SignedValue(t: string): int
  {
    if t != [] && t[0] == '-' then -(LeadingValue(t[1..]) as int)
    else if t != [] && t[0] == '+' then LeadingValue(t[1..])
    else LeadingValue(t)
  }

  /** atoi with unbounded integers. */
  function Atoi(s: string): (n: int)
    ensures (forall i :: 0 <= i < |s| ==> IsDigit(s[i])) ==> n == DigitsValue(s)
    ensures |s| > 0 && s[0] == '-' && (forall i :: 1 <= i < |s| ==> IsDigit(s[i])) ==>
              n == -(DigitsValue(s[1..]) as int)
  {
    SignedDigits(s);
    SignedValue(SkipSpaces(s))
  }

  /** The proof of Atoi's contract: a string of digits, with or without a
      leading '-', has no white space to skip and is read in full. */
  lemma {:induction false} SignedDigits(s: string)
    ensures (forall i :: 0 <= i < |s| ==> IsDigit(s[i])) ==> SignedValue(SkipSpaces(s)) == DigitsValue(s)
    ensures |s| > 0 && s[0] == '-' && (forall i :: 1 <= i < |s| ==> IsDigit(s[i])) ==>
              SignedValue(SkipSpaces(s)) == -(DigitsValue(s[1..]) as int)
  {
    if forall i :: 0 <= i < |s| ==> IsDigit(s[i]) {
      UnsignedDigits(s);
    }
    if |s| > 0 && s[0] == '-' && (forall i :: 1 <= i < |s| ==> IsDigit(s[i])) {
      NegatedDigits(s);
    }
  }

  lemma {:induction false} UnsignedDigits(s: string)
    requires forall i :: 0 <= i < |s| ==> IsDigit(s[i])
    ensures SignedValue(SkipSpaces(s)) == DigitsValue(s)
  {
    assert SkipSpaces(s) == s by { NoSpaceToSkip(s); }
    assert LeadingValue(s) == DigitsValue(s) by { LeadingValueOfDigits(s); }
    assert SignedValue(s) == LeadingValue(s) by {
      assert s == [] || (s[0] != '-' && s[0] != '+');
    }
  }

  lemma {:induction false} NegatedDigits(s: string)
    requires |s| > 0 && s[0] == '-' && forall i :: 1 <= i < |s| ==> IsDigit(s[i])
    ensures SignedValue(SkipSpaces(s)) == -(DigitsValue(s[1..]) as int)
  {
    NoSpaceToSkip(s);
    LeadingValueOfDigits(s[1..]);
  }

  lemma NoSpaceToSkip(s: string)
    requires s == [] || !IsSpace(s[0])
    ensures SkipSpaces(s) == s
  {
  }

  lemma LeadingValueOfDigits(s: string)
    requires forall i :: 0 <= i < |s| ==> IsDigit(s[i])
    ensures LeadingValue(s) == DigitsValue(s)
  {
    DigitRunOfDigits(s);
    assert s[..|s|] == s;
  }

  /** Decimal digits of a natural number, without leading zeros. */
  function NatToDigits(n: nat): (s: string)
    ensures |s| > 0 && forall i :: 0 <= i < |s| ==> IsDigit(s[i])
  {
    if n < 10 then [DigitChar(n)] else NatToDigits(n / 10) + [DigitChar(n % 10)]
  }

  /** Decimal representation of an integer, with a '-' when negative. */
  function IntToString(n: int): string
  {
    if n < 0 then "-" + NatToDigits(-n) else NatToDigits(n)
  }

  lemma {:induction false} DigitsValueOfNatToDigits(n: nat)
    ensures DigitsValue(NatToDigits(n)) == n
  {
    if n >= 10 {
      DigitsValueOfNatToDigits(n / 10);
      var s := NatToDigits(n);
      assert s[..|s| - 1] == NatToDigits(n / 10);
    }
  }

  lemma DigitRunOfDigits(s: string)
    requires forall i :: 0 <= i < |s| ==> IsDigit(s[i])
    ensures DigitRun(s) == |s|
  {
  }

  lemma LeadingValueOfNatToDigits(m: nat)
    ensures LeadingValue(NatToDigits(m)) == m
  {
    var d := NatToDigits(m);
    DigitsValueOfNatToDigits(m);
    DigitRunOfDigits(d);
    assert d[..|d|] == d;
  }

  /** atoi reads back every integer written in decimal. */
  lemma AtoiOfIntToString(n: int)
    ensures Atoi(IntToString(n)) == n
  {
    var m: nat := if n < 0 then -n else n;
    var d := NatToDigits(m);
    LeadingValueOfNatToDigits(m);
    var t := IntToString(n);
    if n < 0 {
      assert t == ['-'] + d && t[0] == '-' && !IsSpace(t[0]);
      assert SkipSpaces(t) == t;
      assert t[1..] == d;
      assert SignedValue(t) == n;
    } else {
      assert t == d && IsDigit(t[0]) && !IsSpace(t[0]);
      assert SkipSpaces(t) == t;
      assert SignedValue(t) == m;
    }
  }

  lemma {:induction false} SkipSpacesOfPrefix(w: string, s: string)
    requires forall i :: 0 <= i < |w| ==> IsSpace(w[i])
    ensures SkipSpaces(w + s) == SkipSpaces(s)
  {
    if w != [] {
      assert (w + s)[0] == w[0];
      assert (w + s)[1..] == w[1..] + s;
      SkipSpacesOfPrefix(w[1..], s);
    } else {
      assert w + s == s;
    }
  }

  /** Leading white space never changes the result. */
  lemma AtoiSkipsLeadingSpace(w: string, s: string)
    requires forall i :: 0 <= i < |w| ==> IsSpace(w[i])
    ensures Atoi(w + s) == Atoi(s)
  {
    SkipSpacesOfPrefix(w, s);
  }

  /** A string with no digit at all gives 0. */
  lemma AtoiWithoutDigits(s: string)
    requires forall i :: 0 <= i < |s| ==> !IsDigit(s[i])
    ensures Atoi(s) == 0
  {
  }

  /** The digit run stops at the first character that is not a digit. */
  lemma {:induction false} DigitRunOfDigitsThen(d: string, rest: string)
    requires forall i :: 0 <= i < |d| ==> IsDigit(d[i])
    requires rest == [] || !IsDigit(rest[0])
    ensures DigitRun(d + rest) == |d|
  {
    if d != [] {
      assert (d + rest)[0] == d[0];
      assert (d + rest)[1..] == d[1..] + rest;
      DigitRunOfDigitsThen(d[1..], rest);
    } else {
      assert d + rest == rest;
    }
  }

  lemma {:induction false} LeadingValueOfDigitsThen(d: string, rest: string)
    requires forall i :: 0 <= i < |d| ==> IsDigit(d[i])
    requires rest == [] || !IsDigit(rest[0])
    ensures LeadingValue(d + rest) == DigitsValue(d)
  {
    DigitRunOfDigitsThen(d, rest);
    assert (d + rest)[..|d|] == d;
  }

  /** The general reading: white space w, an optional sign, the digits d,
      then anything that does not go on with a digit. The result is the
      value of d, negated after '-'; so "12ab" gives 12 and "PD100" gives
      0. Without sign and digits, the rest must not start with a sign or
      white space, which atoi would read on. */
  lemma {:induction false} AtoiReadsDigitPrefix(w: string, sign: string, d: string, rest: string)
    requires forall i :: 0 <= i < |w| ==> IsSpace(w[i])
    requires sign == "" || sign == "-" || sign == "+"
    requires forall i :: 0 <= i < |d| ==> IsDigit(d[i])
    requires rest == [] || !IsDigit(rest[0])
    requires sign == "" && d == "" && rest != [] ==> !IsSpace(rest[0]) && rest[0] != '-' && rest[0] != '+'
    ensures Atoi(w + sign + d + rest) == if sign == "-" then -(DigitsValue(d) as int) else DigitsValue(d)
  {
    var t := sign + d + rest;
    assert w + sign + d + rest == w + t;
    assert SkipSpaces(w + t) == SkipSpaces(t) by { SkipSpacesOfPrefix(w, t); }
    SignedDigitPrefix(sign, d, rest);
  }

  /** The sign-and-digits part of AtoiReadsDigitPrefix, with no white
      space in front. */
  lemma {:induction false} SignedDigitPrefix(sign: string, d: string, rest: string)
    requires sign == "" || sign == "-" || sign == "+"
    requires forall i :: 0 <= i < |d| ==> IsDigit(d[i])
    requires rest == [] || !IsDigit(rest[0])
    requires sign == "" && d == "" && rest != [] ==> !IsSpace(rest[0]) && rest[0] != '-' && rest[0] != '+'
    ensures SignedValue(SkipSpaces(sign + d + rest)) == if sign == "-" then -(DigitsValue(d) as int) else DigitsValue(d)
  {
    if sign == "" {
      assert sign + d + rest == d + rest;
      UnsignedDigitPrefix(d, rest);
    } else if sign == "-" {
      assert sign + d + rest == ['-'] + d + rest;
      SignCharDigitPrefix('-', d, rest);
    } else {
      assert sign + d + rest == ['+'] + d + rest;
      SignCharDigitPrefix('+', d, rest);
    }
  }

  lemma {:induction false} UnsignedDigitPrefix(d: string, rest: string)
    requires forall i :: 0 <= i < |d| ==> IsDigit(d[i])
    requires rest == [] || !IsDigit(rest[0])
    requires d == "" && rest != [] ==> !IsSpace(rest[0]) && rest[0] != '-' && rest[0] != '+'
    ensures SignedValue(SkipSpaces(d + rest)) == DigitsValue(d)
  {
    var t := d + rest;
    assert LeadingValue(t) == DigitsValue(d) by { LeadingValueOfDigitsThen(d, rest); }
    assert t == [] || (!IsSpace(t[0]) && t[0] != '-' && t[0] != '+') by {
      if d != "" {
        assert t[0] == d[0];
      }
    }
    NoSpaceToSkip(t);
  }

  lemma {:induction false} SignCharDigitPrefix(c: char, d: string, rest: string)
    requires c == '-' || c == '+'
    requires forall i :: 0 <= i < |d| ==> IsDigit(d[i])
    requires rest == [] || !IsDigit(rest[0])
    ensures SignedValue(SkipSpaces([c] + d + rest)) == if c == '-' then -(DigitsValue(d) as int) else DigitsValue(d)
  {
    var t := [c] + d + rest;
    assert LeadingValue(d + rest) == DigitsValue(d) by { LeadingValueOfDigitsThen(d, rest); }
    assert t[0] == c && t[1..] == d + rest;
    NoSpaceToSkip(t);
  }

  /** The two examples spelled out. */
  lemma AtoiExamples()
    ensures Atoi("12ab") == 12
    ensures Atoi("PD100") == 0
  {
    AtoiReadsDigitPrefix("", "", "12", "ab");
    assert "" + "" + "12" + "ab" == "12ab";
    AtoiReadsDigitPrefix("", "", "", "PD100");
    assert "" + "" + "" + "PD100" == "PD100";
  }
}
