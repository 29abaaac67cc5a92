/**
 * The parts of PHP's string semantics the checkout code relies on:
 * trim() with its default character list, empty() applied to a string,
 * and the decimal text of an integer that the `.` operator produces.
 */
module PhpStrings {

  /** The characters trim() strips when given no character list:
      space, tab, newline, carriage return, NUL and vertical tab. */
  predicate IsTrimChar(c: char)
  {
    c == ' ' || c == '\t' || c == '\n' || c == '\r' || c == '\0' || c == '\U{000B}'
  }

  predicate AllTrimChars(s: string)
  {
    forall i :: 0 <= i < |s| ==> IsTrimChar(s[i])
  }

  /** ltrim(): drops stripped characters from the front. */
  function TrimLeft(s: string): string
  {
    if s != [] && IsTrimChar(s[0]) then TrimLeft(s[1..]) else s
  }

  /** rtrim(): drops stripped characters from the back. */
  function TrimRight(s: string): string
  {
    if s != [] && IsTrimChar(s[|s| - 1]) then TrimRight(s[..|s| - 1]) else s
  }

  /** ltrim() returns the longest suffix of `s` that does not start with a stripped character. */
  lemma {:induction false} TrimLeftShape(s: string)
    ensures var r := TrimLeft(s);
            |r| <= |s| && r == s[|s| - |r|..] && AllTrimChars(s[..|s| - |r|])
            && (r != [] ==> !IsTrimChar(r[0]))
  {
    if s != [] && IsTrimChar(s[0]) {
      TrimLeftShape(s[1..]);
      var r := TrimLeft(s);
      assert s[1..][|s| - 1 - |r|..] == s[|s| - |r|..];
      assert s[..|s| - |r|] == [s[0]] + s[1..][..|s| - 1 - |r|];
    }
  }

  /** rtrim() returns the longest prefix of `s` that does not end with a stripped character. */
  lemma {:induction false} TrimRightShape(s: string)
    ensures var r := TrimRight(s);
            |r| <= |s| && r == s[..|r|] && AllTrimChars(s[|r|..])
            && (r != [] ==> !IsTrimChar(r[|r| - 1]))
  {
    if s != [] && IsTrimChar(s[|s| - 1]) {
      TrimRightShape(s[..|s| - 1]);
      var r := TrimRight(s);
      assert s[..|s| - 1][..|r|] == s[..|r|];
      assert s[|r|..] == s[..|s| - 1][|r|..] + [s[|s| - 1]];
    }
  }

  /** trim(): `s` without its leading and trailing stripped characters. */
  function Trim(s: string): string
  {
    TrimRight(TrimLeft(s))
  }

  lemma TrimCharacterised(s: string)
    ensures var r := Trim(s);
            (exists k :: 0 <= k <= |s| - |r| && r == s[k..k + |r|]
                         && AllTrimChars(s[..k]) && AllTrimChars(s[k + |r|..]))
            && (r == [] <==> AllTrimChars(s))
            && (r != [] ==> !IsTrimChar(r[0]) && !IsTrimChar(r[|r| - 1]))
  {
    TrimShape(s);
    TrimLeftShape(s);
    TrimRightShape(TrimLeft(s));
    var k := |s| - |TrimLeft(s)|;
    assert Trim(s) != [] ==> Trim(s)[0] == TrimLeft(s)[0];
    assert 0 <= k <= |s| - |Trim(s)| && Trim(s) == s[k..k + |Trim(s)|]
           && AllTrimChars(s[..k]) && AllTrimChars(s[k + |Trim(s)|..]);
  }

  /** What trim() returns is the infix s[k..k+|r|] with only stripped characters around it;
      it is empty exactly when `s` consists of stripped characters only, and otherwise it
      neither starts nor ends with one. */
  lemma TrimShape(s: string)
    ensures var r := TrimRight(TrimLeft(s));
            var k := |s| - |TrimLeft(s)|;
            0 <= k <= |s| - |r| && r == s[k..k + |r|]
            && AllTrimChars(s[..k]) && AllTrimChars(s[k + |r|..])
            && (r == [] <==> AllTrimChars(s))
            && (r != [] ==> !IsTrimChar(r[0]) && !IsTrimChar(r[|r| - 1]))
  {
    var l := TrimLeft(s);
    var r := TrimRight(l);
    var k := |s| - |l|;
    TrimLeftShape(s);
    TrimRightShape(l);
    assert l == s[k..];
    assert s[k..k + |r|] == r;
    assert s[k + |r|..] == l[|r|..];
    assert r != [] ==> r[0] == l[0];
    TrimEmptyIff(s);
  }

  lemma TrimEmptyIff(s: string)
    ensures TrimRight(TrimLeft(s)) == [] <==> AllTrimChars(s)
  {
    var l := TrimLeft(s);
    TrimLeftShape(s);
    TrimRightShape(l);
    if l != [] {
      assert l[0] == s[|s| - |l|];
    } else {
      assert s[..|s|] == s;
    }
  }

  /** trim() leaves a string alone that neither starts nor ends with a stripped character. */
  lemma TrimOfTrimmed(s: string)
    requires s != [] ==> !IsTrimChar(s[0]) && !IsTrimChar(s[|s| - 1])
    ensures Trim(s) == s
  {
    assert TrimLeft(s) == s;
    assert TrimRight(s) == s;
  }

  /** trim() is idempotent. */
  lemma TrimIdempotent(s: string)
    ensures Trim(Trim(s)) == Trim(s)
  {
    TrimCharacterised(s);
    TrimOfTrimmed(Trim(s));
  }

  /** Padding a trimmed string with stripped characters on both sides is undone by trim(). */
  lemma {:induction false} TrimPadded(p: string, s: string, q: string)
    requires AllTrimChars(p) && AllTrimChars(q)
    requires s != [] ==> !IsTrimChar(s[0]) && !IsTrimChar(s[|s| - 1])
    ensures Trim(p + s + q) == s
  {
    if s == [] {
      assert p + s + q == p + q;
      assert AllTrimChars(p + q) by {
        forall i | 0 <= i < |p + q| ensures IsTrimChar((p + q)[i]) {
          if i >= |p| { assert (p + q)[i] == q[i - |p|]; }
        }
      }
      TrimLeftAllTrim(p + q);
    } else {
      assert p + s + q == p + (s + q);
      TrimLeftPadded(p, s + q);
      TrimRightPadded(s, q);
    }
  }

  lemma {:induction false} TrimLeftAllTrim(s: string)
    requires AllTrimChars(s)
    ensures TrimLeft(s) == []
  {
    if s != [] {
      TrimLeftAllTrim(s[1..]);
    }
  }

  lemma {:induction false} TrimLeftPadded(p: string, t: string)
    requires AllTrimChars(p)
    requires t != [] ==> !IsTrimChar(t[0])
    ensures TrimLeft(p + t) == t
  {
    if p == [] {
      assert p + t == t;
    } else {
      assert (p + t)[1..] == p[1..] + t;
      TrimLeftPadded(p[1..], t);
    }
  }

  lemma {:induction false} TrimRightPadded(s: string, q: string)
    requires AllTrimChars(q)
    requires s != [] ==> !IsTrimChar(s[|s| - 1])
    ensures TrimRight(s + q) == s
  {
    if q == [] {
      assert s + q == s;
    } else {
      assert (s + q)[..|s + q| - 1] == s + q[..|q| - 1];
      TrimRightPadded(s, q[..|q| - 1]);
    }
  }

  /** PHP's empty() on a string value: true for "" and for "0", false for every other string. */
  predicate IsEmpty(s: string)
  {
    s == "" || s == "0"
  }

  // Decimal text of integers, as PHP's string conversion writes an int.

  predicate IsDigit(c: char)
  {
    '0' <= c <= '9'
  }

  function DigitChar(d: nat): (c: char)
    requires d < 10
    ensures IsDigit(c) && c as int - '0' as int == d
  {
    ('0' as int + d) as char
  }

  function DigitValue(c: char): (d: nat)
    requires IsDigit(c)
    ensures d < 10 && DigitChar(d) == c
  {
    c as int - '0' as int
  }

  /** The decimal digits of `n`, most significant first, with no leading zero. */
  function NatToDecimal(n: nat): (r: string)
    ensures r != []
    ensures forall i :: 0 <= i < |r| ==> IsDigit(r[i])
    ensures |r| > 1 ==> r[0] != '0'
  {
    if n < 10 then [DigitChar(n)] else NatToDecimal(n / 10) + [DigitChar(n % 10)]
  }

  /** The text of an int in PHP: its decimal digits, after a minus sign when negative. */
  function IntToDecimal(n: int): (r: string)
    ensures r != []
    ensures (r[0] == '-') <==> n < 0
  {
    if n < 0 then "-" + NatToDecimal(-n) else NatToDecimal(n)
  }

  /** The value of a string of decimal digits. */
  function DecimalToNat(s: string): nat
    requires forall i :: 0 <= i < |s| ==> IsDigit(s[i])
  {
    if s == [] then 0 else DecimalToNat(s[..|s| - 1]) * 10 + DigitValue(s[|s| - 1])
  }

  /** The value of an optionally signed decimal numeral; the inverse of IntToDecimal. */
  function DecimalToInt(s: string): int
    requires s != []
    requires forall i :: (if s[0] == '-' then 1 else 0) <= i < |s| ==> IsDigit(s[i])
  {
    if s[0] == '-' then -(DecimalToNat(s[1..]) as int) else DecimalToNat(s)
  }

  lemma {:induction false} NatDecimalRoundTrip(n: nat)
    ensures DecimalToNat(NatToDecimal(n)) == n
  {
    if n >= 10 {
      var r := NatToDecimal(n);
      NatDecimalRoundTrip(n / 10);
      assert r[..|r| - 1] == NatToDecimal(n / 10);
    }
  }

  /** Reading back the text of an int gives the int. */
  lemma DecimalRoundTrip(n: int)
    ensures var r := IntToDecimal(n);
            (forall i :: (if r[0] == '-' then 1 else 0) <= i < |r| ==> IsDigit(r[i]))
            && DecimalToInt(r) == n
  {
    if n < 0 {
      NatDecimalRoundTrip(-n);
      assert IntToDecimal(n)[1..] == NatToDecimal(-n);
    } else {
      NatDecimalRoundTrip(n);
    }
  }
}
