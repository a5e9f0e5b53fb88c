/**
 * The decimal syntax that Python's `float()` accepts for finite numbers, read
 * into an exact `real`: surrounding ASCII whitespace, an optional sign, digits
 * with an optional fraction, and an optional exponent.
 */
module Numerals {
  import opened Wrappers

  /** Python's ASCII whitespace: space, tab, line feed, vertical tab, form feed, carriage return. */
  predicate IsSpace(c: char) {
    c == ' ' || '\t' <= c <= '\r'
  }

  predicate IsDigit(c: char) {
    '0' <= c <= '9'
  }

  predicate AllDigits(s: string) {
    forall i :: 0 <= i < |s| ==> IsDigit(s[i])
  }

  function DigitValue(c: char): (d: nat)
    requires IsDigit(c)
    ensures d < 10
  {
    c as int - '0' as int
  }

  function DigitChar(d: nat): (c: char)
    requires d < 10
    ensures IsDigit(c) && DigitValue(c) == d
  {
    ('0' as int + d) as char
  }

  /** The value of a digit string, most significant digit first. */
  function DigitsValue(s: string): nat
    requires AllDigits(s)
  {
    if s == [] then 0 else 10 * DigitsValue(s[..|s| - 1]) + DigitValue(s[|s| - 1])
  }

  function Pow10(k: nat): (r: nat)
    ensures r >= 1
  {
    if k == 0 then 1 else 10 * Pow10(k - 1)
  }

  /** The factor 10^e, for an exponent of either sign. */
  function Scale(e: int): (r: real)
    ensures r > 0.0
  {
    if e >= 0 then Pow10(e) as real else 1.0 / Pow10(-e) as real
  }

  /** The first position of a character of `cs` in `s`, or `|s|` if there is none. */
  function IndexOf(s: string, cs: set<char>): (k: nat)
    ensures k <= |s|
    ensures k < |s| ==> s[k] in cs
    ensures forall j :: 0 <= j < k ==> s[j] !in cs
  {
    if s == [] then 0
    else if s[0] in cs then 0
    else 1 + IndexOf(s[1..], cs)
  }

  /** The number of blanks at the start of `s`. */
  function LeadingSpaces(s: string): (k: nat)
    ensures k <= |s|
    ensures forall j :: 0 <= j < k ==> IsSpace(s[j])
    ensures k < |s| ==> !IsSpace(s[k])
  {
    if s != [] && IsSpace(s[0]) then 1 + LeadingSpaces(s[1..]) else 0
  }

  /** The length of `s` without the blanks at its end. */
  function WithoutTrailingSpaces(s: string): (k: nat)
    ensures k <= |s|
    ensures forall j :: k <= j < |s| ==> IsSpace(s[j])
    ensures 0 < k ==> !IsSpace(s[k - 1])
  {
    if s != [] && IsSpace(s[|s| - 1]) then WithoutTrailingSpaces(s[..|s| - 1]) else |s|
  }

  /** `s.strip()` restricted to ASCII whitespace: the slice `s[a..b]` between the blanks. */
  function Strip(s: string): (r: string)
  {
    var a := LeadingSpaces(s);
    s[a..][..WithoutTrailingSpaces(s[a..])]
  }

  /** An exponent after `e` or `E`: an optional sign and at least one digit. */
  function ParseExponent(s: string): Option<int> {
    var signed := s != [] && (s[0] == '+' || s[0] == '-');
    var digits := if signed then s[1..] else s;
    if digits != [] && AllDigits(digits) then
      var magnitude: int := DigitsValue(digits);
      Some(if signed && s[0] == '-' then -magnitude else magnitude)
    else None
  }

  /** Digits with at most one decimal point and at least one digit on either side of it. */
  function ParseMantissa(s: string): Option<real> {
    var p := IndexOf(s, {'.'});
    var whole := s[..p];
    var frac := if p < |s| then s[p + 1..] else [];
    if AllDigits(whole) && AllDigits(frac) && |whole| + |frac| > 0 then
      Some(DigitsValue(whole) as real + DigitsValue(frac) as real / Pow10(|frac|) as real)
    else None
  }

  function ParseUnsigned(s: string): Option<real> {
    var p := IndexOf(s, {'e', 'E'});
    var mantissa := ParseMantissa(s[..p]);
    var exponent := if p < |s| then ParseExponent(s[p + 1..]) else Some(0);
    if mantissa.Some? && exponent.Some? then Some(mantissa.value * Scale(exponent.value)) else None
  }

  /** `float(s)` for the finite decimal forms; `None` where Python raises ValueError. */
  function ParseFloat(s: string): Option<real> {
    var t := Strip(s);
    if t != [] && t[0] == '-' then
      match ParseUnsigned(t[1..])
      case Some(v) => Some(-v)
      case None => None
    else if t != [] && t[0] == '+' then ParseUnsigned(t[1..])
    else ParseUnsigned(t)
  }

  /** The decimal digits of `n`, without leading zeros (the `str` of a non-negative int). */
  function ShowNat(n: nat): (s: string)
    ensures s != [] && AllDigits(s)
  {
    if n < 10 then [DigitChar(n)] else ShowNat(n / 10) + [DigitChar(n % 10)]
  }

  lemma {:induction false} DigitsValueShowNat(n: nat)
    ensures DigitsValue(ShowNat(n)) == n
  {
    if n >= 10 {
      var s := ShowNat(n);
      assert s[..|s| - 1] == ShowNat(n / 10);
      DigitsValueShowNat(n / 10);
    }
  }

  lemma NoSpaceStripped(s: string)
    requires forall i :: 0 <= i < |s| ==> !IsSpace(s[i])
    ensures Strip(s) == s
  {
  }

  lemma AllDigitsIndexOf(s: string, cs: set<char>)
    requires AllDigits(s)
    requires forall c :: c in cs ==> !IsDigit(c)
    ensures IndexOf(s, cs) == |s|
  {
  }

  lemma ParseUnsignedDigits(s: string)
    requires s != [] && AllDigits(s)
    ensures ParseUnsigned(s) == Some(DigitsValue(s) as real)
  {
    AllDigitsIndexOf(s, {'e', 'E'});
    assert s[..|s|] == s;
    AllDigitsIndexOf(s, {'.'});
    assert ParseMantissa(s) == Some(DigitsValue(s) as real + 0 as real / 1 as real);
  }

  /** Any non-empty digit string, leading zeros included, reads as the number it spells. */
  lemma ParseFloatDigits(s: string)
    requires s != [] && AllDigits(s)
    ensures ParseFloat(s) == Some(DigitsValue(s) as real)
  {
    NoSpaceStripped(s);
    assert IsDigit(s[0]);
    ParseUnsignedDigits(s);
  }

  /** The decimal spelling of a natural number reads back as that number. */
  lemma ParseFloatShowNat(n: nat)
    ensures ParseFloat(ShowNat(n)) == Some(n as real)
  {
    ParseFloatDigits(ShowNat(n));
    DigitsValueShowNat(n);
  }

  /** Prefixing a minus sign to a field that does not begin with a blank or a sign negates the number read. */
  lemma ParseFloatNegation(s: string)
    requires s != [] ==> !IsSpace(s[0]) && s[0] != '-' && s[0] != '+'
    ensures ParseFloat("-" + s).Some? <==> ParseFloat(s).Some?
    ensures ParseFloat(s).Some? ==> ParseFloat("-" + s).value == -ParseFloat(s).value
  {
    var t := "-" + s;
    assert t[1..] == s;
    assert LeadingSpaces(t) == 0;
    assert LeadingSpaces(s) == 0;
    assert t[0..] == t && s[0..] == s;
    if s == [] {
      assert WithoutTrailingSpaces(t) == 1;
    } else {
      assert WithoutTrailingSpaces(t) == 1 + WithoutTrailingSpaces(s) by {
        var k := WithoutTrailingSpaces(s);
        assert k > 0;
        WithoutTrailingSpacesShift(s);
      }
    }
    assert Strip(t) == "-" + Strip(s);
    assert Strip(t)[1..] == Strip(s);
  }

  /** Prefixing a non-blank character keeps the trailing blanks where they were. */
  lemma {:induction false} WithoutTrailingSpacesShift(s: string)
    requires s != [] && !IsSpace(s[0])
    ensures WithoutTrailingSpaces("-" + s) == 1 + WithoutTrailingSpaces(s)
    decreases |s|
  {
    var t := "-" + s;
    assert t[..|t| - 1] == "-" + s[..|s| - 1];
    if IsSpace(s[|s| - 1]) {
      assert |s| > 1;
      WithoutTrailingSpacesShift(s[..|s| - 1]);
    }
  }

  lemma ParseMantissaHasDigit(s: string)
    requires ParseMantissa(s).Some?
    ensures exists i :: 0 <= i < |s| && IsDigit(s[i])
  {
  }

  /** A field that contains no decimal digit is never read as a number. */
  lemma {:induction false} ParseFloatNeedsDigit(s: string)
    requires ParseFloat(s).Some?
    ensures exists i :: 0 <= i < |s| && IsDigit(s[i])
  {
    var t := Strip(s);
    var u := if t != [] && (t[0] == '-' || t[0] == '+') then t[1..] else t;
    assert ParseUnsigned(u).Some?;
    var p := IndexOf(u, {'e', 'E'});
    ParseMantissaHasDigit(u[..p]);
    var i :| 0 <= i < p && IsDigit(u[..p][i]);
    var a := LeadingSpaces(s);
    var offset := if u == t then 0 else 1;
    assert u[i] == t[i + offset] == s[a + i + offset];
  }

  /** A leading blank before a field does not change the number read. */
  lemma ParseFloatLeadingSpace(c: char, s: string)
    requires IsSpace(c)
    ensures ParseFloat([c] + s) == ParseFloat(s)
  {
    var cs := [c] + s;
    assert cs[1..] == s;
    assert LeadingSpaces(cs) == 1 + LeadingSpaces(s);
    assert cs[LeadingSpaces(cs)..] == s[LeadingSpaces(s)..];
  }

  lemma SingleDigitValue(c: char)
    requires IsDigit(c)
    ensures DigitsValue([c]) == DigitValue(c)
  {
  }

  lemma ParseFractionExample()
    ensures ParseFloat("2.5") == Some(2.5)
  {
    NoSpaceStripped("2.5");
    assert IndexOf("2.5", {'e', 'E'}) == 3;
    assert "2.5"[..3] == "2.5";
    assert IndexOf("2.5", {'.'}) == 1;
    assert "2.5"[..1] == "2" && "2.5"[2..] == "5";
    SingleDigitValue('2');
    SingleDigitValue('5');
  }

  lemma ParseThousand()
    ensures ParseUnsigned("1e3") == Some(1000.0)
  {
    assert IndexOf("1e3", {'e', 'E'}) == 1;
    assert "1e3"[..1] == "1" && "1e3"[2..] == "3";
    assert IndexOf("1", {'.'}) == 1;
    assert "1"[..1] == "1";
    SingleDigitValue('1');
    SingleDigitValue('3');
    assert ParseMantissa("1") == Some(1.0);
    assert ParseExponent("3") == Some(3);
    assert Scale(3) == 1000.0;
  }

  lemma ParseExponentExample()
    ensures ParseFloat("-1e3") == Some(-1000.0)
  {
    ParseThousand();
    NoSpaceStripped("-1e3");
    assert "-1e3"[1..] == "1e3";
  }

  lemma ParseNegativeExponentExample()
    ensures ParseFloat(".5E-1") == Some(0.05)
  {
    NoSpaceStripped(".5E-1");
    assert IndexOf(".5E-1", {'e', 'E'}) == 2;
    assert ".5E-1"[..2] == ".5" && ".5E-1"[3..] == "-1";
    assert IndexOf(".5", {'.'}) == 0;
    assert ".5"[..0] == "" && ".5"[1..] == "5";
    assert "-1"[1..] == "1";
    SingleDigitValue('1');
    SingleDigitValue('5');
    assert ParseExponent("-1") == Some(-1);
  }

  lemma ParseRejectsExample()
    ensures ParseFloat("1.5.2") == None
    ensures ParseFloat("") == None
  {
    NoSpaceStripped("1.5.2");
    assert IndexOf("1.5.2", {'e', 'E'}) == 5;
    assert "1.5.2"[..5] == "1.5.2";
    assert IndexOf("1.5.2", {'.'}) == 1;
    assert "1.5.2"[2..] == "5.2";
    assert !IsDigit("5.2"[1]);
  }
}
