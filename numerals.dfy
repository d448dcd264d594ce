/**
  The numeral encoders of the page-label styles (bookmarks.py): digits in a base,
  decimal, Roman (upper and lower case) and bijective base-26 letters (upper and lower case).
 */
module Numerals {
  import opened Results
  import opened Text

  // ---------------------------------------------------------------------------
  // number_to_base_list

  /** `b` to the power `k`. */
  function Pow(b: nat, k: nat): nat {
    if k == 0 then 1 else b * Pow(b, k - 1)
  }

  /** The value of digits read most significant first. */
  function DigitsToNumber(ds: seq<int>, base: int): int {
    if |ds| == 0 then 0 else DigitsToNumber(ds[..|ds| - 1], base) * base + ds[|ds| - 1]
  }

  /** The value of digits read least significant first. */
  function LsbValue(ds: seq<int>, base: nat): int {
    if |ds| == 0 then 0 else ds[0] + base * LsbValue(ds[1..], base)
  }

  function Reverse<T>(s: seq<T>): (r: seq<T>)
    ensures |r| == |s|
    ensures forall k :: 0 <= k < |s| ==> r[k] == s[|s| - 1 - k]
  {
    seq(|s|, k requires 0 <= k < |s| => s[|s| - 1 - k])
  }

  lemma {:induction false} LsbValueAppend(ds: seq<int>, d: int, base: nat)
    ensures LsbValue(ds + [d], base) == LsbValue(ds, base) + Pow(base, |ds|) * d
    decreases |ds|
  {
    if |ds| > 0 {
      assert (ds + [d])[1..] == ds[1..] + [d];
      LsbValueAppend(ds[1..], d, base);
      assert Pow(base, |ds|) == base * Pow(base, |ds| - 1);
      ShiftOut(ds[0], base, LsbValue(ds[1..], base), Pow(base, |ds| - 1), d);
    } else {
      assert ds + [d] == [d];
    }
  }

  /** Multiplying out one digit position. */
  lemma ShiftOut(x: int, b: int, v: int, p: int, d: int)
    ensures x + b * (v + p * d) == x + b * v + (b * p) * d
  {
    assert b * (v + p * d) == b * v + b * (p * d);
    assert b * (p * d) == (b * p) * d;
  }

  lemma {:induction false} ReversedValue(ds: seq<int>, base: nat)
    ensures DigitsToNumber(Reverse(ds), base) == LsbValue(ds, base)
    decreases |ds|
  {
    if |ds| > 0 {
      var r := Reverse(ds);
      assert r[..|r| - 1] == Reverse(ds[1..]);
      ReversedValue(ds[1..], base);
    }
  }

  /** One division step of NumberToBaseList keeps `number` equal to digits-so-far plus the rest. */
  lemma DivModStep(number: int, ds: seq<int>, n: nat, base: nat)
    requires base >= 2
    requires number == LsbValue(ds, base) + Pow(base, |ds|) * n
    ensures number == LsbValue(ds + [n % base], base) + Pow(base, |ds + [n % base]|) * (n / base)
  {
    var p, q, m := Pow(base, |ds|), n / base, n % base;
    LsbValueAppend(ds, m, base);
    assert n == base * q + m;
    assert Pow(base, |ds| + 1) == base * p;
    MulDistributes(p, base, q, m);
  }

  lemma MulDistributes(p: int, base: int, q: int, m: int)
    ensures (base * p) * q + p * m == p * (base * q + m)
  {
  }

  /** The quotient of a step is smaller, and is zero only when the remainder is all that is left. */
  lemma DivShrinks(n: nat, base: nat)
    requires base >= 2
    ensures 0 <= n % base < base
    ensures n > 0 ==> n / base < n
    ensures n / base == 0 ==> n % base == n
  {
    var q, m := n / base, n % base;
    assert n == base * q + m;
    assert q >= 0;
    MulAtLeastTwice(base, q);
    assert 2 * q <= n;
  }

  /** A division step keeps every invariant of the loop of NumberToBaseList. */
  lemma DivStep(number: int, ds: seq<int>, n: nat, base: nat)
    requires base >= 2 && n > 0
    requires number == LsbValue(ds, base) + Pow(base, |ds|) * n
    requires forall k :: 0 <= k < |ds| ==> 0 <= ds[k] < base
    ensures number == LsbValue(ds + [n % base], base) + Pow(base, |ds + [n % base]|) * (n / base)
    ensures forall k :: 0 <= k < |ds + [n % base]| ==> 0 <= (ds + [n % base])[k] < base
    ensures n / base == 0 ==> (ds + [n % base])[|ds|] != 0
    ensures 0 <= n / base < n
  {
    DivModStep(number, ds, n, base);
    DivShrinks(n, base);
  }

  lemma MulAtLeastTwice(base: nat, q: nat)
    requires base >= 2
    ensures base * q >= 2 * q
  {
  }

  /**
    The digits of `number` in `base`, most significant first; the two errors of the source
    are checked in its order (base first, then sign).
   */
  method NumberToBaseList(number: int, base: int) returns (r: Result<seq<int>>)
    ensures base < 2 ==> r.Err?
    ensures base >= 2 && number < 0 ==> r.Err?
    ensures base >= 2 && number == 0 ==> r == Ok([0])
    ensures base >= 2 && number > 0 ==> r.Ok?
    ensures base >= 2 && number > 0 ==> |r.value| >= 1 && r.value[0] != 0
    ensures base >= 2 && number > 0 ==> forall k :: 0 <= k < |r.value| ==> 0 <= r.value[k] < base
    ensures base >= 2 && number > 0 ==> DigitsToNumber(r.value, base) == number
  {
    if base < 2 {
      return Err(DomainError(base));
    }
    if number < 0 {
      return Err(DomainError(number));
    } else if number == 0 {
      return Ok([0]);
    }
    var representation: seq<int> := [];
    var n := number;
    while n > 0
      invariant n >= 0
      invariant number == LsbValue(representation, base) + Pow(base, |representation|) * n
      invariant forall k :: 0 <= k < |representation| ==> 0 <= representation[k] < base
      invariant representation == [] ==> n > 0
      invariant representation != [] && n == 0 ==> representation[|representation| - 1] != 0
      decreases n
    {
      DivStep(number, representation, n, base);
      var quotient, remainder := n / base, n % base;
      representation := representation + [remainder];
      n := quotient;
    }
    var digits := Reverse(representation);
    ReversedValue(representation, base);
    return Ok(digits);
  }

  // ---------------------------------------------------------------------------
  // Bijective base-26 letters

  /** The lower-case letter numeral of `n`: 1 is "a", 26 is "z", 27 is "aa"; empty for n <= 0. */
  function AlphaLower(n: int): string
    decreases n
  {
    if n <= 0 then "" else AlphaLower((n - 1) / 26) + [(('a' as int) + (n - 1) % 26) as char]
  }

  /** The number a letter numeral stands for: each letter is a digit from 1 ('a') to 26 ('z'). */
  function AlphaValue(s: string): int {
    if |s| == 0 then 0 else AlphaValue(s[..|s| - 1]) * 26 + (s[|s| - 1] as int - 'a' as int + 1)
  }

  predicate IsLowerLetters(s: string) {
    forall k :: 0 <= k < |s| ==> 'a' <= s[k] <= 'z'
  }

  predicate IsUpperLetters(s: string) {
    forall k :: 0 <= k < |s| ==> 'A' <= s[k] <= 'Z'
  }

  /** Every letter numeral is made of 'a'..'z' and is empty exactly when n <= 0. */
  lemma {:induction false} AlphaLowerShape(n: int)
    ensures IsLowerLetters(AlphaLower(n))
    ensures |AlphaLower(n)| == 0 <==> n <= 0
    decreases n
  {
    if n > 0 {
      AlphaLowerShape((n - 1) / 26);
    }
  }

  /** Reading the letters back gives the number (for n >= 0). */
  lemma {:induction false} AlphaLowerDecodes(n: int)
    requires n >= 0
    ensures AlphaValue(AlphaLower(n)) == n
    decreases n
  {
    if n > 0 {
      var q := (n - 1) / 26;
      AlphaLowerDecodes(q);
      var s := AlphaLower(n);
      assert s[..|s| - 1] == AlphaLower(q);
    }
  }

  /** Every non-empty string of 'a'..'z' is the numeral of its value: the encoding is onto. */
  lemma {:induction false} AlphaLowerOnto(s: string)
    requires IsLowerLetters(s)
    ensures AlphaValue(s) >= 0
    ensures AlphaLower(AlphaValue(s)) == s
    decreases |s|
  {
    if |s| > 0 {
      var init := s[..|s| - 1];
      AlphaLowerOnto(init);
      var v := AlphaValue(s);
      var d := s[|s| - 1] as int - 'a' as int;
      assert v - 1 == AlphaValue(init) * 26 + d;
      assert (v - 1) / 26 == AlphaValue(init);
      assert (v - 1) % 26 == d;
      assert s == init + [s[|s| - 1]];
    }
  }

  lemma AlphaLowerExamples()
    ensures AlphaLower(1) == "a"
    ensures AlphaLower(26) == "z"
    ensures AlphaLower(27) == "aa"
    ensures AlphaLower(702) == "zz"
    ensures AlphaLower(703) == "aaa"
  {
  }

  /** `Counter.to_lowercase_alpha_numeral`: letters collected least significant first, then reversed. */
  method ToLowercaseAlphaNumeral(pageNumber: int) returns (numeral: string)
    ensures numeral == AlphaLower(pageNumber)
  {
    var pageLabel: seq<char> := [];
    var n := pageNumber;
    while n > 0
      invariant AlphaLower(pageNumber) == AlphaLower(n) + Reverse(pageLabel)
      decreases n
    {
      var quotient, remainder := (n - 1) / 26, (n - 1) % 26;
      var letter := (('a' as int) + remainder) as char;
      assert Reverse(pageLabel + [letter]) == [letter] + Reverse(pageLabel);
      pageLabel := pageLabel + [letter];
      n := quotient;
    }
    numeral := Reverse(pageLabel);
  }

  /** `Counter.to_uppercase_alpha_numeral`: the lower-case numeral, upper-cased. */
  method ToUppercaseAlphaNumeral(pageNumber: int) returns (numeral: string)
    ensures numeral == Upper(AlphaLower(pageNumber))
    ensures IsUpperLetters(numeral)
    ensures Lower(numeral) == AlphaLower(pageNumber)
  {
    var lower := ToLowercaseAlphaNumeral(pageNumber);
    numeral := Upper(lower);
    AlphaLowerShape(pageNumber);
    assert Lower(numeral) == lower;
  }

  // ---------------------------------------------------------------------------
  // Roman numerals (the `roman` package's toRoman)

  /** The numeral/value pairs of the greedy Roman encoding, largest first. */
  const RomanTable: seq<(string, nat)> := [
    ("M", 1000), ("CM", 900), ("D", 500), ("CD", 400), ("C", 100), ("XC", 90),
    ("L", 50), ("XL", 40), ("X", 10), ("IX", 9), ("V", 5), ("IV", 4), ("I", 1)]

  predicate IsRomanLetter(c: char) {
    c == 'M' || c == 'D' || c == 'C' || c == 'L' || c == 'X' || c == 'V' || c == 'I'
  }

  /** `n` written greedily with the entries of RomanTable from position `k` on. */
  function RomanFrom(n: nat, k: nat): string
    requires k <= |RomanTable|
    decreases |RomanTable| - k, n
  {
    if k == |RomanTable| || n == 0 then ""
    else if n >= RomanTable[k].1 then RomanTable[k].0 + RomanFrom(n - RomanTable[k].1, k)
    else RomanFrom(n, k + 1)
  }

  /** `roman.toRoman`: the Roman numeral of n, or a domain error for n <= 0. */
  function ToRoman(n: int): (r: Result<string>)
    ensures r.Err? <==> n <= 0
  {
    if n <= 0 then Err(DomainError(n)) else Ok(RomanFrom(n, 0))
  }

  lemma {:induction false} RomanFromShape(n: nat, k: nat)
    requires k <= |RomanTable|
    ensures forall i :: 0 <= i < |RomanFrom(n, k)| ==> IsRomanLetter(RomanFrom(n, k)[i])
    ensures n > 0 && k < |RomanTable| ==> |RomanFrom(n, k)| > 0
    decreases |RomanTable| - k, n
  {
    if k == |RomanTable| || n == 0 {
    } else if n >= RomanTable[k].1 {
      RomanFromShape(n - RomanTable[k].1, k);
    } else {
      RomanFromShape(n, k + 1);
    }
  }

  /** Every Roman numeral is a non-empty word over I, V, X, L, C, D, M. */
  lemma RomanShape(n: int)
    requires n >= 1
    ensures ToRoman(n).Ok?
    ensures |ToRoman(n).value| > 0
    ensures forall i :: 0 <= i < |ToRoman(n).value| ==> IsRomanLetter(ToRoman(n).value[i])
  {
    RomanFromShape(n, 0);
  }

  lemma RomanExamples()
    ensures ToRoman(4) == Ok("IV")
    ensures ToRoman(2024) == Ok("MMXXIV")
    ensures ToRoman(0).Err?
  {
    assert RomanFrom(4, 11) == "IV";
    assert RomanFrom(4, 0) == "IV" by {
      assert RomanFrom(4, 10) == RomanFrom(4, 11);
      assert RomanFrom(4, 9) == RomanFrom(4, 10);
      assert RomanFrom(4, 8) == RomanFrom(4, 9);
      assert RomanFrom(4, 7) == RomanFrom(4, 8);
      assert RomanFrom(4, 6) == RomanFrom(4, 7);
      assert RomanFrom(4, 5) == RomanFrom(4, 6);
      assert RomanFrom(4, 4) == RomanFrom(4, 5);
      assert RomanFrom(4, 3) == RomanFrom(4, 4);
      assert RomanFrom(4, 2) == RomanFrom(4, 3);
      assert RomanFrom(4, 1) == RomanFrom(4, 2);
      assert RomanFrom(4, 0) == RomanFrom(4, 1);
    }
    assert RomanFrom(14, 8) == "XIV" by {
      assert RomanFrom(4, 8) == "IV";
    }
    assert RomanFrom(24, 0) == "XXIV" by {
      assert RomanFrom(24, 8) == "XXIV";
      assert RomanFrom(24, 7) == RomanFrom(24, 8);
      assert RomanFrom(24, 6) == RomanFrom(24, 7);
      assert RomanFrom(24, 5) == RomanFrom(24, 6);
      assert RomanFrom(24, 4) == RomanFrom(24, 5);
      assert RomanFrom(24, 3) == RomanFrom(24, 4);
      assert RomanFrom(24, 2) == RomanFrom(24, 3);
      assert RomanFrom(24, 1) == RomanFrom(24, 2);
      assert RomanFrom(24, 0) == RomanFrom(24, 1);
    }
    assert RomanFrom(2024, 0) == "MMXXIV" by {
      assert RomanFrom(1024, 0) == "M" + RomanFrom(24, 0);
    }
  }

  // ---------------------------------------------------------------------------
  // The six styles and their label functions

  /** The page-label styles, named as in the PDF tool's metadata dump. */
  datatype Style =
    | LowercaseRomanNumerals
    | DecimalArabicNumerals
    | UppercaseRomanNumerals
    | UppercaseAlphaNumerals
    | LowercaseAlphaNumerals
    | NoNumber

  function StyleName(s: Style): string {
    match s
    case LowercaseRomanNumerals => "LowercaseRomanNumerals"
    case DecimalArabicNumerals => "DecimalArabicNumerals"
    case UppercaseRomanNumerals => "UppercaseRomanNumerals"
    case UppercaseAlphaNumerals => "UppercaseAlphaNumerals"
    case LowercaseAlphaNumerals => "LowercaseAlphaNumerals"
    case NoNumber => "NoNumber"
  }

  /** `Counter.counter_styles`, in the source's order. */
  const CounterStyles: seq<string> := [
    "LowercaseRomanNumerals", "DecimalArabicNumerals", "UppercaseRomanNumerals",
    "UppercaseAlphaNumerals", "LowercaseAlphaNumerals", "NoNumber"]

  /** The style named `name`, or None when the name is not one of CounterStyles. */
  function ParseStyle(name: string): (r: Option<Style>)
    ensures r.Some? <==> name in CounterStyles
    ensures r.Some? ==> StyleName(r.value) == name
  {
    if name == "LowercaseRomanNumerals" then Some(LowercaseRomanNumerals)
    else if name == "DecimalArabicNumerals" then Some(DecimalArabicNumerals)
    else if name == "UppercaseRomanNumerals" then Some(UppercaseRomanNumerals)
    else if name == "UppercaseAlphaNumerals" then Some(UppercaseAlphaNumerals)
    else if name == "LowercaseAlphaNumerals" then Some(LowercaseAlphaNumerals)
    else if name == "NoNumber" then Some(NoNumber)
    else None
  }

  /** Style names and styles correspond one to one. */
  lemma StyleNameRoundTrip(s: Style)
    ensures ParseStyle(StyleName(s)) == Some(s)
    ensures StyleName(s) in CounterStyles
  {
  }

  /** A counter of this style has a label function (`page_to_label` is not None). */
  predicate HasLabels(s: Style) {
    s != NoNumber
  }

  predicate IsRoman(s: Style) {
    s == LowercaseRomanNumerals || s == UppercaseRomanNumerals
  }

  /** `page_to_label(n)` of a counter of style `s`; Roman styles fail for n <= 0. */
  function PageToLabel(s: Style, n: int): (r: Result<string>)
    requires HasLabels(s)
    ensures r.Err? <==> IsRoman(s) && n <= 0
  {
    match s
    case LowercaseRomanNumerals =>
      var upper :- ToRoman(n);
      Ok(Lower(upper))
    case UppercaseRomanNumerals => ToRoman(n)
    case DecimalArabicNumerals => Ok(DecimalString(n))
    case UppercaseAlphaNumerals => Ok(Upper(AlphaLower(n)))
    case LowercaseAlphaNumerals => Ok(AlphaLower(n))
  }

  /** The lower-case Roman label is the upper-case one with every letter lowered, and back. */
  lemma LowercaseRomanIsLowered(n: int)
    requires n >= 1
    ensures PageToLabel(LowercaseRomanNumerals, n).Ok?
    ensures PageToLabel(LowercaseRomanNumerals, n).value == Lower(PageToLabel(UppercaseRomanNumerals, n).value)
    ensures Upper(PageToLabel(LowercaseRomanNumerals, n).value) == PageToLabel(UppercaseRomanNumerals, n).value
  {
    RomanShape(n);
    var upper := ToRoman(n).value;
    assert Upper(Lower(upper)) == upper;
  }
}
