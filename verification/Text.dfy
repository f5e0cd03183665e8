/** The string and number conversions the form and import parsers rely on: strings.TrimSpace,
    strconv.Itoa and Atoi, and plain decimal amounts counted in hundredths (tyiyn). */
module Text {
  import opened Wrappers

  // ---- white space ----

  /** unicode.IsSpace. */
  predicate IsSpace(c: char) {
    || '\t' <= c <= '\r' || c == ' ' || c == '\U{0085}' || c == '\U{00A0}' || c == '\U{1680}'
    || '\U{2000}' <= c <= '\U{200A}' || c == '\U{2028}' || c == '\U{2029}' || c == '\U{202F}'
    || c == '\U{205F}' || c == '\U{3000}'
  }

  function TrimLeft(s: string): string {
    if s != "" && IsSpace(s[0]) then TrimLeft(s[1..]) else s
  }

  function TrimRight(s: string): string {
    if s != "" && IsSpace(s[|s| - 1]) then TrimRight(s[..|s| - 1]) else s
  }

  function TrimSpace(s: string): string {
    TrimRight(TrimLeft(s))
  }

  /** Neither end is a space. */
  predicate IsTrim(s: string) {
    s != "" ==> !IsSpace(s[0]) && !IsSpace(s[|s| - 1])
  }

  lemma {:induction false} TrimRightKeepsStart(s: string)
    requires s != "" ==> !IsSpace(s[0])
    ensures IsTrim(TrimRight(s))
  {
    if s != "" && IsSpace(s[|s| - 1]) {
      TrimRightKeepsStart(s[..|s| - 1]);
    }
  }

  lemma {:induction false} TrimLeftHasNoLeadingSpace(s: string)
    ensures TrimLeft(s) != "" ==> !IsSpace(TrimLeft(s)[0])
  {
    if s != "" && IsSpace(s[0]) {
      TrimLeftHasNoLeadingSpace(s[1..]);
    }
  }

  lemma TrimSpaceTrims(s: string)
    ensures IsTrim(TrimSpace(s))
    ensures IsTrim(s) ==> TrimSpace(s) == s
    ensures TrimSpace(TrimSpace(s)) == TrimSpace(s)
  {
    TrimLeftHasNoLeadingSpace(s);
    TrimRightKeepsStart(TrimLeft(s));
  }

  /** A decimal comma becomes a dot. */
  function CommaToDot(s: string): string {
    seq(|s|, i requires 0 <= i < |s| => if s[i] == ',' then '.' else s[i])
  }

  // ---- whole numbers ----

  predicate IsDigit(c: char) { '0' <= c <= '9' }

  predicate AllDigits(s: string) {
    forall i :: 0 <= i < |s| ==> IsDigit(s[i])
  }

  function DigitChar(d: nat): char
    requires d < 10
  {
    '0' + d as char
  }

  function DigitValue(c: char): nat
    requires IsDigit(c)
  {
    (c - '0') as nat
  }

  function Digits(n: nat): string {
    if n < 10 then [DigitChar(n)] else Digits(n / 10) + [DigitChar(n % 10)]
  }

  function Value(s: string): nat
    requires AllDigits(s)
  {
    if s == "" then 0 else Value(s[..|s| - 1]) * 10 + DigitValue(s[|s| - 1])
  }

  lemma {:induction false} DigitsRoundTrip(n: nat)
    ensures Digits(n) != "" && AllDigits(Digits(n)) && Value(Digits(n)) == n
  {
    if n >= 10 {
      DigitsRoundTrip(n / 10);
      assert Digits(n)[..|Digits(n)| - 1] == Digits(n / 10);
    } else {
      assert Digits(n)[..0] == "";
    }
  }

  function Itoa(n: int): string {
    if n < 0 then "-" + Digits(-n) else Digits(n)
  }

  const MAX_INT := 0x7fff_ffff_ffff_ffff

  predicate Signed(s: string) {
    s != "" && (s[0] == '-' || s[0] == '+')
  }

  function Unsigned(s: string): string {
    if Signed(s) then s[1..] else s
  }

  function WithSign(s: string, n: nat): int {
    if s != "" && s[0] == '-' then 0 - n else n
  }

  function Atoi(s: string): Option<int> {
    var u := Unsigned(s);
    if u == "" || !AllDigits(u) then None
    else
      var n := WithSign(s, Value(u));
      if -MAX_INT - 1 <= n <= MAX_INT then Some(n) else None
  }

  lemma ItoaRoundTrip(n: int)
    requires -MAX_INT - 1 <= n <= MAX_INT
    ensures Atoi(Itoa(n)) == Some(n)
    ensures IsTrim(Itoa(n)) && Itoa(n) != ""
  {
    var d := Digits(if n < 0 then -n else n);
    DigitsRoundTrip(if n < 0 then -n else n);
    SignOfDigits(d);
    DigitsAreTrim(d);
    hide Digits, Value, AllDigits, IsTrim, Signed, Unsigned, IsDigit;
  }

  lemma SignOfDigits(d: string)
    requires d != "" && AllDigits(d)
    ensures Unsigned(d) == d && WithSign(d, 0) == 0 && d[0] != '-' && Unsigned("-" + d) == d
  {
    assert IsDigit(d[0]);
    assert ("-" + d)[1..] == d;
  }

  lemma DigitsAreTrim(d: string)
    requires d != "" && AllDigits(d)
    ensures IsTrim(d) && IsTrim("-" + d)
  {
    assert IsDigit(d[0]) && IsDigit(d[|d| - 1]);
  }

  // ---- amounts ----

  function IndexOf(s: string, c: char): (i: nat)
    ensures i <= |s| && (i < |s| ==> s[i] == c) && forall j :: 0 <= j < i ==> s[j] != c
  {
    if s == "" || s[0] == c then 0 else 1 + IndexOf(s[1..], c)
  }

  /** The digits after the decimal point as hundredths, rounded half up. */
  function Hundredths(frac: string): nat
    requires AllDigits(frac)
  {
    var tens := if |frac| > 0 then DigitValue(frac[0]) * 10 else 0;
    var ones := if |frac| > 1 then DigitValue(frac[1]) else 0;
    tens + ones + if |frac| > 2 && DigitValue(frac[2]) >= 5 then 1 else 0
  }

  /** digits[.digits], with at least one digit, in hundredths. */
  function ParseUnsigned(s: string): Option<nat> {
    var dot := IndexOf(s, '.');
    var whole, frac := s[..dot], if dot < |s| then s[dot + 1..] else "";
    if AllDigits(whole) && AllDigits(frac) && whole + frac != "" then Some(Value(whole) * 100 + Hundredths(frac)) else None
  }

  /** strconv.ParseFloat on plain decimals, rounded to hundredths. */
  function ParseDecimal(s: string): Option<int> {
    match ParseUnsigned(Unsigned(s))
    case None => None
    case Some(n) => Some(WithSign(s, n))
  }

  /** The shortest decimal of whole + tens/10 + ones/100. */
  function FormatParts(whole: nat, tens: nat, ones: nat): string
    requires tens < 10 && ones < 10
  {
    if tens == 0 && ones == 0 then Digits(whole)
    else if ones == 0 then Digits(whole) + "." + [DigitChar(tens)]
    else Digits(whole) + "." + [DigitChar(tens), DigitChar(ones)]
  }

  function FormatUnsigned(c: nat): string {
    FormatParts(c / 100, c / 10 % 10, c % 10)
  }

  /** strconv.FormatFloat(amount, 'f', -1, 64) for an amount of whole hundredths. */
  function FormatDecimal(c: int): string {
    if c < 0 then "-" + FormatUnsigned(-c) else FormatUnsigned(c)
  }

  lemma {:induction false} NoDotInDigits(whole: string)
    requires AllDigits(whole)
    ensures IndexOf(whole, '.') == |whole|
  {
    if whole != "" { NoDotInDigits(whole[1..]); }
  }

  lemma {:induction false} DotAfterDigits(whole: string, rest: string)
    requires AllDigits(whole)
    ensures IndexOf(whole + "." + rest, '.') == |whole|
  {
    var s := whole + "." + rest;
    if whole != "" {
      assert s[0] == whole[0] && s[1..] == whole[1..] + "." + rest;
      DotAfterDigits(whole[1..], rest);
    }
  }

  lemma ParseParts(whole: string, frac: string)
    requires whole != "" && AllDigits(whole) && AllDigits(frac)
    ensures ParseUnsigned(whole) == Some(Value(whole) * 100)
    ensures ParseUnsigned(whole + "." + frac) == Some(Value(whole) * 100 + Hundredths(frac))
  {
    hide Value, IndexOf, DigitValue;
    NoDotInDigits(whole);
    DotAfterDigits(whole, frac);
    var s := whole + "." + frac;
    assert s[..|whole|] == whole && s[|whole| + 1..] == frac;
    assert whole[..|whole|] == whole;
  }

  lemma DigitRoundTrip(d: nat)
    requires d < 10
    ensures IsDigit(DigitChar(d)) && DigitValue(DigitChar(d)) == d
  {
  }

  lemma DigitsLookDecimal(whole: string, frac: string)
    requires whole != "" && frac != "" && AllDigits(whole) && AllDigits(frac)
    ensures LooksDecimal(whole) && LooksDecimal(whole + "." + frac)
  {
    hide IsDigit;
  }

  lemma HundredthsOf(tens: nat, ones: nat)
    requires tens < 10 && ones < 10
    ensures AllDigits([DigitChar(tens)]) && Hundredths([DigitChar(tens)]) == tens * 10
    ensures AllDigits([DigitChar(tens), DigitChar(ones)]) && Hundredths([DigitChar(tens), DigitChar(ones)]) == tens * 10 + ones
  {
    DigitRoundTrip(tens);
    DigitRoundTrip(ones);
    hide DigitChar, DigitValue, IsDigit;
  }

  lemma FormatPartsRoundTrip(whole: nat, tens: nat, ones: nat)
    requires tens < 10 && ones < 10
    ensures ParseUnsigned(FormatParts(whole, tens, ones)) == Some(whole * 100 + tens * 10 + ones)
    ensures LooksDecimal(FormatParts(whole, tens, ones))
  {
    hide DigitChar, DigitValue, Digits, Value, ParseUnsigned, IsDigit, Hundredths, AllDigits, LooksDecimal;
    DigitsRoundTrip(whole);
    HundredthsOf(tens, ones);
    var w, one, two := Digits(whole), [DigitChar(tens)], [DigitChar(tens), DigitChar(ones)];
    ParseParts(w, one);
    ParseParts(w, two);
    DigitsLookDecimal(w, one);
    DigitsLookDecimal(w, two);
  }

  /** Digits and points only, with a digit at either end. */
  predicate LooksDecimal(s: string) {
    s != "" && IsDigit(s[0]) && IsDigit(s[|s| - 1]) && forall i :: 0 <= i < |s| ==> IsDigit(s[i]) || s[i] == '.'
  }

  lemma SplitHundred(n: nat)
    ensures n / 100 * 100 + n / 10 % 10 * 10 + n % 10 == n
  {
    var q := n / 10;
    var p := q / 10;
    assert n == q * 10 + n % 10;
    assert q == p * 10 + q % 10;
    HundredsAre(n, p, q % 10 * 10 + n % 10);
  }

  lemma HundredsAre(n: nat, p: nat, rest: nat)
    requires n == p * 100 + rest && rest < 100
    ensures n / 100 == p
  {
  }

  lemma FormatDecimalRoundTrip(c: int)
    ensures ParseDecimal(FormatDecimal(c)) == Some(c)
    ensures LooksDecimal(Unsigned(FormatDecimal(c)))
    ensures FormatDecimal(c) == if c < 0 then "-" + Unsigned(FormatDecimal(c)) else Unsigned(FormatDecimal(c))
  {
    hide FormatParts, ParseUnsigned;
    var n := if c < 0 then -c else c;
    SplitHundred(n);
    FormatPartsRoundTrip(n / 100, n / 10 % 10, n % 10);
    SignRoundTrip(FormatUnsigned(n));
  }

  lemma SignRoundTrip(u: string)
    requires LooksDecimal(u)
    ensures !Signed(u) && Unsigned(u) == u && Unsigned("-" + u) == u
  {
  }
}
