/** Cell values of an import file (internal/catalog/import_parse.go): text is trimmed and folded, prices
    and quantities are read from what people type. Prices are whole hundredths. */
module ImportCells {
  import opened Wrappers
  import opened Text

  const MAX_PRICE := 9_999_999_999
  const MAX_QUANTITY := 1_000_000

  /** What is wrong with a row, as the report says it. */
  datatype Msg =
    | PriceNegative | PriceNotNumber | PriceTooLarge | PriceNotPositive | VariantPrice(reason: Msg)
    | VariantNeedsSizeAndColor | SkuWithoutVariant
    | QtyNegative | QtyNotInteger | QtyTooLarge | StockWithoutVariant | NoActivePoint
    | PointStock(point: string, reason: Msg) | PointInactive(point: string)
    | SkuDuplicateInFile(line: nat) | NoNameOrArticle | NoCategoryOrArticle | NoName | NoCategory | NoPrice
    | CategoryNotFound | CategoryAmbiguous | MultiRowNeedsVariant | DuplicateVariant(line: nat)
    | SkuTaken | SkuTakenArticle | SkuOtherProduct | AmbiguousProduct
    | DbConflict | DbNotFound | DbOutOfRange

  // ---- text ----

  /** Lower case of the Latin, Russian and Kyrgyz letters. */
  function LowerChar(c: char): char {
    if 'A' <= c <= 'Z' || '\U{0410}' <= c <= '\U{042F}' then c + 32 as char
    else if '\U{0400}' <= c <= '\U{040F}' then c + 80 as char
    else if c == '\U{04A2}' || c == '\U{04AE}' || c == '\U{04E8}' then c + 1 as char
    else c
  }

  function Lower(s: string): string {
    seq(|s|, i requires 0 <= i < |s| => LowerChar(s[i]))
  }

  /** The white space of a regular expression's \s. */
  predicate IsBlank(c: char) {
    c == ' ' || c == '\t' || c == '\n' || c == '\r' || c == '\U{000C}'
  }

  /** Every run of white space becomes one space. */
  function CollapseSpaces(s: string): string {
    if s == "" then ""
    else if !IsBlank(s[0]) then [s[0]] + CollapseSpaces(s[1..])
    else if |s| > 1 && IsBlank(s[1]) then CollapseSpaces(s[1..])
    else " " + CollapseSpaces(s[1..])
  }

  function NormalizeText(s: string): string {
    TrimSpace(CollapseSpaces(s))
  }

  function NormalizeSize(s: string): string {
    CommaToDot(NormalizeText(s))
  }

  // ---- numbers ----

  function TrimSuffix(s: string, suffix: string): string {
    if |suffix| <= |s| && s[|s| - |suffix|..] == suffix then s[..|s| - |suffix|] else s
  }

  function WithoutGrouping(s: string): string {
    if s == "" then ""
    else (if s[0] == ' ' || s[0] == '\U{00A0}' || s[0] == '\U{202F}' || s[0] == '\t' then "" else [s[0]]) + WithoutGrouping(s[1..])
  }

  const SOM := "\U{0441}\U{043E}\U{043C}"

  function CompactNumber(s: string): string {
    CommaToDot(WithoutGrouping(TrimSuffix(TrimSuffix(Lower(TrimSpace(s)), SOM), "kgs")))
  }

  /** digits, or digits.digits */
  predicate IsDecimal(s: string) {
    var dot := IndexOf(s, '.');
    && dot > 0 && AllDigits(s[..dot])
    && (dot < |s| ==> dot + 1 < |s| && AllDigits(s[dot + 1..]))
  }

  predicate AllZeros(s: string) {
    forall i :: 0 <= i < |s| ==> s[i] == '0'
  }

  function ParsePrice(raw: string): Result<nat, Msg> {
    var s := CompactNumber(raw);
    if s != "" && s[0] == '-' then Err(PriceNegative)
    else if !IsDecimal(s) then Err(PriceNotNumber)
    else match ParseUnsigned(s)
      case None => Err(PriceNotNumber)
      case Some(n) => if n > MAX_PRICE then Err(PriceTooLarge) else Ok(n)
  }

  function ParseQuantity(raw: string): Result<nat, Msg> {
    var s := CompactNumber(raw);
    var dot := IndexOf(s, '.');
    if s != "" && s[0] == '-' then Err(QtyNegative)
    else if !IsDecimal(s) || (dot < |s| && !AllZeros(s[dot + 1..])) then Err(QtyNotInteger)
    else
      var n := Value(s[..dot]);
      if n > MAX_QUANTITY then Err(QtyTooLarge) else Ok(n)
  }

  // ---- what the program writes, it reads back ----

  lemma {:induction false} NoGrouping(s: string)
    requires forall i :: 0 <= i < |s| ==> IsDigit(s[i]) || s[i] == '.'
    ensures WithoutGrouping(s) == s
  {
    if s != "" { NoGrouping(s[1..]); }
  }

  lemma PlainNumberIsCompact(s: string)
    requires LooksDecimal(s)
    ensures CompactNumber(s) == s
  {
    hide TrimSpace, Lower, TrimSuffix, WithoutGrouping, CommaToDot;
    PlainNumberIsLower(s);
    EndsInDigit(s);
    NoGrouping(s);
  }

  lemma PlainNumberIsLower(s: string)
    requires LooksDecimal(s)
    ensures TrimSpace(s) == s && Lower(s) == s && CommaToDot(s) == s
  {
    TrimSpaceTrims(s) by { hide LooksDecimal; }
    assert IsTrim(s);
    hide TrimSpace;
    assert forall i :: 0 <= i < |s| ==> LowerChar(s[i]) == s[i] && s[i] != ',';
    hide LooksDecimal, LowerChar;
  }

  lemma EndsInDigit(s: string)
    requires LooksDecimal(s)
    ensures TrimSuffix(s, SOM) == s && TrimSuffix(s, "kgs") == s
  {
    assert IsDigit(s[|s| - 1]);
    hide LooksDecimal, TrimSuffix;
    assert SOM[|SOM| - 1] == '\U{043C}' && "kgs"[2] == 's';
    EndsOtherwise(s, SOM);
    EndsOtherwise(s, "kgs");
  }

  lemma EndsOtherwise(s: string, suffix: string)
    requires s != "" && suffix != "" && s[|s| - 1] != suffix[|suffix| - 1]
    ensures TrimSuffix(s, suffix) == s
  {
    if |suffix| <= |s| { assert s[|s| - |suffix|..][|suffix| - 1] == s[|s| - 1]; }
  }

  lemma PlainNumberIsDecimal(s: string)
    requires LooksDecimal(s) && ParseUnsigned(s).Some?
    ensures IsDecimal(s) && s[0] != '-'
  {
  }

  /** A price the program shows is the price an import reads. */
  lemma PriceRoundTrip(price: nat)
    requires price <= MAX_PRICE
    ensures ParsePrice(FormatDecimal(price)) == Ok(price)
  {
    var s := FormatDecimal(price);
    FormatDecimalRoundTrip(price);
    SignRoundTrip(s);
    hide LooksDecimal, FormatDecimal, CompactNumber, ParseUnsigned, IsDecimal, Unsigned, Signed;
    PlainNumberIsCompact(s);
    PlainNumberIsDecimal(s);
    assert s != "" by { NotEmpty(s); }
  }

  lemma NotEmpty(s: string)
    requires LooksDecimal(s)
    ensures s != ""
  {
  }

  /** A quantity the program shows is the quantity an import reads. */
  lemma QuantityRoundTrip(n: nat)
    requires n <= MAX_QUANTITY
    ensures ParseQuantity(Itoa(n)) == Ok(n)
  {
    var s := Itoa(n);
    DigitsRoundTrip(n);
    NoDotInDigits(s);
    PlainNumberIsCompact(s);
    assert s[..|s|] == s;
    hide Digits, CompactNumber, Value;
  }
}
