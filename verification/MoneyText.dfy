/** Minor units printed as decimal text, and decimal text parsed back. */
module MoneyText {
  import opened Wrappers
  import opened MoneyMath

  // ---- printing --------------------------------------------------------------------------------

  predicate IsDigit(c: char) { '0' <= c <= '9' }

  predicate AllDigits(s: string) {
    forall i :: 0 <= i < |s| ==> IsDigit(s[i])
  }

  function Digit(d: nat): char
    requires d < 10
  {
    "0123456789"[d]
  }

  /** str of a natural number. */
  function NatText(n: nat): string {
    if n < 10 then [Digit(n)] else NatText(n / 10) + [Digit(n % 10)]
  }

  function Magnitude(n: int): nat { if n < 0 then -n else n }

  function Sign(n: int): string { if n < 0 then "-" else "" }

  function TwoDigits(n: nat): string
    requires n < 100
  {
    [Digit(n / 10), Digit(n % 10)]
  }

  function MinorText(minor: int, currency: string): string {
    if IsZeroDecimalCode(currency) then
      Sign(minor) + NatText(Magnitude(minor))
    else
      Sign(minor) + (NatText(Magnitude(minor) / 100) + ("." + TwoDigits(Magnitude(minor) % 100)))
  }

  /** The provider's money object: its amount is in minor units. */
  datatype MoneyObject = NotAnObject | MoneyObject(amount: Option<int>, currency: Option<string>)

  /** money(): the decimal text and the currency code, or nothing. */
  function PrintMoney(obj: MoneyObject): (Option<string>, Option<string>) {
    if obj.NotAnObject? || obj.amount.None? then (None, None)
    else
      var currency := Upper(if obj.currency.None? || obj.currency.value == "" then "USD" else obj.currency.value);
      (Some(MinorText(obj.amount.value, currency)), Some(currency))
  }

  lemma DollarsAreUpper()
    ensures Upper("USD") == "USD"
  {
    assert |Upper("USD")| == 3;
  }

  /** There is a text exactly when there is an amount, and the currency is the given one in capitals, or US dollars. */
  lemma PrintMoneyCurrency(obj: MoneyObject)
    ensures PrintMoney(obj).0.Some? <==> obj.MoneyObject? && obj.amount.Some?
    ensures PrintMoney(obj).1.Some? <==> obj.MoneyObject? && obj.amount.Some?
    ensures PrintMoney(obj).1.Some? ==>
      PrintMoney(obj).1.value == if obj.currency.None? || obj.currency.value == "" then "USD" else Upper(obj.currency.value)
  {
    DollarsAreUpper();
  }

  // ---- parsing ---------------------------------------------------------------------------------

  datatype AmountInput = Missing | Exact(amount: real) | Text(text: string)

  /** NotFinite stands for the infinities and NaNs, which are values of Decimal but have no amount. */
  datatype ParseError = Required | Invalid | NotFinite

  function RemoveAll(s: string, c: char): (r: string)
    ensures c !in r
    ensures c !in s ==> r == s
  {
    if s == "" then "" else (if s[0] == c then "" else [s[0]]) + RemoveAll(s[1..], c)
  }

  predicate IsSpace(c: char) {
    c == ' ' || c == '\t' || c == '\n' || c == '\r' || c == '\U{000b}' || c == '\U{000c}'
  }

  function StripLeft(s: string): (r: string)
    ensures r != "" ==> !IsSpace(r[0])
    ensures s != "" && !IsSpace(s[0]) ==> r == s
  {
    if s != "" && IsSpace(s[0]) then StripLeft(s[1..]) else s
  }

  function StripRight(s: string): (r: string)
    ensures r != "" ==> !IsSpace(r[|r| - 1])
    ensures s != "" && !IsSpace(s[|s| - 1]) ==> r == s
  {
    if s != "" && IsSpace(s[|s| - 1]) then StripRight(s[..|s| - 1]) else s
  }

  function NatValue(digits: string): nat
    requires AllDigits(digits)
  {
    if digits == "" then 0
    else 10 * NatValue(digits[..|digits| - 1]) + (digits[|digits| - 1] as int - '0' as int)
  }

  /** Length of the longest prefix of digits. */
  function DigitRun(s: string): (n: nat)
    ensures n <= |s| && AllDigits(s[..n]) && (n < |s| ==> !IsDigit(s[n]))
  {
    if s == "" || !IsDigit(s[0]) then 0 else
      var n := 1 + DigitRun(s[1..]);
      assert s[..n] == [s[0]] + s[1..][..n - 1];
      n
  }

  function Pow10(e: int): real
    decreases if e < 0 then -e else e
  {
    if e == 0 then 1.0 else if e > 0 then 10.0 * Pow10(e - 1) else Pow10(e + 1) / 10.0
  }

  function ParseExponent(s: string): Option<int> {
    if s == "" then Some(0)
    else if s[0] != 'e' && s[0] != 'E' then None
    else
      var signed := |s| > 1 && (s[1] == '+' || s[1] == '-');
      var digits := if signed then s[2..] else s[1..];
      if digits == "" || !AllDigits(digits) then None
      else
        var e: int := NatValue(digits);
        Some(if signed && s[1] == '-' then -e else e)
  }

  predicate SameLetters(s: string, upper: string) {
    |s| == |upper| && forall i :: 0 <= i < |s| ==> UpperChar(s[i]) == upper[i]
  }

  predicate SpecialValue(s: string) {
    || SameLetters(s, "INF") || SameLetters(s, "INFINITY")
    || (|s| >= 3 && SameLetters(s[..3], "NAN") && AllDigits(s[3..]))
    || (|s| >= 4 && SameLetters(s[..4], "SNAN") && AllDigits(s[4..]))
  }

  function ParseUnsigned(s: string): Result<real, ParseError> {
    var n := DigitRun(s);
    var whole := s[..n];
    var pointed := n < |s| && s[n] == '.';
    var m := if pointed then DigitRun(s[n + 1..]) else 0;
    var fraction := if pointed then s[n + 1..][..m] else "";
    var rest := if pointed then s[n + 1..][m..] else s[n..];
    if whole + fraction == "" then
      Err(if SpecialValue(s) then NotFinite else Invalid)
    else
      match ParseExponent(rest)
      case None => Err(Invalid)
      case Some(e) => Ok(NatValue(whole + fraction) as real * Pow10(e - |fraction|))
  }

  function ParseSigned(s: string): Result<real, ParseError> {
    if s != "" && (s[0] == '+' || s[0] == '-') then
      match ParseUnsigned(s[1..])
      case Ok(v) => Ok(if s[0] == '-' then -v else v)
      case Err(e) => Err(e)
    else
      ParseUnsigned(s)
  }

  /** Decimal(text). */
  function ParseDecimal(text: string): Result<real, ParseError> {
    ParseSigned(RemoveAll(StripRight(StripLeft(text)), '_'))
  }

  function ParseAmount(value: AmountInput): (r: Result<real, ParseError>)
    ensures value.Missing? ==> r == Err(Required)
    ensures value.Exact? ==> r == Ok(value.amount)
  {
    match value
    case Missing => Err(Required)
    case Exact(amount) => Ok(amount)
    case Text(text) => ParseDecimal(StripRight(StripLeft(RemoveAll(text, ','))))
  }

  lemma {:induction false} RemoveAllAppend(a: string, b: string, c: char)
    ensures RemoveAll(a + b, c) == RemoveAll(a, c) + RemoveAll(b, c) && RemoveAll([c], c) == ""
  {
    if a == "" {
      assert a + b == b;
    } else {
      assert (a + b)[1..] == a[1..] + b;
      RemoveAllAppend(a[1..], b, c);
    }
  }

  lemma RemovedInside(a: string, b: string, c: char)
    ensures RemoveAll(a + [c] + b, c) == RemoveAll(a + b, c)
  {
    RemoveAllAppend(a + [c], b, c);
    RemoveAllAppend(a, [c], c);
    RemoveAllAppend(a, b, c);
  }

  /** Thousands separators do not matter, wherever they stand. */
  lemma CommasDoNotMatter(a: string, b: string, text: string)
    requires text == a + [','] + b
    ensures ParseAmount(Text(text)) == ParseAmount(Text(a + b))
  {
    RemovedInside(a, b, ',');
  }

  /** The printed text: a minus sign for negative amounts only, a whole number without leading zeros, and outside yen and
      won a point and two digits. */
  lemma PrintedShape(minor: int, currency: string)
    ensures var text := MinorText(minor, currency);
      && text != "" && (text[0] == '-' <==> minor < 0)
      && var digits := if minor < 0 then text[1..] else text;
      if currency == "JPY" || currency == "KRW" then IsWholeNumber(digits) else IsHundredths(digits)
  {
    var n := Magnitude(minor);
    if currency == "JPY" || currency == "KRW" {
      NatTextIsWhole(n);
      SignedText(minor, NatText(n), MinorText(minor, currency));
    } else {
      HundredthsShape(n / 100, n % 100, NatText(n / 100) + ("." + TwoDigits(n % 100)));
      SignedText(minor, NatText(n / 100) + ("." + TwoDigits(n % 100)), MinorText(minor, currency));
    }
  }

  lemma SignedText(minor: int, digits: string, text: string)
    requires digits != "" && digits[0] != '-' && text == Sign(minor) + digits
    ensures text != "" && (text[0] == '-' <==> minor < 0) && digits == if minor < 0 then text[1..] else text
  {
  }

  lemma HundredthsShape(whole: nat, cents: nat, digits: string)
    requires cents < 100 && digits == NatText(whole) + ("." + TwoDigits(cents))
    ensures IsHundredths(digits)
  {
    NatTextIsWhole(whole);
    assert digits[..|digits| - 3] == NatText(whole) && digits[|digits| - 2..] == TwoDigits(cents);
  }

  /** A whole number, a point and two digits. */
  predicate IsHundredths(s: string) {
    |s| > 3 && IsWholeNumber(s[..|s| - 3]) && s[|s| - 3] == '.' && AllDigits(s[|s| - 2..]) && IsDigit(s[0])
  }

  predicate IsWholeNumber(s: string) {
    s != "" && AllDigits(s) && (s[0] == '0' ==> |s| == 1)
  }

  lemma {:induction false} NatTextIsWhole(n: nat)
    ensures IsWholeNumber(NatText(n)) && (n > 0 ==> NatText(n)[0] != '0')
  {
    if n >= 10 { NatTextIsWhole(n / 10); }
  }

  // ---- the round trip --------------------------------------------------------------------------

  lemma {:induction false} NatTextRoundTrip(n: nat)
    ensures NatText(n) != "" && AllDigits(NatText(n)) && NatValue(NatText(n)) == n
  {
    if n >= 10 {
      NatTextRoundTrip(n / 10);
      assert NatText(n)[..|NatText(n)| - 1] == NatText(n / 10);
    } else {
      assert NatText(n)[..0] == "";
    }
  }

  lemma NatValueSnoc(s: string, d: nat)
    requires AllDigits(s) && d < 10
    ensures AllDigits(s + [Digit(d)]) && NatValue(s + [Digit(d)]) == 10 * NatValue(s) + d
  {
    var t := s + [Digit(d)];
    assert t[..|t| - 1] == s;
  }

  lemma NatValueOfTwoMore(s: string, cents: nat)
    requires AllDigits(s) && cents < 100
    ensures AllDigits(TwoDigits(cents)) && AllDigits(s + TwoDigits(cents))
    ensures NatValue(s + TwoDigits(cents)) == 100 * NatValue(s) + cents
  {
    NatValueSnoc(s, cents / 10);
    NatValueSnoc(s + [Digit(cents / 10)], cents % 10);
    assert s + TwoDigits(cents) == s + [Digit(cents / 10)] + [Digit(cents % 10)];
  }

  lemma {:induction false} DigitRunStops(a: string, b: string)
    requires AllDigits(a) && (b == "" || !IsDigit(b[0]))
    ensures DigitRun(a + b) == |a|
  {
    if a != "" {
      assert (a + b)[1..] == a[1..] + b;
      DigitRunStops(a[1..], b);
    } else {
      assert a + b == b;
    }
  }

  predicate PlainChar(c: char) { IsDigit(c) || c == '-' || c == '.' }

  predicate Plain(s: string) {
    s != "" && forall i :: 0 <= i < |s| ==> PlainChar(s[i])
  }

  /** A numeral without sign and its value. */
  predicate Numeral(digits: string, v: real) {
    Plain(digits) && IsDigit(digits[0]) && ParseUnsigned(digits) == Ok(v)
  }

  /** parse_amount reads this text as exactly this amount. */
  predicate Denotes(text: string, v: real) {
    ParseAmount(Text(text)) == Ok(v)
  }

  /** Cleaning leaves plain numerals as they are. */
  lemma PlainIsClean(s: string)
    requires Plain(s)
    ensures StripRight(StripLeft(RemoveAll(s, ','))) == s
    ensures RemoveAll(StripRight(StripLeft(s)), '_') == s
  {
    assert ',' !in s && '_' !in s;
    assert !IsSpace(s[0]) && !IsSpace(s[|s| - 1]);
  }

  lemma ParseWhole(whole: string, v: real)
    requires AllDigits(whole) && whole != "" && v == NatValue(whole) as real
    ensures Numeral(whole, v)
  {
    DigitRunStops(whole, "");
    assert whole + "" == whole && whole[..|whole|] == whole && whole[|whole|..] == "";
  }

  lemma ParseHundredths(s: string, whole: string, fraction: string, v: real)
    requires AllDigits(whole) && whole != "" && AllDigits(fraction) && |fraction| == 2
    requires s == whole + ("." + fraction)
    requires AllDigits(whole + fraction) && v == NatValue(whole + fraction) as real / 100.0
    ensures Numeral(s, v)
  {
    DigitRunStops(whole, "." + fraction);
    assert s[..|whole|] == whole && s[|whole| + 1..] == fraction;
    DigitRunStops(fraction, "");
    assert fraction + "" == fraction && fraction[..2] == fraction && fraction[2..] == "";
    assert Pow10(-1) == Pow10(0) / 10.0 == 0.1;
    assert Pow10(0 - 2) == 0.01;
  }

  lemma PlainParses(s: string)
    requires Plain(s)
    ensures ParseAmount(Text(s)) == ParseSigned(s)
  {
    PlainIsClean(s);
  }

  lemma SignedParses(minor: int, digits: string, v: real)
    requires digits != "" && IsDigit(digits[0]) && ParseUnsigned(digits) == Ok(v)
    ensures ParseSigned(Sign(minor) + digits) == Ok(if minor < 0 then -v else v)
  {
    if minor < 0 {
      NegativeParses(digits, v);
    } else {
      assert Sign(minor) + digits == digits;
    }
  }

  lemma NegativeParses(digits: string, v: real)
    requires ParseUnsigned(digits) == Ok(v)
    ensures ParseSigned("-" + digits) == Ok(-v)
  {
    var s := "-" + digits;
    assert s[1..] == digits && s[0] == '-';
  }

  lemma SignedNumeral(minor: int, digits: string, v: real, text: string, w: real)
    requires Numeral(digits, v) && text == Sign(minor) + digits && w == if minor < 0 then -v else v
    ensures Denotes(text, w)
  {
    SignedParses(minor, digits, v);
    PlainParses(text);
  }

  lemma WholeNumeral(n: nat, digits: string, v: real)
    requires digits == NatText(n) && v == n as real
    ensures Numeral(digits, v)
  {
    NatTextRoundTrip(n);
    ParseWhole(digits, v);
  }

  lemma HundredthsNumeral(n: nat, whole: nat, cents: nat, digits: string, v: real)
    requires n == 100 * whole + cents && cents < 100
    requires digits == NatText(whole) + ("." + TwoDigits(cents)) && v == n as real / 100.0
    ensures Numeral(digits, v)
  {
    NatTextRoundTrip(whole);
    NatValueOfTwoMore(NatText(whole), cents);
    ParseHundredths(digits, NatText(whole), TwoDigits(cents), v);
  }

  lemma AmountOfMagnitude(minor: int, currency: string)
    requires Upper(currency) == currency
    ensures Amount(minor, currency) ==
      var v := if IsZeroDecimalCode(currency) then Magnitude(minor) as real else Magnitude(minor) as real / 100.0;
      if minor < 0 then -v else v
  {
  }

  lemma SignedHundredths(minor: int, n: nat, whole: nat, cents: nat, digits: string, text: string, amount: real)
    requires n == Magnitude(minor) == 100 * whole + cents && cents < 100
    requires digits == NatText(whole) + ("." + TwoDigits(cents)) && text == Sign(minor) + digits
    requires amount == if minor < 0 then -(n as real / 100.0) else n as real / 100.0
    ensures Denotes(text, amount)
  {
    var v := n as real / 100.0;
    HundredthsNumeral(n, whole, cents, digits, v);
    SignedNumeral(minor, digits, v, text, amount);
  }

  lemma SignedWhole(minor: int, n: nat, digits: string, text: string, amount: real)
    requires n == Magnitude(minor)
    requires digits == NatText(n) && text == Sign(minor) + digits
    requires amount == if minor < 0 then -(n as real) else n as real
    ensures Denotes(text, amount)
  {
    WholeNumeral(n, digits, n as real);
    SignedNumeral(minor, digits, n as real, text, amount);
  }

  /** The printed text of any number of minor units is parsed back as exactly that decimal. */
  lemma PrintedTextParses(minor: int, currency: string, text: string, amount: real)
    requires Upper(currency) == currency && text == MinorText(minor, currency) && amount == Amount(minor, currency)
    ensures Denotes(text, amount)
  {
    var n := Magnitude(minor);
    AmountOfMagnitude(minor, currency);
    if IsZeroDecimalCode(currency) {
      SignedWhole(minor, n, NatText(n), text, amount);
    } else {
      SignedHundredths(minor, n, n / 100, n % 100, NatText(n / 100) + ("." + TwoDigits(n % 100)), text, amount);
    }
  }

  lemma {:induction false} UpperIsIdempotent(s: string)
    ensures Upper(Upper(s)) == Upper(s)
  {
    var u := Upper(s);
    assert forall i :: 0 <= i < |s| ==> UpperChar(UpperChar(s[i])) == UpperChar(s[i]);
  }

  /** Printing a provider amount, parsing the text and quantizing it returns the same number of minor units:
      for every sign, and for zero-decimal currencies too. */
  lemma MoneyRoundTrip(obj: MoneyObject)
    requires obj.MoneyObject? && obj.amount.Some?
    ensures var (text, currency) := PrintMoney(obj);
      text.Some? && currency.Some? &&
      match ParseAmount(Text(text.value)) {
        case Ok(v) => Quantize(v, currency.value) == obj.amount.value
        case Err(_) => false
      }
  {
    var (text, currency) := PrintMoney(obj);
    UpperIsIdempotent(if obj.currency.None? || obj.currency.value == "" then "USD" else obj.currency.value);
    PrintedTextParses(obj.amount.value, currency.value, text.value, Amount(obj.amount.value, currency.value));
    QuantizeKeepsQuantized(obj.amount.value, currency.value);
  }
}
