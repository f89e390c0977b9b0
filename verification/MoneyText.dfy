/** Money as text: the decimal yuan form and the wire form of
    crates/commission-types/src/money.rs. */
module MoneyText {
  import opened Wrappers
  import opened Domain

  const I128_MAX: int := 0x7fff_ffff_ffff_ffff_ffff_ffff_ffff_ffff

  datatype TextError = Format | Range

  // ----------------------------------------------------------------- digits

  predicate IsDigit(c: char) {
    '0' <= c <= '9'
  }

  predicate AllDigits(s: string) {
    forall i :: 0 <= i < |s| ==> IsDigit(s[i])
  }

  /** Printing a number without padding. */
  function Digits(n: nat): (s: string)
    ensures |s| > 0 && AllDigits(s)
  {
    if n < 10 then ['0' + n as char] else Digits(n / 10) + ['0' + (n % 10) as char]
  }

  /** Reading digits in base ten. */
  function Value(s: string): nat
    requires AllDigits(s)
  {
    if s == "" then 0 else Value(s[..|s| - 1]) * 10 + (s[|s| - 1] - '0') as nat
  }

  lemma {:induction false} ValueOfDigits(n: nat)
    ensures Value(Digits(n)) == n
  {
    if n >= 10 {
      ValueOfDigits(n / 10);
      assert Digits(n)[..|Digits(n)| - 1] == Digits(n / 10);
    }
  }

  /** Without a redundant leading zero. */
  predicate Minimal(s: string) {
    |s| > 0 && (s[0] == '0' ==> |s| == 1)
  }

  lemma {:induction false} DigitsAreMinimal(n: nat)
    ensures Minimal(Digits(n)) && (Digits(n)[0] == '0' <==> n == 0)
  {
    if n >= 10 {
      DigitsAreMinimal(n / 10);
    }
  }

  lemma {:induction false} DigitsOfValue(s: string)
    requires AllDigits(s) && Minimal(s)
    ensures Digits(Value(s)) == s && (s[0] != '0' ==> Value(s) > 0)
  {
    if |s| > 1 {
      DigitsOfValue(s[..|s| - 1]);
      assert s == s[..|s| - 1] + [s[|s| - 1]];
    }
  }

  // ------------------------------------------------------------- the source

  function Abs(m: int): nat {
    if m < 0 then -m else m
  }

  function Sign(negative: bool): string {
    if negative then "-" else ""
  }

  function Signed(negative: bool, n: nat): int {
    if negative then -(n as int) else n
  }

  /** `{:02}` of a number below one hundred. */
  function TwoDigits(n: nat): string
    requires n < 100
  {
    if n < 10 then "0" + Digits(n) else Digits(n)
  }

  /** `Money::yuan`. */
  function Yuan(m: Money): string {
    Sign(m < 0) + Digits(Abs(m) / 100) + "." + TwoDigits(Abs(m) % 100)
  }

  /** `strip_prefix('-')`. */
  function StripMinus(s: string): (bool, string) {
    if s != "" && s[0] == '-' then (true, s[1..]) else (false, s)
  }

  /** `split_once('.')`, or the whole text and nothing. */
  function SplitPoint(s: string): (string, string) {
    if s == "" then ("", "")
    else if s[0] == '.' then ("", s[1..])
    else var (whole, fraction) := SplitPoint(s[1..]); ([s[0]] + whole, fraction)
  }

  /** `Money::from_yuan`. */
  function FromYuan(text: string): Result<Money, TextError> {
    var (negative, value) := StripMinus(text);
    var (whole, fraction) := SplitPoint(value);
    if whole == "" || !AllDigits(whole) || |fraction| > 2 || !AllDigits(fraction) || value[|value| - 1] == '.' then Err(Format)
    else if Value(whole) > I128_MAX then Err(Range)
    else
      var hundredths := if |fraction| == 1 then Value(fraction) * 10 else Value(fraction);
      var cents := Value(whole) * 100 + hundredths;
      if Value(whole) * 100 > I128_MAX || cents > I128_MAX then Err(Range)
      else if InI64(Signed(negative, cents)) then Ok(Signed(negative, cents))
      else Err(Range)
  }

  /** The wire form. */
  function ToWire(m: Money): string {
    Sign(m < 0) + Digits(Abs(m))
  }

  function FromWire(text: string): Result<Money, TextError> {
    var (negative, digits) := StripMinus(text);
    if digits == "" || !AllDigits(digits) then Err(Format)
    else
      var m := Signed(negative, Value(digits));
      if InI64(m) then Ok(m) else Err(Range)
  }

  // ----------------------------------------------------- what a text denotes

  /** The grammar: an optional minus, digits, and optionally a point and one or two digits. */
  datatype Decimal = Decimal(negative: bool, whole: string, fraction: string) {
    predicate Valid() {
      whole != "" && AllDigits(whole) && |fraction| <= 2 && AllDigits(fraction)
    }

    function Text(): string {
      Sign(negative) + whole + (if fraction == "" then "" else "." + fraction)
    }

    /** Its digits read as one number, which is the amount times ten for each digit behind
        the point. */
    function Unscaled(): int
      requires Valid()
    {
      DigitsJoin(whole, fraction);
      Signed(negative, Value(whole + fraction))
    }

    /** The amount in cents is exactly a hundred times the decimal number. */
    predicate Denotes(cents: int)
      requires Valid()
    {
      cents * Pow10(|fraction|) == 100 * Unscaled()
    }
  }

  function Pow10(n: nat): nat {
    if n == 0 then 1 else 10 * Pow10(n - 1)
  }

  lemma DigitsJoin(a: string, b: string)
    requires AllDigits(a) && AllDigits(b)
    ensures AllDigits(a + b)
  {
  }

  function Parse(text: string): Decimal {
    var (negative, value) := StripMinus(text);
    var (whole, fraction) := SplitPoint(value);
    Decimal(negative, whole, fraction)
  }

  lemma {:induction false} SplitJoins(s: string)
    ensures var (whole, fraction) := SplitPoint(s);
            && '.' !in whole
            && (s == whole + "." + fraction || (s == whole && fraction == ""))
  {
    if s != "" && s[0] != '.' {
      SplitJoins(s[1..]);
      assert s == [s[0]] + s[1..];
    }
  }

  lemma {:induction false} SplitOf(whole: string, fraction: string)
    requires '.' !in whole
    ensures SplitPoint(whole + "." + fraction) == (whole, fraction)
    ensures SplitPoint(whole) == (whole, "")
  {
    if whole == "" {
      assert whole + "." + fraction == "." + fraction;
    } else {
      assert whole[0] in whole && whole == [whole[0]] + whole[1..];
      SplitOf(whole[1..], fraction);
      assert (whole + "." + fraction)[1..] == whole[1..] + "." + fraction;
    }
  }

  lemma NoPoint(s: string)
    requires AllDigits(s)
    ensures '.' !in s && '-' !in s
  {
  }

  lemma StripSigned(negative: bool, body: string)
    requires body != "" && IsDigit(body[0])
    ensures StripMinus(Sign(negative) + body) == (negative, body)
  {
    var text := Sign(negative) + body;
    if negative {
      assert text[1..] == body;
    } else {
      assert text == body;
    }
  }

  lemma SplitDecimal(d: Decimal)
    requires d.Valid()
    ensures SplitPoint(d.whole + (if d.fraction == "" then "" else "." + d.fraction)) == (d.whole, d.fraction)
  {
    hide SplitPoint;
    NoPoint(d.whole);
    SplitOf(d.whole, d.fraction);
    if d.fraction == "" {
      assert d.whole + "" == d.whole;
    } else {
      assert d.whole + ("." + d.fraction) == d.whole + "." + d.fraction;
    }
  }

  lemma Associate(a: string, b: string, c: string)
    ensures a + b + c == a + (b + c)
  {
  }

  /** A text has at most one decimal reading, and `Parse` finds it. */
  lemma ParseText(d: Decimal)
    requires d.Valid()
    ensures Parse(d.Text()) == d
  {
    hide SplitPoint, StripMinus, Sign;
    var tail := if d.fraction == "" then "" else "." + d.fraction;
    var body := d.whole + tail;
    Associate(Sign(d.negative), d.whole, tail);
    assert body[0] == d.whole[0];
    StripSigned(d.negative, body);
    SplitDecimal(d);
  }

  lemma LastDigit(s: string)
    requires AllDigits(s) && s != ""
    ensures Value(s) == Value(s[..|s| - 1]) * 10 + (s[|s| - 1] - '0') as nat
  {
  }

  /** Reading past the point multiplies by ten for each digit. */
  lemma Shift(whole: string, fraction: string)
    requires AllDigits(whole) && AllDigits(fraction) && |fraction| <= 2
    ensures AllDigits(whole + fraction)
    ensures Value(whole + fraction) == Value(whole) * Pow10(|fraction|) + Value(fraction)
    decreases |fraction|
  {
    hide Value;
    DigitsJoin(whole, fraction);
    if fraction == "" {
      assert whole + fraction == whole && Value("") == 0 by { NoDigits(); }
    } else {
      var before := fraction[..|fraction| - 1];
      assert (whole + fraction)[..|whole + fraction| - 1] == whole + before;
      LastDigit(whole + fraction);
      LastDigit(fraction);
      Shift(whole, before);
    }
  }

  lemma NoDigits()
    ensures Value("") == 0
  {
  }

  function Cents(d: Decimal): int
    requires d.Valid()
  {
    var hundredths := if |d.fraction| == 1 then Value(d.fraction) * 10 else Value(d.fraction);
    Signed(d.negative, Value(d.whole) * 100 + hundredths)
  }

  /** The cents computed for a valid decimal are the only ones it denotes. */
  lemma CentsOf(d: Decimal, m: int)
    requires d.Valid()
    ensures d.Denotes(m) <==> m == Cents(d)
  {
    hide Value, Pow10;
    Shift(d.whole, d.fraction);
    Powers();
    var w, f := Value(d.whole), Value(d.fraction);
    if |d.fraction| == 0 {
      assert d.fraction == "" && f == 0 by { NoDigits(); }
      assert d.Unscaled() == Signed(d.negative, w);
    } else if |d.fraction| == 1 {
      assert d.Unscaled() == Signed(d.negative, w * 10 + f);
    } else {
      assert d.Unscaled() == Signed(d.negative, w * 100 + f);
    }
  }

  lemma Powers()
    ensures Pow10(0) == 1 && Pow10(1) == 10 && Pow10(2) == 100
  {
  }

  lemma TrailingPoint(value: string, whole: string, fraction: string)
    requires value != "" && AllDigits(whole) && AllDigits(fraction)
    requires value == whole + "." + fraction || (value == whole && fraction == "")
    ensures value[|value| - 1] != '.' <==> value == whole + (if fraction == "" then "" else "." + fraction)
  {
    if value == whole {
      assert IsDigit(value[|value| - 1]) && whole + "" == whole;
    } else if fraction == "" {
      assert |value| == |whole + ""| + 1;
    } else {
      assert value[|value| - 1] == fraction[|fraction| - 1];
      assert whole + "." + fraction == whole + ("." + fraction);
    }
  }

  lemma AcceptedText(text: string)
    ensures var (negative, value) := StripMinus(text);
            var (whole, fraction) := SplitPoint(value);
            (whole == "" || !AllDigits(whole) || |fraction| > 2 || !AllDigits(fraction) || value[|value| - 1] == '.')
            <==> !(Parse(text).Valid() && Parse(text).Text() == text)
  {
    hide SplitPoint;
    var (negative, value) := StripMinus(text);
    var (whole, fraction) := SplitPoint(value);
    SplitJoins(value);
    var body := whole + (if fraction == "" then "" else "." + fraction);
    SameBody(negative, value, body);
    assert text == Sign(negative) + value;
    assert Parse(text).Text() == Sign(negative) + body;
    if value != "" && AllDigits(whole) && AllDigits(fraction) {
      TrailingPoint(value, whole, fraction);
    }
  }

  lemma SameBody(negative: bool, a: string, b: string)
    ensures Sign(negative) + a == Sign(negative) + b <==> a == b
  {
    assert (Sign(negative) + a)[|Sign(negative)|..] == a;
    assert (Sign(negative) + b)[|Sign(negative)|..] == b;
  }

  /** The branches of `from_yuan` in terms of the decimal read; the 128-bit checks only
      refuse what the 64-bit one would refuse too. */
  lemma FromYuanOf(text: string)
    ensures var d := Parse(text);
            FromYuan(text) == if !(d.Valid() && d.Text() == text) then Err(Format)
                              else if InI64(Cents(d)) then Ok(Cents(d)) else Err(Range)
  {
    hide SplitPoint, Value;
    AcceptedText(text);
  }

  lemma OneReading(text: string)
    ensures forall d: Decimal :: d.Valid() && d.Text() == text ==> d == Parse(text)
  {
    hide Parse;
    forall d: Decimal | d.Valid() && d.Text() == text
      ensures d == Parse(text)
    {
      ParseText(d);
    }
  }

  /** Strict reading: a text is accepted exactly when it is a decimal with at most two
      digits behind the point whose exact amount fits; no rounding ever happens. */
  lemma FromYuanIff(text: string, m: Money)
    ensures FromYuan(text) == Ok(m) <==> exists d: Decimal :: d.Valid() && d.Text() == text && d.Denotes(m)
  {
    hide FromYuan, Parse, Cents;
    FromYuanOf(text);
    OneReading(text);
    if Parse(text).Valid() {
      CentsOf(Parse(text), m);
    }
  }

  /** The first error: not a decimal at all. */
  lemma FormatError(text: string)
    ensures FromYuan(text) == Err(Format) <==> !exists d: Decimal :: d.Valid() && d.Text() == text
  {
    hide FromYuan, Parse, Cents;
    FromYuanOf(text);
    OneReading(text);
  }

  /** The second error: a decimal whose amount does not fit. */
  lemma RangeError(text: string)
    ensures FromYuan(text) == Err(Range)
            <==> exists d: Decimal, cents: int :: d.Valid() && d.Text() == text && d.Denotes(cents) && !InI64(cents)
  {
    hide FromYuan, Parse, Cents;
    FromYuanOf(text);
    OneReading(text);
    var d := Parse(text);
    if d.Valid() {
      forall m ensures d.Denotes(m) <==> m == Cents(d) {
        CentsOf(d, m);
      }
      assert d.Denotes(Cents(d));
    }
  }

  // -------------------------------------------------------------- round trips

  function Printed(m: Money): Decimal {
    Decimal(m < 0, Digits(Abs(m) / 100), TwoDigits(Abs(m) % 100))
  }

  lemma PrintedDenotes(m: Money)
    ensures Printed(m).Valid() && Printed(m).Text() == Yuan(m) && Printed(m).Denotes(m)
  {
    var d := Printed(m);
    ValueOfDigits(Abs(m) / 100);
    ValueOfTwoDigits(Abs(m) % 100);
    CentsOf(d, m);
  }

  lemma ValueOfTwoDigits(n: nat)
    requires n < 100
    ensures |TwoDigits(n)| == 2 && AllDigits(TwoDigits(n)) && Value(TwoDigits(n)) == n
  {
    ValueOfDigits(n);
    if n < 10 {
      assert TwoDigits(n)[..1] == "0" && "0"[..0] == "";
    } else {
      assert |Digits(n / 10)| == 1;
    }
  }

  lemma YuanRoundTrip(m: Money)
    ensures FromYuan(Yuan(m)) == Ok(m)
  {
    PrintedDenotes(m);
    FromYuanIff(Yuan(m), m);
  }

  lemma HundredParts(v: nat, f: nat)
    requires f < 100
    ensures (v * 100 + f) / 100 == v && (v * 100 + f) % 100 == f
  {
  }

  lemma PrintedIff(d: Decimal, m: Money)
    requires d.Valid() && d.Denotes(m)
    ensures Printed(m) == d <==> |d.fraction| == 2 && Minimal(d.whole) && (d.negative ==> m != 0)
  {
    hide Digits, TwoDigits, Value;
    CentsOf(d, m);
    ValueOfTwoDigits(Abs(m) % 100);
    DigitsAreMinimal(Abs(m) / 100);
    if |d.fraction| == 2 && Minimal(d.whole) && (d.negative ==> m != 0) {
      DigitsOfValue(d.whole);
      TwoDigitsOfValue(d.fraction);
      HundredParts(Value(d.whole), Value(d.fraction));
    }
  }

  /** Printing what was read is a normal form: it reads back the same amount, and it is the
      text itself exactly for two digits behind the point, no redundant leading zero and no
      minus before zero. */
  lemma NormalForm(text: string, m: Money)
    requires FromYuan(text) == Ok(m)
    ensures FromYuan(Yuan(m)) == Ok(m)
    ensures Yuan(m) == text <==>
              var d := Parse(text);
              |d.fraction| == 2 && Minimal(d.whole) && (d.negative ==> m != 0)
  {
    hide FromYuan, Yuan, Parse, Printed;
    YuanRoundTrip(m);
    FromYuanIff(text, m);
    var d: Decimal :| d.Valid() && d.Text() == text && d.Denotes(m);
    ParseText(d);
    PrintedDenotes(m);
    ParseText(Printed(m));
    PrintedIff(d, m);
  }

  lemma FractionBelow(s: string)
    requires AllDigits(s) && |s| == 2
    ensures Value(s) < 100
  {
    assert s[..1][..0] == "";
    assert Value(s[..1]) == (s[0] - '0') as nat;
  }

  lemma TwoDigitsOfValue(s: string)
    requires AllDigits(s) && |s| == 2
    ensures Value(s) < 100 && TwoDigits(Value(s)) == s
  {
    FractionBelow(s);
    assert s[..1][..0] == "";
    assert s == [s[0], s[1]];
    if s[0] != '0' {
      DigitsOfValue(s);
    }
  }

  lemma WireRoundTrip(m: Money)
    ensures FromWire(ToWire(m)) == Ok(m)
  {
    ValueOfDigits(Abs(m));
    StripSigned(m < 0, Digits(Abs(m)));
  }

  /** The wire form accepts exactly signed digits in range. */
  lemma FromWireIff(text: string, m: Money)
    ensures FromWire(text) == Ok(m)
            <==> exists negative, digits ::
                   && text == Sign(negative) + digits && digits != "" && AllDigits(digits)
                   && m == Signed(negative, Value(digits))
  {
    var (negative, digits) := StripMinus(text);
    assert text == Sign(negative) + digits;
    forall n, ds: string | text == Sign(n) + ds && ds != "" && AllDigits(ds)
      ensures n == negative && ds == digits
    {
      StripSigned(n, ds);
    }
  }
}
