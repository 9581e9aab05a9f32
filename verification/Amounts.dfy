/** Decimal amounts: QOGEToSatoshis of internal/txbuilder/txbuilder.go, parseQOGEDecimal
    and FormatQOGE of internal/rpcclient/balance.go, on ASCII strings. */
module Amounts {
  import opened Common
  import opened Spaces
  import opened Coins

  const SATS_PER_QOGE: int := 100_000_000
  const MAX_WHOLE: int := 92_233_720_368

  datatype AmountError = Empty | BadWhole | TooLarge | TooPrecise | BadFraction | BadForm

  // ----------------------------------------------------------------- Go's library

  predicate IsDigit(c: char) { '0' <= c <= '9' }

  predicate Digits(s: string) { forall i :: 0 <= i < |s| ==> IsDigit(s[i]) }

  function Value(s: string): nat
    requires Digits(s)
  {
    if s == "" then 0 else 10 * Value(s[..|s| - 1]) + (s[|s| - 1] as int - '0' as int)
  }

  /** strconv.ParseInt in base 10: an optional sign and at least one digit. */
  function ParseInt(s: string): Option<int64> {
    var negative := s != "" && s[0] == '-';
    var body := if s != "" && (s[0] == '-' || s[0] == '+') then s[1..] else s;
    if body == "" || !Digits(body) then None
    else if negative then if Value(body) > TWO_63 then None else Some(-(Value(body) as int))
    else if Value(body) >= TWO_63 then None
    else Some(Value(body))
  }

  /** Where the first '.' is, or the length when there is none. */
  function FirstDot(s: string): (d: nat)
    ensures d <= |s|
    ensures (forall i :: 0 <= i < d ==> s[i] != '.') && (d < |s| ==> s[d] == '.')
  {
    if s == "" || s[0] == '.' then 0 else 1 + FirstDot(s[1..])
  }

  // -------------------------------------------------------------------- the parsers

  function Zeros(n: nat): string { seq(n, i => '0') }

  function Fraction(s: string): Result<int64, AmountError> {
    if |s| > 8 then Err(TooPrecise)
    else
      match ParseInt(s + Zeros(8 - |s|))
      case None => Err(BadFraction)
      case Some(v) => if v < 0 then Err(BadFraction) else Ok(v)
  }

  function Satoshis(input: string): Result<int64, AmountError> { ReadAmount(Trim(input)) }

  function ReadAmount(s: string): Result<int64, AmountError> {
    if s == "" then Err(Empty)
    else
      var dot := FirstDot(s);
      match ParseInt(if dot == 0 then "0" else s[..dot])
      case None => Err(BadWhole)
      case Some(whole) =>
        if whole < 0 then Err(BadWhole)
        else if whole > MAX_WHOLE then Err(TooLarge)
        else if dot == |s| then Ok(whole * SATS_PER_QOGE)
        else
          match Fraction(s[dot + 1..])
          case Err(e) => Err(e)
          case Ok(v) => Ok(Wrap64(whole * SATS_PER_QOGE + v))
  }

  method QOGEToSatoshis(input: string) returns (r: Result<int64, AmountError>)
    ensures r == Satoshis(input)
  {
    hide Trim, FirstDot, ParseInt, Wrap64;
    var s := Trim(input);
    if s == "" {
      return Err(Empty);
    }
    var dot := FirstDot(s);
    var wholePart := s[..dot];
    if wholePart == "" {
      wholePart := "0";
    }
    var whole := ParseInt(wholePart);
    if whole.None? || whole.value < 0 {
      return Err(BadWhole);
    }
    if whole.value > MAX_INT64 / SATS_PER_QOGE {
      return Err(TooLarge);
    }
    var sats: int64 := whole.value * SATS_PER_QOGE;
    if dot < |s| {
      var frac := s[dot + 1..];
      if |frac| > 8 {
        return Err(TooPrecise);
      }
      ghost var given := frac;
      while |frac| < 8
        invariant |given| <= |frac| <= 8 && frac == given + Zeros(|frac| - |given|)
        decreases 8 - |frac|
      {
        frac := frac + "0";
      }
      assert frac == given + Zeros(8 - |given|);
      var fracVal := ParseInt(frac);
      if fracVal.None? || fracVal.value < 0 {
        return Err(BadFraction);
      }
      sats := Wrap64(sats + fracVal.value);
    }
    return Ok(sats);
  }

  function ScanAmount(s: string): Result<int64, AmountError> {
    var dot := FirstDot(s);
    if dot == |s| || |s| - dot - 1 != 8 then Err(BadForm)
    else
      match ParseInt(s[..dot])
      case None => Err(BadWhole)
      case Some(whole) =>
        if whole < 0 then Err(BadWhole)
        else if whole > MAX_WHOLE then Err(TooLarge)
        else
          match ParseInt(s[dot + 1..])
          case None => Err(BadFraction)
          case Some(v) => if v < 0 then Err(BadFraction) else Ok(Wrap64(whole * SATS_PER_QOGE + v))
  }

  // ---------------------------------------------------------------------- formatting

  /** The last `w` decimal digits of `n`. */
  function Fixed(n: nat, w: nat): (s: string)
    ensures |s| == w && Digits(s)
  {
    if w == 0 then "" else Fixed(n / 10, w - 1) + [Digit(n % 10)]
  }

  /** "%08d": the sign counts towards the width. */
  function Padded(v: int): string {
    if 0 <= v < SATS_PER_QOGE then Fixed(v, 8)
    else if v >= 0 then Decimal(v)
    else if -v < 10_000_000 then "-" + Fixed(-v, 7)
    else "-" + Decimal(-v)
  }

  function Plain(v: int): string { if v < 0 then "-" + Decimal(-v) else Decimal(v) }

  /** Go's division and remainder, which truncate toward zero. */
  function Quotient(v: int): int { if v < 0 then -((-v) / SATS_PER_QOGE) else v / SATS_PER_QOGE }
  function Remainder(v: int): int { if v < 0 then -((-v) % SATS_PER_QOGE) else v % SATS_PER_QOGE }

  function FormatQOGE(sats: int64): string { Plain(Quotient(sats)) + "." + Padded(Remainder(sats)) }

  // ------------------------------------------------------------------------ theorems

  lemma {:induction false} DecimalDigits(n: nat)
    ensures Digits(Decimal(n)) && Value(Decimal(n)) == n
  {
    if n >= 10 {
      DecimalDigits(n / 10);
      assert Decimal(n)[..|Decimal(n)| - 1] == Decimal(n / 10);
    } else {
      assert Decimal(n)[..0] == "";
    }
  }

  function Pow10(w: nat): nat { if w == 0 then 1 else 10 * Pow10(w - 1) }

  lemma {:induction false} FixedValue(n: nat, w: nat)
    requires n < Pow10(w)
    ensures Value(Fixed(n, w)) == n
  {
    if w > 0 {
      FixedValue(n / 10, w - 1);
      assert Fixed(n, w)[..w - 1] == Fixed(n / 10, w - 1);
    }
  }

  lemma EightDigits()
    ensures Pow10(8) == SATS_PER_QOGE && Pow10(7) == 10_000_000
  {
    assert Pow10(4) == 10_000;
    assert Pow10(7) == 1000 * Pow10(4);
  }

  lemma {:induction false} DigitsParse(s: string)
    requires s != "" && Digits(s)
    ensures ParseInt(s) == if Value(s) < TWO_63 then Some(Value(s)) else None
    ensures ParseInt("-" + s) == if Value(s) <= TWO_63 then Some(-(Value(s) as int)) else None
    ensures ParseInt("+" + s) == ParseInt(s)
  {
    assert IsDigit(s[0]);
    assert ("-" + s)[1..] == s && ("+" + s)[1..] == s;
  }

  lemma {:induction false} DotAt(a: string, b: string)
    requires forall i :: 0 <= i < |a| ==> a[i] != '.'
    ensures FirstDot(a + "." + b) == |a|
    ensures (a + "." + b)[..|a|] == a && (a + "." + b)[|a| + 1..] == b
  {
    var s := a + "." + b;
    assert s[|a|] == '.';
    assert forall i :: 0 <= i < |a| ==> s[i] == a[i];
  }

  lemma {:induction false} ZerosValue(f: string, n: nat)
    requires Digits(f)
    ensures Digits(f + Zeros(n)) && Value(f + Zeros(n)) == Value(f) * Pow10(n)
  {
    if n == 0 {
      assert f + Zeros(0) == f;
    } else {
      ZerosValue(f, n - 1);
      assert (f + Zeros(n))[..|f| + n - 1] == f + Zeros(n - 1);
      Scale(Value(f), Pow10(n - 1));
    }
  }

  lemma Scale(x: nat, p: nat)
    ensures 10 * (x * p) == x * (10 * p)
  {
  }

  lemma {:induction false} ValueBelow(s: string)
    requires Digits(s)
    ensures Value(s) < Pow10(|s|)
  {
    if s != "" { ValueBelow(s[..|s| - 1]); }
  }

  // ------------------------------------------------------- which texts are amounts

  datatype Sign = NoSign | Plus | Minus

  function Mark(sign: Sign): string { match sign case NoSign => "" case Plus => "+" case Minus => "-" }

  function SignOf(s: string): Sign {
    if s == "" then NoSign else if s[0] == '+' then Plus else if s[0] == '-' then Minus else NoSign
  }

  /** A text split into signs and digits. The parser takes a sign before the whole part
      and another one before the fraction. */
  datatype Amount = Amount(sign: Sign, whole: string, point: bool, mark: Sign, frac: string) {

    predicate Formed() {
      && Digits(whole) && Digits(frac)
      && (whole == "" ==> sign == NoSign && point)
      && (!point ==> mark == NoSign && frac == "")
    }

    function Tail(): string { if point then "." + (Mark(mark) + frac) else "" }

    function Text(): string { Mark(sign) + whole + Tail() }

    /** A minus is tolerated only before zeros, and a sign in the fraction costs one of
        its eight places. */
    predicate Accepted()
      requires Formed()
    {
      && Value(whole) <= MAX_WHOLE && (sign == Minus ==> Value(whole) == 0)
      && |Mark(mark)| + |frac| <= 8 && (mark == Minus ==> Value(frac) == 0)
    }

    /** The fraction in units of 10^-8. */
    function Eighths(): nat
      requires Formed() && |Mark(mark)| + |frac| <= 8
    {
      Value(frac) * Pow10(8 - |Mark(mark)| - |frac|)
    }

    function Exact(): nat
      requires Formed() && |Mark(mark)| + |frac| <= 8
    {
      Value(whole) * SATS_PER_QOGE + Eighths()
    }

    function Meaning(): Result<int64, AmountError>
      requires Formed()
    {
      if Value(whole) >= TWO_63 || (sign == Minus && Value(whole) > 0) then Err(BadWhole)
      else if Value(whole) > MAX_WHOLE then Err(TooLarge)
      else if |Mark(mark)| + |frac| > 8 then Err(TooPrecise)
      else if mark == Minus && Value(frac) > 0 then Err(BadFraction)
      else Ok(Wrap64(Exact()))
    }
  }

  lemma {:induction false} SignedParse(sign: Sign, s: string)
    requires s != "" && Digits(s)
    ensures ParseInt(Mark(sign) + s) ==
            if sign == Minus then if Value(s) <= TWO_63 then Some(-(Value(s) as int)) else None
            else if Value(s) < TWO_63 then Some(Value(s)) else None
  {
    DigitsParse(s);
    assert "" + s == s;
  }

  lemma {:induction false} SignedFraction(mark: Sign, f: string)
    requires Digits(f) && |Mark(mark)| + |f| <= 8
    ensures var v := Value(f) * Pow10(8 - |Mark(mark)| - |f|);
            && v < SATS_PER_QOGE
            && Fraction(Mark(mark) + f) == if mark == Minus && Value(f) > 0 then Err(BadFraction) else Ok(v)
  {
    hide ParseInt, Value, Pow10;
    var n := 8 - |Mark(mark)| - |f|;
    ZerosValue(f, n);
    ValueBelow(f + Zeros(n));
    EightDigits();
    SignedParse(mark, f + Zeros(n));
    assert Mark(mark) + f + Zeros(n) == Mark(mark) + (f + Zeros(n));
    PowerPositive(n);
    ProductSign(Value(f), Pow10(n));
  }

  lemma {:induction false} PowerPositive(n: nat)
    ensures Pow10(n) > 0
  {
    if n > 0 { PowerPositive(n - 1); }
  }

  lemma ProductSign(x: nat, p: nat)
    requires p > 0
    ensures x * p == 0 <==> x == 0
  {
  }

  lemma NoMark()
    ensures Mark(NoSign) == "" && Digits("")
  {
  }

  lemma NoNumber()
    ensures ParseInt("") == None
  {
  }

  predicate Clean(s: string) { forall i :: 0 <= i < |s| ==> s[i] != '.' && !IsSpace(s[i]) }

  lemma {:induction false} SignedClean(sign: Sign, s: string)
    requires Digits(s)
    ensures Clean(Mark(sign) + s)
  {
    var m := Mark(sign);
    forall i | 0 <= i < |m + s| ensures (m + s)[i] != '.' && !IsSpace((m + s)[i]) {
      if i >= |m| {
        assert (m + s)[i] == s[i - |m|] && IsDigit(s[i - |m|]);
      }
    }
  }

  /** What the parser does with the halves of a text. */
  function ReadHalves(w: string, point: bool, rest: string): Result<int64, AmountError> {
    match ParseInt(if w == "" then "0" else w)
    case None => Err(BadWhole)
    case Some(whole) =>
      if whole < 0 then Err(BadWhole)
      else if whole > MAX_WHOLE then Err(TooLarge)
      else if !point then Ok(whole * SATS_PER_QOGE)
      else
        match Fraction(rest)
        case Err(e) => Err(e)
        case Ok(v) => Ok(Wrap64(whole * SATS_PER_QOGE + v))
  }

  lemma {:induction false} PointReads(w: string, rest: string)
    requires Clean(w) && Clean(rest)
    ensures var s := w + "." + rest;
            ReadAmount(s) == ReadHalves(w, true, rest) && !IsSpace(s[0]) && !IsSpace(s[|s| - 1])
  {
    hide ParseInt, FirstDot, Fraction, Wrap64;
    var s := w + "." + rest;
    assert s[0] == if w == "" then '.' else w[0];
    assert s[|s| - 1] == if rest == "" then '.' else rest[|rest| - 1];
    DotAt(w, rest);
  }

  lemma {:induction false} WholeOnly(w: string)
    requires Clean(w) && w != ""
    ensures ReadAmount(w) == ReadHalves(w, false, "") && !IsSpace(w[0]) && !IsSpace(w[|w| - 1])
  {
    hide ParseInt, Fraction, Wrap64;
    assert w[..|w|] == w;
  }

  /** The two halves the parser sees, and ends that no trimming reaches. */
  lemma {:induction false} AmountSplit(a: Amount)
    requires a.Formed()
    ensures var s := a.Text();
            && s != "" && !IsSpace(s[0]) && !IsSpace(s[|s| - 1])
            && ReadAmount(s) == ReadHalves(Mark(a.sign) + a.whole, a.point, Mark(a.mark) + a.frac)
  {
    hide ReadAmount, ReadHalves, IsSpace, Clean, Mark, Digits;
    var w, rest := Mark(a.sign) + a.whole, Mark(a.mark) + a.frac;
    SignedClean(a.sign, a.whole);
    SignedClean(a.mark, a.frac);
    if a.point {
      assert a.Text() == w + "." + rest;
      PointReads(w, rest);
    } else {
      NoMark();
      assert a.Text() == w && rest == "" && w[|Mark(a.sign)|..] == a.whole;
      WholeOnly(w);
    }
  }

  /** What a text of this form is read as: an amount exactly when it is accepted, and the
      amount it denotes, up to the wrap at the very top. */
  lemma {:induction false} AmountReads(a: Amount)
    requires a.Formed()
    ensures ReadAmount(a.Text()) == a.Meaning()
    ensures ReadAmount(a.Text()).Ok? <==> a.Accepted()
    ensures a.Accepted() ==> a.Eighths() < SATS_PER_QOGE
  {
    AmountSplit(a);
    hide ReadAmount, Amount.Text, Wrap64;
    WholeReads(a);
    FractionReads(a);
    MeaningIs(a);
  }

  lemma {:induction false} MeaningIs(a: Amount)
    requires a.Formed() && (!a.point ==> a.mark == NoSign && a.frac == "" && a.Eighths() == 0)
    requires var w := Mark(a.sign) + a.whole;
            ParseInt(if w == "" then "0" else w) ==
            if a.sign == Minus then if Value(a.whole) <= TWO_63 then Some(-(Value(a.whole) as int)) else None
            else if Value(a.whole) < TWO_63 then Some(Value(a.whole)) else None
    requires Fraction(Mark(a.mark) + a.frac) ==
            if |Mark(a.mark)| + |a.frac| > 8 then Err(TooPrecise)
            else if a.mark == Minus && Value(a.frac) > 0 then Err(BadFraction)
            else Ok(a.Eighths())
    ensures ReadHalves(Mark(a.sign) + a.whole, a.point, Mark(a.mark) + a.frac) == a.Meaning()
  {
    hide ParseInt, Value, Digits, Wrap64, Fraction, Amount.Eighths;
    if Value(a.whole) <= MAX_WHOLE { WrapExact(Value(a.whole) * SATS_PER_QOGE); }
  }

  lemma {:induction false} FractionReads(a: Amount)
    requires a.Formed()
    ensures !a.point ==> a.mark == NoSign && a.frac == "" && a.Eighths() == 0
    ensures Fraction(Mark(a.mark) + a.frac) ==
            if |Mark(a.mark)| + |a.frac| > 8 then Err(TooPrecise)
            else if a.mark == Minus && Value(a.frac) > 0 then Err(BadFraction)
            else Ok(a.Eighths())
    ensures |Mark(a.mark)| + |a.frac| <= 8 ==> a.Eighths() < SATS_PER_QOGE
  {
    hide ParseInt, Pow10;
    if |Mark(a.mark)| + |a.frac| <= 8 {
      SignedFraction(a.mark, a.frac);
      hide Fraction;
      PowerPositive(8);
      ProductSign(Value(""), Pow10(8));
    }
  }

  lemma {:induction false} WholeReads(a: Amount)
    requires a.Formed()
    ensures var w := Mark(a.sign) + a.whole;
            ParseInt(if w == "" then "0" else w) ==
            if a.sign == Minus then if Value(a.whole) <= TWO_63 then Some(-(Value(a.whole) as int)) else None
            else if Value(a.whole) < TWO_63 then Some(Value(a.whole)) else None
  {
    if a.whole == "" {
      assert "0"[..0] == "";
      DigitsParse("0");
    } else {
      SignedParse(a.sign, a.whole);
    }
  }

  lemma {:induction false} TrimEnds(left: string, s: string, right: string)
    requires forall i :: 0 <= i < |left| ==> IsSpace(left[i])
    requires forall i :: 0 <= i < |right| ==> IsSpace(right[i])
    requires s != "" && !IsSpace(s[0]) && !IsSpace(s[|s| - 1])
    ensures Satoshis(left + s + right) == ReadAmount(s)
  {
    hide ReadAmount, Trim;
    TrimOf(left, s, right);
  }

  /** The parts of a text the parser accepts. */
  function Parts(s: string): Amount {
    var dot := FirstDot(s);
    var w, rest := s[..dot], if dot == |s| then "" else s[dot + 1..];
    Amount(SignOf(w), w[|Mark(SignOf(w))|..], dot < |s|, SignOf(rest), rest[|Mark(SignOf(rest))|..])
  }

  lemma {:induction false} MarkBack(s: string)
    ensures |Mark(SignOf(s))| <= |s| && Mark(SignOf(s)) + s[|Mark(SignOf(s))|..] == s
  {
  }

  lemma {:induction false} ParsedDigits(s: string, n: nat)
    requires ParseInt(s + Zeros(n)).Some?
    ensures Digits(s[|Mark(SignOf(s))|..]) && (n == 0 ==> s[|Mark(SignOf(s))|..] != "")
  {
    var z := s + Zeros(n);
    var body := s[|Mark(SignOf(s))|..];
    if s != "" {
      assert z[0] == s[0];
      assert z[|Mark(SignOf(s))|..] == body + Zeros(n);
      forall i | 0 <= i < |body| ensures IsDigit(body[i]) {
        assert (body + Zeros(n))[i] == body[i];
      }
    }
  }

  lemma {:induction false} PartsOfAmount(s: string)
    requires ReadAmount(s).Ok?
    ensures Parts(s).Formed() && Parts(s).Text() == s
  {
    hide ParseInt, FirstDot, Mark, Digits, SignOf;
    var dot := FirstDot(s);
    var w, rest := s[..dot], if dot == |s| then "" else s[dot + 1..];
    MarkBack(w);
    MarkBack(rest);
    MarkBack("");
    PartsFormed(s, w, rest);
    hide ReadAmount, Amount.Formed;
    if dot < |s| {
      SplitText(s, dot);
    } else {
      assert w == s;
    }
  }

  lemma {:induction false} HalfParsed(s: string, n: nat)
    requires s == "" || ParseInt(s + Zeros(n)).Some?
    ensures var (m, body) := (Mark(SignOf(s)), s[|Mark(SignOf(s))|..]);
            Digits(body) && m + body == s && (s == "" ==> SignOf(s) == NoSign) && (s == "" ==> body == "") && (n == 0 && s != "" ==> body != "")
  {
    MarkBack(s);
    if s != "" { ParsedDigits(s, n); }
  }

  lemma {:induction false} HalvesParse(s: string, w: string, rest: string) returns (n: nat)
    requires ReadAmount(s).Ok?
    requires w == s[..FirstDot(s)] && rest == if FirstDot(s) == |s| then "" else s[FirstDot(s) + 1..]
    ensures (w == "" ==> FirstDot(s) < |s|) && (w == "" || ParseInt(w + Zeros(0)).Some?)
    ensures rest == "" || ParseInt(rest + Zeros(n)).Some?
  {
    hide ParseInt, FirstDot, Wrap64;
    n := if FirstDot(s) < |s| then 8 - |rest| else 0;
    assert w + Zeros(0) == w;
  }

  lemma {:induction false} PartsFormed(s: string, w: string, rest: string)
    requires ReadAmount(s).Ok?
    requires w == s[..FirstDot(s)] && rest == if FirstDot(s) == |s| then "" else s[FirstDot(s) + 1..]
    ensures Parts(s).Formed() && Parts(s).point == (FirstDot(s) < |s|)
    ensures Mark(Parts(s).sign) + Parts(s).whole == w && Mark(Parts(s).mark) + Parts(s).frac == rest
  {
    hide ParseInt, FirstDot, Mark, Digits, SignOf, ReadAmount;
    var n := HalvesParse(s, w, rest);
    HalfParsed(w, 0);
    HalfParsed(rest, n);
  }

  lemma SplitText(s: string, dot: nat)
    requires dot < |s| && s[dot] == '.'
    ensures s == s[..dot] + ("." + s[dot + 1..])
  {
  }

  /** Exactly which inputs are amounts. */
  lemma {:induction false} AmountIff(input: string)
    ensures Satoshis(input).Ok? <==> exists a: Amount :: a.Formed() && a.Accepted() && Trim(input) == a.Text()
  {
    hide ReadAmount, Trim, Parts;
    if Satoshis(input).Ok? {
      PartsOfAmount(Trim(input));
      AmountReads(Parts(Trim(input)));
    }
    forall a: Amount | a.Formed() && a.Accepted() && Trim(input) == a.Text()
      ensures Satoshis(input).Ok?
    {
      AmountReads(a);
    }
  }

  lemma WrapAbove(x: nat)
    requires MAX_INT64 < x < MAX_INT64 + TWO_63
    ensures Wrap64(x) < 0
  {
  }

  lemma {:induction false} PlainReads(a: Amount)
    requires a.Formed() && a.sign == NoSign == a.mark && |a.frac| <= 8
    ensures var r := ReadAmount(a.Text());
            && (r.Ok? <==> Value(a.whole) <= MAX_WHOLE)
            && (r.Ok? ==> r.value == Wrap64(a.Exact()))
            && (r == Ok(a.Exact()) <==> a.Exact() <= MAX_INT64)
            && (r.Ok? && a.Exact() > MAX_INT64 ==> r.value < 0 && Value(a.whole) == MAX_WHOLE && a.Eighths() > 54_775_807)
  {
    AmountReads(a);
    hide ReadAmount, Value, Amount.Text, Wrap64, Amount.Eighths, Amount.Formed;
    WrapExact(a.Exact());
    if Value(a.whole) <= MAX_WHOLE && a.Exact() > MAX_INT64 { WrapAbove(a.Exact()); }
  }

  /** Plain decimals, with spaces around them or not: digits, a point, and up to eight
      digits mean what they say, up to the wrap at the very top. Either side of the
      point may be empty, and the point may be missing. */
  lemma {:induction false} PlainAmount(w: string, point: bool, f: string, left: string, right: string)
    requires Amount(NoSign, w, point, NoSign, f).Formed() && |f| <= 8
    requires forall i :: 0 <= i < |left| ==> IsSpace(left[i])
    requires forall i :: 0 <= i < |right| ==> IsSpace(right[i])
    ensures var a := Amount(NoSign, w, point, NoSign, f);
            var r := Satoshis(left + a.Text() + right);
            && (r.Ok? <==> Value(w) <= MAX_WHOLE)
            && (r.Ok? ==> r.value == Wrap64(a.Exact()))
            && (r == Ok(a.Exact()) <==> a.Exact() <= MAX_INT64)
            && (r.Ok? && a.Exact() > MAX_INT64 ==> r.value < 0 && Value(w) == MAX_WHOLE && a.Eighths() > 54_775_807)
  {
    hide Value, Satoshis, ReadAmount, Amount.Text, Digits, Wrap64, Amount.Eighths, Amount.Formed;
    var a := Amount(NoSign, w, point, NoSign, f);
    AmountSplit(a);
    TrimEnds(left, a.Text(), right);
    PlainReads(a);
  }

  lemma {:induction false} Untrimmed(a: Amount)
    requires a.Formed()
    ensures Satoshis(a.Text()) == ReadAmount(a.Text())
  {
    AmountSplit(a);
    hide Satoshis, ReadAmount, Amount.Text, IsSpace;
    TrimEnds("", a.Text(), "");
    assert "" + a.Text() + "" == a.Text();
  }

  /** A scan's amounts are the texts with eight characters after the point that the
      wallet's own parser reads, untrimmed, and mean the same. */
  lemma {:induction false} ScanAgrees(s: string)
    ensures ScanAmount(s).Ok? <==> ReadAmount(s).Ok? && 0 < FirstDot(s) == |s| - 9
    ensures ScanAmount(s).Ok? ==> ScanAmount(s) == ReadAmount(s)
  {
    hide ParseInt, FirstDot, Wrap64;
    var dot := FirstDot(s);
    if dot < |s| {
      assert s[dot + 1..] + Zeros(0) == s[dot + 1..];
    }
    NoNumber();
  }

  /** The wrap happens: one satoshi above the largest amount is read as the least, typed
      in or scanned. */
  lemma TopWraps()
    ensures var top := Decimal(MAX_WHOLE) + "." + Fixed(54_775_807, 8);
            Satoshis(top) == Ok(MAX_INT64) && ScanAmount(top) == Ok(MAX_INT64)
    ensures var above := Decimal(MAX_WHOLE) + "." + Fixed(54_775_808, 8);
            Satoshis(above) == Ok(-TWO_63) && ScanAmount(above) == Ok(-TWO_63)
  {
    hide Satoshis, ScanAmount, Decimal, Fixed;
    AtTheTop(54_775_807);
    AtTheTop(54_775_808);
  }

  lemma {:induction false} AtTheTop(v: nat)
    requires v < SATS_PER_QOGE
    ensures var s := Decimal(MAX_WHOLE) + "." + Fixed(v, 8);
            Satoshis(s) == Ok(Wrap64(MAX_WHOLE * SATS_PER_QOGE + v)) == ScanAmount(s)
  {
    hide Satoshis, ScanAmount, Wrap64, Value, Fixed, Decimal, Digits;
    DecimalDigits(MAX_WHOLE);
    EightDigits();
    FixedValue(v, 8);
    EightPlaces(Decimal(MAX_WHOLE), Fixed(v, 8));
  }

  /** Digits, a point and eight digits, the form every amount is shown in: both parsers
      read the same amount, or refuse a whole part that is too large. */
  lemma {:induction false} EightPlaces(w: string, f: string)
    requires Digits(w) && w != "" && Digits(f) && |f| == 8
    ensures var exact := Value(w) * SATS_PER_QOGE + Value(f);
            var r := Satoshis(w + "." + f);
            && (r.Ok? <==> Value(w) <= MAX_WHOLE) && (ScanAmount(w + "." + f).Ok? <==> r.Ok?)
            && (r.Ok? ==> r.value == Wrap64(exact) && ScanAmount(w + "." + f) == r)
            && (r == Ok(exact) <==> exact <= MAX_INT64)
            && (r.Ok? && exact > MAX_INT64 ==> r.value < 0 && Value(w) == MAX_WHOLE && Value(f) > 54_775_807)
  {
    var a := Amount(NoSign, w, true, NoSign, f);
    hide *;
    EightFormed(a);
    AllPlaces(a);
    EightDot(w, f);
    ScanAgrees(a.Text());
    Untrimmed(a);
    PlainReads(a);
  }

  lemma {:induction false} EightDot(w: string, f: string)
    requires Digits(w) && w != "" && |f| == 8
    ensures FirstDot(w + "." + f) == |w| == |w + "." + f| - 9
  {
    hide FirstDot;
    NoDots(w);
    DotAt(w, f);
  }

  lemma EightFormed(a: Amount)
    requires Digits(a.whole) && a.whole != "" && Digits(a.frac) && a.point
    ensures a.Formed()
  {
    hide Digits;
  }

  lemma AllPlaces(a: Amount)
    requires a.Formed() && a.point && a.sign == NoSign == a.mark && |a.frac| == 8
    ensures a.Text() == a.whole + "." + a.frac && a.Eighths() == Value(a.frac)
    ensures a.Exact() == Value(a.whole) * SATS_PER_QOGE + Value(a.frac)
  {
    hide Value, Digits;
    assert Pow10(0) == 1;
  }

  /** A minus sign is an error unless the whole part is zero, and then it is lost. */
  lemma {:induction false} MinusLost(w: string, f: string)
    requires Digits(w) && w != "" && Digits(f) && |f| <= 8
    ensures Satoshis("-" + w + "." + f) ==
            if Value(w) == 0 then Ok(Amount(Minus, w, true, NoSign, f).Eighths()) else Err(BadWhole)
  {
    var a := Amount(Minus, w, true, NoSign, f);
    MinusText(a);
    MinusMeaning(a);
    hide *;
    Untrimmed(a);
    AmountReads(a);
  }

  lemma {:induction false} MinusMeaning(a: Amount)
    requires a.Formed() && a.sign == Minus && a.mark == NoSign && |a.frac| <= 8
    ensures a.Meaning() == if Value(a.whole) == 0 then Ok(a.Eighths()) else Err(BadWhole)
  {
    FractionReads(a);
    hide Value, Digits, Wrap64, Amount.Eighths, Fraction;
    if Value(a.whole) == 0 { WrapExact(a.Exact()); }
  }

  lemma MinusText(a: Amount)
    requires a.point && a.sign == Minus && a.mark == NoSign
    ensures a.Text() == "-" + a.whole + "." + a.frac
  {
  }

  /** A plus and a bare point are taken. */
  lemma LooseForms()
    ensures Satoshis("1") == Ok(100_000_000) && Satoshis("+1.") == Ok(100_000_000)
    ensures Satoshis(".5") == Ok(50_000_000) && Satoshis(".") == Ok(0)
  {
    hide Satoshis, Value, Pow10;
    ShortForm(Amount(NoSign, "1", false, NoSign, ""), "1");
    ShortForm(Amount(Plus, "1", true, NoSign, ""), "+1.");
    ShortForm(Amount(NoSign, "", true, NoSign, "5"), ".5");
    ShortForm(Amount(NoSign, "", true, NoSign, ""), ".");
  }

  /** So is a sign inside the fraction, while a minus before a zero is lost. */
  lemma SignedForms()
    ensures Satoshis("1.+5") == Ok(105_000_000) && Satoshis("1.-5") == Err(BadFraction)
    ensures Satoshis("-0.5") == Ok(50_000_000)
  {
    hide Satoshis, Value, Pow10;
    ShortForm(Amount(NoSign, "1", true, Plus, "5"), "1.+5");
    ShortForm(Amount(NoSign, "1", true, Minus, "5"), "1.-5");
    ShortForm(Amount(Minus, "0", true, NoSign, "5"), "-0.5");
  }

  /** Texts with at most one digit on either side of the point. */
  lemma {:induction false} ShortForm(a: Amount, s: string)
    requires a.Formed() && a.Text() == s && |a.whole| <= 1 && |a.frac| <= 1
    ensures var w, f := OneDigit(a.whole), OneDigit(a.frac);
            Satoshis(s) == if a.sign == Minus && w > 0 then Err(BadWhole)
                           else if a.mark == Minus && f > 0 then Err(BadFraction)
                           else Ok(w * SATS_PER_QOGE + f * if a.mark == NoSign then 10_000_000 else 1_000_000)
  {
    hide Satoshis, ReadAmount, Amount.Text, Wrap64;
    Untrimmed(a);
    AmountReads(a);
    EightDigits();
    OneValue(a.whole);
    OneValue(a.frac);
    hide Value, Pow10;
    WrapExact(a.Exact());
  }

  function OneDigit(s: string): nat
    requires Digits(s)
  {
    if s == "" then 0 else s[0] as int - '0' as int
  }

  lemma OneValue(s: string)
    requires Digits(s) && |s| <= 1
    ensures Value(s) == OneDigit(s) <= 9
  {
  }

  lemma {:induction false} FormatParts(sats: int64)
    requires sats >= 0
    ensures var whole, frac := sats / SATS_PER_QOGE, sats % SATS_PER_QOGE;
            && FormatQOGE(sats) == Decimal(whole) + "." + Fixed(frac, 8)
            && Digits(Decimal(whole)) && Value(Decimal(whole)) == whole <= MAX_WHOLE
            && Value(Fixed(frac, 8)) == frac
            && sats == whole * SATS_PER_QOGE + frac
  {
    DecimalDigits(sats / SATS_PER_QOGE);
    EightDigits();
    FixedValue(sats % SATS_PER_QOGE, 8);
  }

  lemma {:induction false} DecimalLeads(n: nat)
    ensures Decimal(n)[0] == '0' <==> n == 0
    ensures n == 0 ==> Decimal(n) == "0"
  {
    if n >= 10 {
      DecimalLeads(n / 10);
      assert Decimal(n)[0] == Decimal(n / 10)[0];
    }
  }

  /** How a non-negative amount is shown: its whole part without needless zeros, a point,
      and eight digits. */
  lemma {:induction false} ShownForm(sats: int64)
    requires sats >= 0
    ensures var s := FormatQOGE(sats);
            && |s| >= 10 && s[|s| - 9] == '.' && Digits(s[..|s| - 9]) && Digits(s[|s| - 8..])
            && (s[0] == '0' ==> |s| == 10)
            && sats == Value(s[..|s| - 9]) * 100_000_000 + Value(s[|s| - 8..])
  {
    hide FormatQOGE, Decimal, Fixed, Value, Digits;
    var whole, frac := sats / SATS_PER_QOGE, sats % SATS_PER_QOGE;
    FormatParts(sats);
    DecimalLeads(whole);
    var s := FormatQOGE(sats);
    assert s[..|s| - 9] == Decimal(whole) && s[|s| - 8..] == Fixed(frac, 8) && s[0] == Decimal(whole)[0];
  }

  lemma EightShown()
    ensures Fixed(1, 7) == "0000001" && Decimal(1) == "1"
  {
    assert Fixed(0, 3) == "000" && Fixed(0, 6) == "000000";
  }

  /** Below zero the sign may come after the point. */
  lemma NegativeShown()
    ensures FormatQOGE(-1) == "0.-0000001"
  {
    ZeroShown();
    EightShown();
    hide Decimal, Fixed;
  }

  /** Every non-negative amount survives being shown and typed in again, or read from a
      scan, and no negative one does. */
  lemma {:induction false} FormatRoundTrip(sats: int64)
    ensures Satoshis(FormatQOGE(sats)) == Ok(sats) <==> sats >= 0
    ensures ScanAmount(FormatQOGE(sats)) == Ok(sats) <==> sats >= 0
  {
    if sats >= 0 {
      ShownAgain(sats);
    } else {
      NegativeLost(sats);
    }
  }

  lemma {:induction false} ShownAgain(sats: int64)
    requires sats >= 0
    ensures Satoshis(FormatQOGE(sats)) == Ok(sats) && ScanAmount(FormatQOGE(sats)) == Ok(sats)
  {
    hide Satoshis, ScanAmount, FormatQOGE, Decimal, Fixed, Value, Digits;
    FormatParts(sats);
    EightPlaces(Decimal(sats / SATS_PER_QOGE), Fixed(sats % SATS_PER_QOGE, 8));
  }

  lemma {:induction false} NoDots(s: string)
    requires Digits(s)
    ensures forall i :: 0 <= i < |s| ==> s[i] != '.'
  {
    assert forall i :: 0 <= i < |s| ==> IsDigit(s[i]);
  }

  /** A fraction that ends visibly. */
  predicate Visible(f: string) { f != "" && !IsSpace(f[|f| - 1]) }

  lemma {:induction false} SplitRead(w: string, f: string)
    requires w != "" && !IsSpace(w[0]) && Visible(f) && forall i :: 0 <= i < |w| ==> w[i] != '.'
    ensures var s := w + "." + f;
            Trim(s) == s && s != "" && FirstDot(s) == |w| && s[..|w|] == w && s[|w| + 1..] == f && |s| - |w| - 1 == |f|
  {
    hide Trim, FirstDot;
    var s := w + "." + f;
    assert s[0] == w[0] && s[|s| - 1] == f[|f| - 1];
    TrimOf("", s, "");
    assert "" + s + "" == s;
    DotAt(w, f);
  }

  lemma {:induction false} NegativeWhole(w: string, f: string)
    requires w != "" && Digits(w) && Value(w) > 0 && Visible(f)
    ensures Satoshis("-" + w + "." + f).Err? && ScanAmount("-" + w + "." + f).Err?
  {
    hide ParseInt, Value, Trim, FirstDot, Fraction;
    assert forall i :: 0 <= i < |"-" + w| ==> ("-" + w)[i] == '-' || IsDigit(("-" + w)[i]);
    SplitRead("-" + w, f);
    DigitsParse(w);
  }

  lemma {:induction false} NegativeFraction(n: nat)
    requires 0 < n < SATS_PER_QOGE
    ensures Satoshis("0" + "." + Padded(-(n as int))).Err? && ScanAmount("0" + "." + Padded(-(n as int))).Err?
  {
    hide ParseInt, Value, Trim, FirstDot, Decimal, Fixed, Digits, Pow10;
    EightDigits();
    var f := Padded(-(n as int));
    if n < 10_000_000 {
      assert f == "-" + Fixed(n, 7) && IsDigit(f[7]) by { hide *; FixedShown(n); }
      SplitRead("0", f);
      FixedValue(n, 7);
      DigitsParse(Fixed(n, 7));
      assert f + Zeros(0) == f;
    } else {
      DecimalDigits(n);
      DecimalLength(n);
      DigitsEnd(Decimal(n));
      assert f == "-" + Decimal(n) && f[|f| - 1] == Decimal(n)[|Decimal(n)| - 1];
      SplitRead("0", f);
    }
  }

  lemma {:induction false} FixedShown(n: nat)
    requires 0 < n < 10_000_000
    ensures Padded(-(n as int)) == "-" + Fixed(n, 7) && IsDigit(Padded(-(n as int))[7])
  {
    hide Fixed;
    assert Digits(Fixed(n, 7)) && IsDigit(Fixed(n, 7)[6]);
  }

  lemma {:induction false} DigitsEnd(s: string)
    requires s != "" && Digits(s)
    ensures IsDigit(s[0]) && IsDigit(s[|s| - 1])
  {
  }

  lemma {:induction false} DecimalLength(n: nat)
    requires n >= 10_000_000
    ensures |Decimal(n)| >= 8
  {
    LengthOf(n, 7);
    EightDigits();
  }

  lemma {:induction false} LengthOf(n: nat, w: nat)
    requires n >= Pow10(w)
    ensures |Decimal(n)| > w
  {
    if w > 0 {
      LengthOf(n / 10, w - 1);
    }
  }

  lemma {:induction false} NegativeLost(sats: int64)
    requires sats < 0
    ensures Satoshis(FormatQOGE(sats)).Err? && ScanAmount(FormatQOGE(sats)).Err?
  {
    hide Satoshis, ScanAmount, Decimal, Fixed, Digits, Value, Padded;
    var whole, frac := -(sats as int) / SATS_PER_QOGE, -(sats as int) % SATS_PER_QOGE;
    if whole > 0 {
      DecimalDigits(whole);
      PaddedVisible(-frac);
      NegativeWhole(Decimal(whole), Padded(-frac));
    } else {
      ZeroShown();
      NegativeFraction(frac);
    }
  }

  lemma ZeroShown()
    ensures Decimal(0) == "0"
  {
  }

  lemma {:induction false} PaddedVisible(v: int)
    requires -SATS_PER_QOGE < v <= 0
    ensures Visible(Padded(v))
  {
    hide Fixed, Decimal, Value;
    DigitsEnd(Fixed(0, 8));
    DecimalDigits(-v);
    DigitsEnd(Decimal(-v));
    DigitsEnd(Fixed(-v, 7));
  }
}
