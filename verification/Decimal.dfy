/** Exact decimal text: how an invoice's amount is written (viewer/billing.go), how a transfer's
    raw token units are written (viewer/chain_evm.go), and how the database reads both. */
module Decimal {
  import opened Seqs

  datatype Option<T> = None | Some(value: T) {
    function GetOr(default: T): T {
      if Some? then value else default
    }
  }

  // ---------------------------------------------------------------- digits

  predicate IsDigit(c: char) {
    '0' <= c <= '9'
  }

  predicate IsDigits(s: string) {
    forall i :: 0 <= i < |s| ==> IsDigit(s[i])
  }

  function DigitChar(d: nat): (c: char)
    requires d < 10
    ensures IsDigit(c) && DigitValue(c) == d
  {
    ('0' as int + d) as char
  }

  function DigitValue(c: char): nat
    requires IsDigit(c)
  {
    c as int - '0' as int
  }

  function Digits(n: nat): string {
    if n < 10 then [DigitChar(n)] else Digits(n / 10) + [DigitChar(n % 10)]
  }

  function Value(s: string): nat
    requires IsDigits(s)
  {
    if s == "" then 0 else Value(s[..|s| - 1]) * 10 + DigitValue(s[|s| - 1])
  }

  /** `n * 10^k`. */
  function Shift(n: int, k: nat): int {
    if k == 0 then n else 10 * Shift(n, k - 1)
  }

  function Zeros(k: nat): (s: string)
    ensures |s| == k && IsDigits(s)
  {
    if k == 0 then "" else Zeros(k - 1) + "0"
  }

  /** The text of a number is digits, denotes it, and has no superfluous leading zero. */
  lemma {:induction false} DigitsDenote(n: nat)
    ensures IsDigits(Digits(n)) && Value(Digits(n)) == n && |Digits(n)| >= 1
    ensures |Digits(n)| > 1 ==> Digits(n)[0] != '0'
    ensures n > 0 ==> Digits(n)[0] != '0'
  {
    if n >= 10 {
      DigitsDenote(n / 10);
      assert Digits(n)[..|Digits(n)| - 1] == Digits(n / 10);
    } else {
      assert [DigitChar(n)][..0] == "";
    }
  }

  lemma {:induction false} ValueAppend(a: string, b: string)
    requires IsDigits(a) && IsDigits(b)
    ensures IsDigits(a + b) && Value(a + b) == Shift(Value(a), |b|) + Value(b)
  {
    if b == "" {
      assert a + b == a;
    } else {
      var n := |b| - 1;
      ValueAppend(a, b[..n]);
      assert (a + b)[..|a + b| - 1] == a + b[..n];
    }
  }

  lemma {:induction false} ValueZeros(k: nat)
    ensures Value(Zeros(k)) == 0
  {
    if k > 0 {
      ValueZeros(k - 1);
      assert Zeros(k)[..k - 1] == Zeros(k - 1);
    }
  }

  lemma {:induction false} ShiftTwice(n: int, a: nat, b: nat)
    ensures Shift(Shift(n, a), b) == Shift(n, a + b)
  {
    if b > 0 { ShiftTwice(n, a, b - 1); }
  }

  lemma {:induction false} ShiftIsLinear(m: int, n: int, k: nat)
    ensures Shift(m, k) == Shift(n, k) <==> m == n
    ensures Shift(-n, k) == -Shift(n, k) && Shift(m + n, k) == Shift(m, k) + Shift(n, k) && Shift(0, k) == 0
  {
    if k > 0 { ShiftIsLinear(m, n, k - 1); }
  }

  lemma {:induction false} DigitsBound(n: nat, k: nat)
    requires n < Shift(1, k) && k > 0
    ensures |Digits(n)| <= k
  {
    if n >= 10 { DigitsBound(n / 10, k - 1); }
  }

  // ---------------------------------------------------------------- reading a decimal

  /** The number `mantissa / 10^scale`. */
  datatype Number = Number(mantissa: int, scale: nat)

  ghost predicate SameNumber(a: Number, b: Number) {
    Shift(a.mantissa, b.scale) == Shift(b.mantissa, a.scale)
  }

  /** Two texts denote the same decimal. */
  ghost predicate Same(s: string, t: string) {
    Read(s).Some? && Read(t).Some? && SameNumber(Read(s).value, Read(t).value)
  }

  /** What an optionally signed decimal text denotes: digits, and then perhaps a point and
      more digits. */
  function Read(s: string): Option<Number> {
    if s != "" && s[0] == '-' then Negate(ReadWhole(s[1..], 0, 0)) else ReadWhole(s, 0, 0)
  }

  function Negate(n: Option<Number>): Option<Number> {
    if n.Some? then Some(Number(-n.value.mantissa, n.value.scale)) else None
  }

  /** Reads on after `n` digits with value `m`. */
  function ReadWhole(s: string, m: int, n: nat): Option<Number> {
    if s == "" then (if n > 0 then Some(Number(m, 0)) else None)
    else if IsDigit(s[0]) then ReadWhole(s[1..], 10 * m + DigitValue(s[0]), n + 1)
    else if s[0] == '.' && n > 0 then ReadFraction(s[1..], m, 0)
    else None
  }

  /** Reads on after the point and `k` digits. */
  function ReadFraction(s: string, m: int, k: nat): Option<Number> {
    if s == "" then (if k > 0 then Some(Number(m, k)) else None)
    else if IsDigit(s[0]) then ReadFraction(s[1..], 10 * m + DigitValue(s[0]), k + 1)
    else None
  }

  lemma ShiftIn(m: int, c: char, s: string)
    requires IsDigit(c) && IsDigits(s)
    ensures IsDigits([c] + s) && Shift(m, |s| + 1) + Value([c] + s) == Shift(10 * m + DigitValue(c), |s|) + Value(s)
  {
    ValueAppend([c], s);
    assert [c][..0] == "";
    ShiftTwice(m, 1, |s|);
    ShiftIsLinear(10 * m, DigitValue(c), |s|);
    assert Shift(m, 1) == 10 * m;
  }

  lemma {:induction false} ReadFractionOf(s: string, m: int, k: nat)
    requires IsDigits(s) && |s| + k > 0
    ensures ReadFraction(s, m, k) == Some(Number(Shift(m, |s|) + Value(s), k + |s|))
  {
    if s != "" {
      ReadFractionOf(s[1..], 10 * m + DigitValue(s[0]), k + 1);
      ShiftIn(m, s[0], s[1..]);
      assert [s[0]] + s[1..] == s;
    }
  }

  lemma {:induction false} ReadWholeOf(whole: string, rest: string, m: int, n: nat)
    requires IsDigits(whole)
    ensures ReadWhole(whole + rest, m, n) == ReadWhole(rest, Shift(m, |whole|) + Value(whole), n + |whole|)
  {
    if whole == "" {
      assert whole + rest == rest;
    } else {
      assert (whole + rest)[1..] == whole[1..] + rest;
      ReadWholeOf(whole[1..], rest, 10 * m + DigitValue(whole[0]), n + 1);
      ShiftIn(m, whole[0], whole[1..]);
      assert [whole[0]] + whole[1..] == whole;
    }
  }

  function AllDigits(whole: string, frac: string): nat
    requires IsDigits(whole) && IsDigits(frac)
  {
    assert IsDigits(whole + frac);
    Value(whole + frac)
  }

  function Text(neg: bool, whole: string, frac: string): string {
    (if neg then "-" else "") + (if frac == "" then whole else whole + "." + frac)
  }

  lemma ReadUnsigned(whole: string, frac: string)
    requires whole != "" && IsDigits(whole) && IsDigits(frac)
    ensures ReadWhole(Text(false, whole, frac), 0, 0) == Some(Number(AllDigits(whole, frac), |frac|))
  {
    var rest := if frac == "" then "" else "." + frac;
    ReadWholeOf(whole, rest, 0, 0);
    ShiftIsLinear(0, 0, |whole|);
    ValueAppend(whole, frac);
    if frac == "" {
      assert whole + rest == whole == whole + frac;
    } else {
      assert rest[1..] == frac && whole + rest == whole + "." + frac;
      ReadFractionOf(frac, Value(whole), 0);
    }
    NoneBefore(whole + rest);
  }

  lemma ReadSigned(body: string, n: Option<Number>)
    requires body != "" && IsDigit(body[0]) && ReadWhole(body, 0, 0) == n
    ensures Read(body) == n && Read("-" + body) == Negate(n)
  {
    Halves("-", body);
  }

  lemma ReadOf(neg: bool, whole: string, frac: string)
    requires whole != "" && IsDigits(whole) && IsDigits(frac)
    ensures var m: int := AllDigits(whole, frac);
            Read(Text(neg, whole, frac)) == Some(Number(if neg then -m else m, |frac|))
  {
    ReadUnsigned(whole, frac);
    var body := if frac == "" then whole else whole + "." + frac;
    NoneBefore(body);
    assert body[0] == whole[0];
    ReadSigned(body, Some(Number(AllDigits(whole, frac), |frac|)));
  }

  // ---------------------------------------------------------------- writing an amount

  const AMOUNT_DECIMALS := 6
  const AMOUNT_SCALE := 1_000_000
  const MAX_DUST := 10_000

  /** The amount of an invoice in millionths of a dollar. */
  function Units(cents: nat, dust: nat): nat {
    cents * (AMOUNT_SCALE / 100) + dust
  }

  function PadLeft(s: string, width: nat): string {
    if |s| < width then Zeros(width - |s|) + s else s
  }

  function FormatAmount(cents: nat, dust: nat): string {
    var units := Units(cents, dust);
    Digits(units / AMOUNT_SCALE) + "." + PadLeft(Digits(units % AMOUNT_SCALE), AMOUNT_DECIMALS)
  }

  lemma ShiftBy6(n: int)
    ensures Shift(n, 6) == n * AMOUNT_SCALE
  {
    assert Shift(n, 2) == 10 * Shift(n, 1) == n * 100;
    assert Shift(n, 4) == 10 * Shift(n, 3) == n * 10000;
  }

  lemma PadLeftDenotes(n: nat, width: nat)
    requires n < Shift(1, width) && width > 0
    ensures var t := PadLeft(Digits(n), width); |t| == width && IsDigits(t) && Value(t) == n
  {
    DigitsDenote(n);
    DigitsBound(n, width);
    var s := Digits(n);
    if |s| < width {
      ValueZeros(width - |s|);
      ValueAppend(Zeros(width - |s|), s);
      ShiftIsLinear(0, 0, |s|);
    }
  }

  /** An invoice's text denotes its price and dust, to the millionth. */
  lemma FormatAmountReads(cents: nat, dust: nat)
    ensures Read(FormatAmount(cents, dust)) == Some(Number(Units(cents, dust), AMOUNT_DECIMALS))
    ensures Read(FormatAmount(cents, dust)) == Some(Number(10_000 * cents + dust, 6))
  {
    var units := Units(cents, dust);
    var q, r := units / AMOUNT_SCALE, units % AMOUNT_SCALE;
    WholeAndFraction(q, r, units);
  }

  lemma WholeAndFraction(q: nat, r: nat, units: nat)
    requires units == q * AMOUNT_SCALE + r && r < AMOUNT_SCALE
    ensures Read(Digits(q) + "." + PadLeft(Digits(r), 6)) == Some(Number(units, 6))
  {
    ShiftBy6(1);
    DigitsDenote(q);
    PadLeftDenotes(r, 6);
    ReadParts(Digits(q), PadLeft(Digits(r), 6));
  }

  lemma ReadParts(whole: string, frac: string)
    requires whole != "" && IsDigits(whole) && IsDigits(frac) && |frac| == 6
    ensures Read(whole + "." + frac) == Some(Number(Value(whole) * AMOUNT_SCALE + Value(frac), 6))
  {
    ShiftBy6(Value(whole));
    ValueAppend(whole, frac);
    ReadOf(false, whole, frac);
    NoneBefore(whole + "." + frac);
  }

  /** The sum of two decimals. */
  function Plus(a: Number, b: Number): Number {
    Number(Shift(a.mantissa, b.scale) + Shift(b.mantissa, a.scale), a.scale + b.scale)
  }

  /** It is the price in dollars, with the dust in millionths of a dollar on top. */
  lemma AmountIsPriceAndDust(cents: nat, dust: nat)
    ensures Read(FormatAmount(cents, 0)).Some? && Read(FormatAmount(cents, dust)).Some?
    ensures SameNumber(Read(FormatAmount(cents, 0)).value, Number(cents, 2))
    ensures SameNumber(Read(FormatAmount(cents, dust)).value, Plus(Number(cents, 2), Number(dust, 6)))
  {
    FormatAmountReads(cents, 0);
    FormatAmountReads(cents, dust);
    ShiftBy2(10_000 * cents);
    ShiftBy6(cents);
    ShiftBy2(dust);
    ShiftTwice(10_000 * cents + dust, 6, 2);
    ShiftBy6(10_000 * cents + dust);
    ShiftBy2((10_000 * cents + dust) * AMOUNT_SCALE);
    ShiftBy6(cents * AMOUNT_SCALE + dust * 100);
  }

  lemma ShiftBy2(n: int)
    ensures Shift(n, 2) == 100 * n
  {
    assert Shift(n, 1) == 10 * n;
  }

  /** Amounts whose dust is in range coincide, as decimals, only when price and dust both do,
      and the dust adds less than one cent. */
  lemma AmountsIdentify(cents: nat, dust: nat, cents': nat, dust': nat)
    requires dust < MAX_DUST && dust' < MAX_DUST
    ensures Same(FormatAmount(cents, dust), FormatAmount(cents', dust')) <==> cents == cents' && dust == dust'
    ensures Units(cents, 0) <= Units(cents, dust) < Units(cents + 1, 0)
  {
    FormatAmountReads(cents, dust);
    FormatAmountReads(cents', dust');
    ShiftIsLinear(Units(cents, dust), Units(cents', dust'), 6);
    UnitsIdentify(cents, dust, cents', dust');
  }

  lemma UnitsIdentify(cents: nat, dust: nat, cents': nat, dust': nat)
    requires dust < MAX_DUST && dust' < MAX_DUST
    ensures Units(cents, dust) == Units(cents', dust') <==> cents == cents' && dust == dust'
  {}

  // ---------------------------------------------------------------- scaling token units

  function TrimZeros(s: string): (t: string)
    ensures |t| <= |s| && s == t + Zeros(|s| - |t|) && (t == "" || t[|t| - 1] != '0')
  {
    if s != "" && s[|s| - 1] == '0' then
      var t := TrimZeros(s[..|s| - 1]);
      OneMoreZero(s, t);
      t
    else
      NoneBefore(s);
      s
  }

  lemma OneMoreZero(s: string, t: string)
    requires s != "" && s[|s| - 1] == '0' && |t| < |s| && s[..|s| - 1] == t + Zeros(|s| - 1 - |t|)
    ensures s == t + Zeros(|s| - |t|)
  {
    var zeros := Zeros(|s| - 1 - |t|);
    JoinLast(s);
    Assoc(t, zeros, "0");
  }

  /** The digits before and after the point. */
  function Parts(abs: nat, decimals: int): (string, string) {
    var s := Digits(abs);
    if decimals <= 0 then (s, "")
    else
      Cut(PadTo(s, decimals), decimals)
  }

  function Cut(t: string, decimals: nat): (string, string)
    requires |t| > decimals
  {
    (t[..|t| - decimals], TrimZeros(t[|t| - decimals..]))
  }

  function ScaleDecimal(v: int, decimals: int): string {
    var p := Parts(if v < 0 then -v else v, decimals);
    Text(v < 0, p.0, p.1)
  }

  function PadTo(s: string, decimals: nat): (t: string)
    ensures |t| > decimals
  {
    if |s| <= decimals then Zeros(decimals - |s| + 1) + s else s
  }

  lemma PadToDenotes(n: nat, decimals: nat)
    ensures var t := PadTo(Digits(n), decimals); IsDigits(t) && Value(t) == n && |t| > decimals
  {
    DigitsDenote(n);
    var s := Digits(n);
    if |s| <= decimals {
      ValueZeros(decimals - |s| + 1);
      ValueAppend(Zeros(decimals - |s| + 1), s);
      ShiftIsLinear(0, 0, |s|);
    }
  }

  lemma ValueOfParts(whole: string, frac: string, k: nat)
    requires IsDigits(whole) && IsDigits(frac)
    ensures IsDigits(whole + frac + Zeros(k)) && Value(whole + frac + Zeros(k)) == Shift(AllDigits(whole, frac), k)
    ensures frac != "" && frac[|frac| - 1] != '0' ==> AllDigits(whole, frac) % 10 != 0
  {
    var digits := whole + frac;
    assert IsDigits(digits);
    ValueZeros(k);
    ValueAppend(digits, Zeros(k));
    if frac != "" {
      assert digits[|digits| - 1] == frac[|frac| - 1];
    }
  }

  /** Digits cut before the last `decimals`, with the zeros at the end left off. */
  lemma TrimDenotes(whole: string, tail: string, frac: string)
    requires IsDigits(whole) && IsDigits(tail)
    requires |frac| <= |tail| && tail == frac + Zeros(|tail| - |frac|) && (frac == "" || frac[|frac| - 1] != '0')
    ensures IsDigits(whole + tail) && IsDigits(frac)
    ensures Value(whole + tail) == Shift(AllDigits(whole, frac), |tail| - |frac|)
    ensures frac != "" ==> AllDigits(whole, frac) % 10 != 0
  {
    var z := Zeros(|tail| - |frac|);
    DigitsOfParts(frac, z);
    ValueOfParts(whole, frac, |tail| - |frac|);
    Assoc(whole, frac, z);
  }

  lemma DigitsOfParts(a: string, b: string)
    requires IsDigits(a + b)
    ensures IsDigits(a) && IsDigits(b)
  {
    forall i | 0 <= i < |a| ensures IsDigit(a[i]) { assert a[i] == (a + b)[i]; }
    forall i | 0 <= i < |b| ensures IsDigit(b[i]) { assert b[i] == (a + b)[|a| + i]; }
  }

  /** `p` are the digits of `n / 10^decimals`, before and after the point. */
  ghost predicate Denotes(p: (string, string), n: nat, decimals: nat) {
    && p.0 != "" && IsDigits(p.0) && IsDigits(p.1) && |p.1| <= decimals
    && Shift(AllDigits(p.0, p.1), decimals - |p.1|) == n
    && (p.1 != "" ==> AllDigits(p.0, p.1) % 10 != 0)
  }

  lemma CutDenotes(t: string, decimals: nat)
    requires IsDigits(t) && |t| > decimals
    ensures Denotes(Cut(t, decimals), Value(t), decimals)
  {
    var whole, tail := t[..|t| - decimals], t[|t| - decimals..];
    SplitAt(t, |t| - decimals);
    DigitsOfParts(whole, tail);
    TrimDenotes(whole, tail, TrimZeros(tail));
  }

  lemma PartsDenote(abs: nat, decimals: nat)
    ensures Denotes(Parts(abs, decimals), abs, decimals)
  {
    if decimals == 0 {
      DigitsDenote(abs);
      WholeDenotes(Digits(abs));
    } else {
      PadToDenotes(abs, decimals);
      CutDenotes(PadTo(Digits(abs), decimals), decimals);
    }
  }

  lemma WholeDenotes(s: string)
    requires s != "" && IsDigits(s)
    ensures Denotes((s, ""), Value(s), 0)
  {
    assert s + "" == s;
  }

  lemma TextReads(v: int, p: (string, string), decimals: nat) returns (n: Number)
    requires Denotes(p, if v < 0 then -v else v, decimals)
    ensures Read(Text(v < 0, p.0, p.1)) == Some(n)
    ensures n.scale <= decimals && Shift(n.mantissa, decimals - n.scale) == v
    ensures n.scale > 0 ==> n.mantissa % 10 != 0
  {
    ReadOf(v < 0, p.0, p.1);
    var m: int := AllDigits(p.0, p.1);
    ShiftIsLinear(0, m, decimals - |p.1|);
    n := Number(if v < 0 then -m else m, |p.1|);
  }

  /** A raw amount of a token with D decimals is written as exactly `v / 10^D`, with no
      trailing zero after the point. */
  lemma ScaleDecimalReads(v: int, decimals: nat) returns (n: Number)
    ensures Read(ScaleDecimal(v, decimals)) == Some(n)
    ensures n.scale <= decimals && Shift(n.mantissa, decimals - n.scale) == v
    ensures n.scale > 0 ==> n.mantissa % 10 != 0
  {
    var abs := if v < 0 then -v else v;
    PartsDenote(abs, decimals);
    n := TextReads(v, Parts(abs, decimals), decimals);
  }

  /** A transfer denotes an invoice's amount exactly when its raw value is that amount in the
      token's own units, whatever the token's precision. */
  lemma TransferMatchesInvoice(v: int, decimals: nat, cents: nat, dust: nat)
    requires decimals >= AMOUNT_DECIMALS
    ensures Same(ScaleDecimal(v, decimals), FormatAmount(cents, dust)) <==>
            v == Shift(Units(cents, dust), decimals - AMOUNT_DECIMALS)
  {
    var r := ScaleDecimalReads(v, decimals);
    FormatAmountReads(cents, dust);
    CrossMultiply(v, r.mantissa, r.scale, decimals, Units(cents, dust));
  }

  /** `m / 10^k == u / 10^6`, where `m / 10^k` is `v / 10^d`: compare both sides times 10^d. */
  lemma CrossMultiply(v: int, m: int, k: nat, d: nat, u: int)
    requires k <= d && 6 <= d && Shift(m, d - k) == v
    ensures Shift(m, 6) == Shift(u, k) <==> v == Shift(u, d - 6)
  {
    ShiftIsLinear(Shift(m, 6), Shift(u, k), d - k);
    ShiftTwice(m, 6, d - k);
    ShiftTwice(m, d - k, 6);
    ShiftTwice(u, k, d - k);
    ShiftTwice(u, d - 6, 6);
    ShiftIsLinear(v, Shift(u, d - 6), 6);
  }

  // ---------------------------------------------------------------- the database's column

  /** The greatest number a DECIMAL(36,18) can hold, in units of 10^-18. */
  const CAST_MAX := 999_999_999_999_999_999_999_999_999_999_999_999

  function Clip(v: int): int {
    if v > CAST_MAX then CAST_MAX else if v < -CAST_MAX then -CAST_MAX else v
  }

  /** The number a text denotes as a DECIMAL(36,18), in units of 10^-18.  One that has too many
      whole digits is clipped. */
  function Cast(s: string): Option<int> {
    match Read(s)
    case None => None
    case Some(n) => if n.scale <= 18 then Some(Clip(Shift(n.mantissa, 18 - n.scale))) else None
  }

  /** The greatest price the column amount_usd_cents can hold. */
  const MAX_CENTS := 0x7fff_ffff

  lemma AmountFits(cents: nat, dust: nat)
    requires cents <= MAX_CENTS && dust < MAX_DUST
    ensures 0 <= Shift(Units(cents, dust), 12) < CAST_MAX
  {
    var u := Units(cents, dust);
    ShiftTwice(u, 6, 6);
    ShiftBy6(u);
    ShiftBy6(u * AMOUNT_SCALE);
  }

  /** The column holds an invoice's amount exactly. */
  lemma CastOfAmount(cents: nat, dust: nat)
    requires cents <= MAX_CENTS && dust < MAX_DUST
    ensures Cast(FormatAmount(cents, dust)) == Some(Shift(Units(cents, dust), 12))
    ensures Cast(FormatAmount(cents, dust)) == Some(cents * 10_000_000_000_000_000 + dust * 1_000_000_000_000)
  {
    ShiftTwice(Units(cents, dust), 6, 6);
    ShiftBy6(Units(cents, dust));
    ShiftBy6(Units(cents, dust) * AMOUNT_SCALE);
    AmountFits(cents, dust);
    FormatAmountReads(cents, dust);
  }

  /** And that of a transfer, unless it is clipped. */
  lemma CastOfTransfer(v: int, decimals: nat)
    requires decimals <= 18
    ensures Cast(ScaleDecimal(v, decimals)) == Some(Clip(Shift(v, 18 - decimals)))
  {
    var r := ScaleDecimalReads(v, decimals);
    Widen(v, r.mantissa, decimals - r.scale, 18 - decimals);
    CastOf(ScaleDecimal(v, decimals), r);
  }

  lemma CastOf(s: string, n: Number)
    requires Read(s) == Some(n) && n.scale <= 18
    ensures Cast(s) == Some(Clip(Shift(n.mantissa, 18 - n.scale)))
  {}

  /** A clipped transfer is worth no invoice's amount, so the column compares the two exactly. */
  lemma ColumnComparesExactly(v: int, decimals: nat, cents: nat, dust: nat)
    requires AMOUNT_DECIMALS <= decimals <= 18 && cents <= MAX_CENTS && dust < MAX_DUST
    ensures Cast(ScaleDecimal(v, decimals)) == Cast(FormatAmount(cents, dust)) <==>
            v == Shift(Units(cents, dust), decimals - AMOUNT_DECIMALS)
  {
    CastOfAmount(cents, dust);
    CastOfTransfer(v, decimals);
    AmountFits(cents, dust);
    ShiftTwice(Units(cents, dust), decimals - 6, 18 - decimals);
    ShiftIsLinear(v, Shift(Units(cents, dust), decimals - 6), 18 - decimals);
  }

  lemma Widen(v: int, m: int, a: nat, b: nat)
    requires Shift(m, a) == v
    ensures Shift(m, a + b) == Shift(v, b)
  {
    ShiftTwice(m, a, b);
  }

  // ---------------------------------------------------------------- block cursors

  function FormatInt(n: int): string {
    if n < 0 then "-" + Digits(-n) else Digits(n)
  }

  /** A signed decimal integer, as accepted in base ten. */
  function ParseInt(s: string): Option<int> {
    var body := if s != "" && (s[0] == '-' || s[0] == '+') then s[1..] else s;
    if body == "" || !IsDigits(body) then None
    else
      var n: int := Value(body);
      Some(if s[0] == '-' then -n else n)
  }

  lemma ParseFormatInt(n: int)
    ensures ParseInt(FormatInt(n)) == Some(n) && FormatInt(n) != ""
  {
    DigitsDenote(if n < 0 then -n else n);
    if n < 0 { assert FormatInt(n)[1..] == Digits(-n); } else { assert IsDigit(Digits(n)[0]); }
  }

  /** A number may have a sign, and nothing else but digits. */
  lemma ParseUnsignedIs(s: string)
    requires s != "" && s[0] != '+' && s[0] != '-'
    ensures ParseInt(s) == if IsDigits(s) then Some(Value(s)) else None
  {}

  lemma ParseSignedIs(sign: char, s: string)
    requires sign == '+' || sign == '-'
    ensures s == "" || !IsDigits(s) ==> ParseInt([sign] + s) == None
    ensures s != "" && IsDigits(s) ==>
              ParseInt([sign] + s) == Some(if sign == '-' then -(Value(s) as int) else Value(s))
  {
    Halves([sign], s);
  }

  /** Leading zeros do not matter. */
  lemma LeadingZero(s: string)
    requires IsDigits(s)
    ensures IsDigits("0" + s) && Value("0" + s) == Value(s)
  {
    ValueAppend("0", s);
    ShiftIsLinear(0, 0, |s|);
    assert "0"[..0] == "";
  }
}
