/**
 From a market quote to contract units (src/conversions/quote.service.ts:76-110,
 src/deposits/deposits.service.ts:367-375, src/defindex/asset-amount.ts). Decimals are exact here.
 */
module Amounts {
  import opened Common

  const STELLAR_DECIMALS := 7
  const MAX_SAFE_INTEGER := 0x1F_FFFF_FFFF_FFFF

  function Pow10(d: nat): (p: nat)
    ensures p > 0
  {
    if d == 0 then 1 else 10 * Pow10(d - 1)
  }

  function Scale(d: nat): (s: real)
    ensures s > 0.0
  {
    Pow10(d) as real
  }

  function Times(x: real, s: real): real {
    x * s
  }

  function Over(n: real, s: real): real
    requires s > 0.0
  {
    n / s
  }

  /** An amount in the smallest units of `d` decimal places. */
  function InUnits(x: real, d: nat): real {
    Times(x, Scale(d))
  }

  /** Rounded towards zero to `d` decimal places. */
  function RoundDown(x: real, d: nat): real {
    if x >= 0.0 then Over(InUnits(x, d).Floor as real, Scale(d)) else -Over(InUnits(-x, d).Floor as real, Scale(d))
  }

  // ----- Scaling -----

  lemma TimesOrder(a: real, b: real, s: real)
    requires s > 0.0
    ensures a <= b <==> Times(a, s) <= Times(b, s)
  {
  }

  lemma TimesSum(a: real, b: real, s: real)
    ensures Times(a + b, s) == Times(a, s) + Times(b, s)
    ensures Times(0.0, s) == 0.0
  {
  }

  lemma TimesOver(n: real, s: real)
    requires s > 0.0
    ensures Times(Over(n, s), s) == n
  {
  }

  // ----- The quote -----

  datatype PathRecord = PathRecord(destination: real, hops: seq<string>)
  datatype ConversionQuote = ConversionQuote(best: PathRecord, destAmount: real, destMin: real, slippageBps: nat)
  datatype QuoteError = NoRoute

  /** The price after slippage, before rounding. */
  function Floored(dest: real, bps: nat): real {
    Times(dest, (10_000 - bps) as real / 10_000.0)
  }

  /** The route taken is the first of those that pay most, and the floor is the rounded price after slippage. */
  method QuoteBest(records: seq<PathRecord>, slippageBps: nat) returns (r: Result<ConversionQuote, QuoteError>)
    ensures r.Err? <==> records == []
    ensures r.Ok? ==>
              && (forall k :: 0 <= k < |records| ==> records[k].destination <= r.value.best.destination)
              && (exists i :: 0 <= i < |records| && records[i] == r.value.best
                              && forall j :: 0 <= j < i ==> records[j].destination < records[i].destination)
    ensures r.Ok? ==>
              && r.value.destAmount == r.value.best.destination && r.value.slippageBps == slippageBps
              && r.value.destMin == RoundDown(Floored(r.value.destAmount, slippageBps), STELLAR_DECIMALS)
  {
    if records == [] {
      return Err(NoRoute);
    }
    var best := records[0];
    ghost var i := 0;
    for n := 1 to |records|
      invariant 0 <= i < n && records[i] == best
      invariant forall k :: 0 <= k < n ==> records[k].destination <= best.destination
      invariant forall j :: 0 <= j < i ==> records[j].destination < best.destination
    {
      if records[n].destination > best.destination {
        best := records[n];
        i := n;
      }
    }
    var destMin := RoundDown(Floored(best.destination, slippageBps), STELLAR_DECIMALS);
    return Ok(ConversionQuote(best, best.destination, destMin, slippageBps));
  }

  lemma RoundDownBelow(x: real, d: nat)
    requires x >= 0.0
    ensures 0.0 <= RoundDown(x, d) <= x < RoundDown(x, d) + Over(1.0, Scale(d))
    ensures InUnits(RoundDown(x, d), d) == InUnits(x, d).Floor as real && InUnits(x, d) >= 0.0
  {
  }

  /** For a slippage of at most 100%, the floor is the exact one rounded down to the network's places. */
  lemma SlippageFloor(dest: real, bps: nat)
    requires dest >= 0.0 && bps <= 10_000
    ensures var destMin := RoundDown(Floored(dest, bps), STELLAR_DECIMALS);
            && destMin <= dest * (1.0 - bps as real / 10_000.0) < destMin + 0.0000001
            && 0.0 <= destMin <= dest
            && InUnits(destMin, STELLAR_DECIMALS) == InUnits(dest * (1.0 - bps as real / 10_000.0), STELLAR_DECIMALS).Floor as real
  {
    hide RoundDown, InUnits;
    SharePrice(dest, bps);
    SevenPlaces();
    RoundDownBelow(Floored(dest, bps), STELLAR_DECIMALS);
  }

  lemma SharePrice(dest: real, bps: nat)
    requires dest >= 0.0 && bps <= 10_000
    ensures Floored(dest, bps) == dest * (1.0 - bps as real / 10_000.0) && 0.0 <= Floored(dest, bps) <= dest
  {
    var share := (10_000 - bps) as real / 10_000.0;
    assert share == 1.0 - bps as real / 10_000.0;
    TimesAtMost(share, 1.0, dest);
    TimesAtMost(0.0, share, dest);
  }

  lemma SevenPlaces()
    ensures Over(1.0, Scale(STELLAR_DECIMALS)) == 0.0000001
  {
  }

  // ----- Contract units -----

  datatype AmountError = BadDecimals | NotPositive | TooPrecise | TooLarge | NotWhole

  function ToAssetUnits(amount: real, decimals: int): Result<nat, AmountError> {
    if decimals < 0 then Err(BadDecimals)
    else if amount <= 0.0 then Err(NotPositive)
    else
      var scaled := InUnits(amount, decimals);
      TimesOrder(amount, 0.0, Scale(decimals));
      TimesSum(0.0, 0.0, Scale(decimals));
      if scaled.Floor as real != scaled then Err(TooPrecise)
      else if scaled.Floor > MAX_SAFE_INTEGER then Err(TooLarge)
      else Ok(scaled.Floor)
  }

  /** The amount a confirmed conversion deposits: what was received, cut to the vault's places. */
  function DepositAmount(received: real, decimals: nat): Result<real, AmountError> {
    var amount := RoundDown(received, decimals);
    if amount <= 0.0 then Err(NotPositive) else Ok(amount)
  }

  /**
   A conversion's deposit is exactly the whole units that arrived, never more; it is refused only if that is
   nothing, or more than a safe integer, and never for its precision.
   */
  lemma DepositIsWhatArrived(received: real, decimals: nat)
    requires received >= 0.0
    ensures var units := InUnits(received, decimals).Floor;
            var amount := DepositAmount(received, decimals);
            && (amount == Err(NotPositive) <==> amount.Err?) && (amount.Err? <==> units == 0)
            && (amount.Ok? ==>
                  && amount.value <= received && InUnits(amount.value, decimals) == units as real
                  && (units >= 0 && ToAssetUnits(amount.value, decimals) ==
                      if units <= MAX_SAFE_INTEGER then Ok(units) else Err(TooLarge)))
  {
  }

  // ----- Decimal strings -----

  function Digit(n: nat): char
    requires n < 10
  {
    "0123456789"[n]
  }

  function DigitValue(c: char): nat {
    if '0' <= c <= '9' then c as int - '0' as int else 0
  }

  /** Exactly `d` digits. */
  function FixedDigits(n: nat, d: nat): (s: string)
    ensures |s| == d
  {
    if d == 0 then "" else FixedDigits(n / 10, d - 1) + [Digit(n % 10)]
  }

  function Digits(n: nat): string {
    if n < 10 then [Digit(n)] else Digits(n / 10) + [Digit(n % 10)]
  }

  function ParseNat(s: string): nat {
    if s == "" then 0 else 10 * ParseNat(s[..|s| - 1]) + DigitValue(s[|s| - 1])
  }

  /** What a decimal string stands for: digits, and digits after a dot if there are any. */
  function ParseDecimal(whole: string, fraction: string): real {
    ParseNat(whole) as real + Over(ParseNat(fraction) as real, Scale(|fraction|))
  }

  lemma DigitReads(n: nat)
    requires n < 10
    ensures DigitValue(Digit(n)) == n
  {
  }

  /** One more digit behind a number. */
  lemma ParseMore(s: string, n: nat)
    requires ParseNat(s) == n / 10
    ensures ParseNat(s + [Digit(n % 10)]) == n
  {
    DigitReads(n % 10);
    hide Digit, DigitValue;
    assert (s + [Digit(n % 10)])[..|s|] == s;
  }

  lemma {:induction false} DigitsParse(n: nat)
    ensures ParseNat(Digits(n)) == n
  {
    if n >= 10 {
      DigitsParse(n / 10);
      ParseMore(Digits(n / 10), n);
    } else {
      DigitReads(n);
    }
  }

  lemma OneDigitLess(n: nat, p: nat)
    requires n < 10 * p
    ensures n / 10 < p
  {
  }

  lemma {:induction false} FixedDigitsParse(n: nat, d: nat)
    requires n < Pow10(d)
    ensures ParseNat(FixedDigits(n, d)) == n
  {
    if d > 0 {
      OneDigitLess(n, Pow10(d - 1));
      FixedDigitsParse(n / 10, d - 1);
      ParseMore(FixedDigits(n / 10, d - 1), n);
      hide ParseNat, Pow10, Digit;
      assert FixedDigits(n, d) == FixedDigits(n / 10, d - 1) + [Digit(n % 10)];
    }
  }

  function Whole(n: nat, p: nat): nat
    requires p > 0
  {
    n / p
  }

  function Rest(n: nat, p: nat): nat
    requires p > 0
  {
    n % p
  }

  datatype DecimalText = DecimalText(negative: bool, whole: string, fraction: string)

  function Written(units: int, decimals: nat): DecimalText {
    var n, p := if units < 0 then -units else units, Pow10(decimals);
    DecimalText(units < 0, Digits(Whole(n, p)), FixedDigits(Rest(n, p), decimals))
  }

  function FromAssetUnits(raw: real, decimals: int): Result<DecimalText, AmountError> {
    if decimals < 0 then Err(BadDecimals)
    else if raw.Floor as real != raw then Err(NotWhole)
    else Ok(Written(raw.Floor, decimals))
  }

  function Value(t: DecimalText): real {
    if t.negative then -ParseDecimal(t.whole, t.fraction) else ParseDecimal(t.whole, t.fraction)
  }

  /** The digits stand for exactly n / 10^d. */
  lemma DigitsStandFor(n: nat, decimals: nat)
    ensures InUnits(ParseDecimal(Digits(Whole(n, Pow10(decimals))), FixedDigits(Rest(n, Pow10(decimals)), decimals)), decimals) == n as real
  {
    hide Times, Over, Digits, FixedDigits, ParseNat, Pow10, Whole, Rest;
    var p := Pow10(decimals);
    var a, b := Whole(n, p), Rest(n, p);
    WholeAndRest(n, p);
    DigitsParse(a);
    FixedDigitsParse(b, decimals);
    TimesSum(a as real, Over(b as real, Scale(decimals)), Scale(decimals));
    TimesOver(b as real, Scale(decimals));
  }

  lemma TimesNegates(x: real, s: real)
    ensures Times(-x, s) == -Times(x, s)
  {
  }

  /**
   The text of any whole number of units, negative ones included, stands for exactly units / 10^d. It reads back
   as the same units, unless an amount cannot be that: nothing, less than nothing, or more than a safe integer.
   */
  lemma UnitsRoundTrip(units: int, decimals: nat)
    ensures FromAssetUnits(units as real, decimals).Ok?
    ensures var t := FromAssetUnits(units as real, decimals).value;
            && |t.fraction| == decimals && (t.negative <==> units < 0) && InUnits(Value(t), decimals) == units as real
            && ToAssetUnits(Value(t), decimals) ==
               if units <= 0 then Err(NotPositive) else if units <= MAX_SAFE_INTEGER then Ok(units) else Err(TooLarge)
  {
    hide Times, Over, Digits, FixedDigits, ParseNat, ParseDecimal, Pow10, Whole, Rest;
    var t := Written(units, decimals);
    DigitsStandFor(if units < 0 then -units else units, decimals);
    TimesNegates(ParseDecimal(t.whole, t.fraction), Scale(decimals));
    TimesOrder(Value(t), 0.0, Scale(decimals));
    TimesOrder(0.0, Value(t), Scale(decimals));
    TimesSum(0.0, 0.0, Scale(decimals));
    assert (units as real).Floor == units;
  }

  predicate Equals(x: real, k: int) {
    x == k as real
  }

  ghost predicate IsWhole(x: real) {
    exists k :: Equals(x, k)
  }

  /** Each refusal on exactly its own amounts: no number of places, nothing to deposit, no whole number of units, too many of them. */
  lemma UnitsAreRefusedExactly(amount: real, decimals: int)
    ensures ToAssetUnits(amount, decimals) == Err(BadDecimals) <==> decimals < 0
    ensures FromAssetUnits(amount, decimals) == Err(BadDecimals) <==> decimals < 0
    ensures decimals >= 0 ==>
              var units := ToAssetUnits(amount, decimals);
              && (units == Err(NotPositive) <==> amount <= 0.0)
              && (units == Err(TooPrecise) <==> amount > 0.0 && !IsWhole(InUnits(amount, decimals)))
              && (units == Err(TooLarge) <==> exists k :: k > 9_007_199_254_740_991 && Equals(InUnits(amount, decimals), k))
              && (FromAssetUnits(amount, decimals) == Err(NotWhole) <==> !IsWhole(amount))
  {
    hide Times, Over, Pow10, Written;
    if decimals >= 0 {
      var scaled := InUnits(amount, decimals);
      TimesOrder(0.0, amount, Scale(decimals));
      TimesOrder(amount, 0.0, Scale(decimals));
      TimesSum(0.0, 0.0, Scale(decimals));
      assert Equals(scaled, scaled.Floor) <==> IsWhole(scaled);
      assert Equals(amount, amount.Floor) <==> IsWhole(amount);
    }
  }

  lemma WholeAndRest(units: nat, p: nat)
    requires p > 0
    ensures Times(Whole(units, p) as real, p as real) + Rest(units, p) as real == units as real && Rest(units, p) < p
  {
  }

  /** And the other way round: an accepted amount is the one its units are written as. */
  lemma AmountRoundTrip(amount: real, decimals: nat)
    requires ToAssetUnits(amount, decimals).Ok?
    ensures FromAssetUnits(ToAssetUnits(amount, decimals).value as real, decimals).Ok?
    ensures Value(FromAssetUnits(ToAssetUnits(amount, decimals).value as real, decimals).value) == amount
  {
    hide Value, Written, Times, Scale;
    var units := ToAssetUnits(amount, decimals).value;
    UnitsRoundTrip(units, decimals);
    var x := Value(Written(units, decimals));
    TimesOrder(x, amount, Scale(decimals));
    TimesOrder(amount, x, Scale(decimals));
  }
}
