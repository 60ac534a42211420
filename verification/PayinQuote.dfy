/**
 The correction loop that finds what to request so that the user receives a target amount after a fee
 nobody told us (src/ramp/ramp.service.ts:98-121). Amounts are cents; the provider may answer anything.
 */
module PayinQuote {
  const MAX_CORRECTIONS := 3

  datatype Quote = Quote(request: int, received: int)

  /** Each quote after the first was asked for because the one before fell short, by exactly what it fell short. */
  ghost predicate IsTrace(target: int, trace: seq<Quote>) {
    && trace != [] && trace[0].request == target
    && forall i :: 0 <= i < |trace| - 1 ==>
         trace[i].received < target && trace[i + 1].request == trace[i].request + target - trace[i].received
  }

  /** Whatever the provider answers: at most four quotes, and it gives up short only after the fourth. */
  method QuotePayinForTarget(target: int) returns (quote: Quote, ghost trace: seq<Quote>)
    ensures IsTrace(target, trace) && |trace| <= MAX_CORRECTIONS + 1 && quote == trace[|trace| - 1]
    ensures quote.received < target ==> |trace| == MAX_CORRECTIONS + 1
    ensures quote.request >= target && (quote.request > target <==> |trace| > 1)
  {
    var requestAmount := target;
    quote := AskProvider(requestAmount);
    trace := [quote];
    var attempt := 0;
    while attempt < MAX_CORRECTIONS && quote.received < target
      invariant 0 <= attempt <= MAX_CORRECTIONS && |trace| == attempt + 1
      invariant IsTrace(target, trace) && quote == trace[attempt] && quote.request == requestAmount
      invariant requestAmount >= target && (requestAmount > target <==> attempt > 0)
    {
      requestAmount := requestAmount + target - quote.received;
      quote := AskProvider(requestAmount);
      trace := trace + [quote];
      attempt := attempt + 1;
    }
  }

  method AskProvider(request: int) returns (quote: Quote)
    ensures quote.request == request
  {
    var received: int := *;
    quote := Quote(request, received);
  }

  /** The requests strictly increase, whatever the provider answers. */
  lemma {:induction false} RequestsIncrease(target: int, trace: seq<Quote>, i: nat, j: nat)
    requires IsTrace(target, trace) && i < j < |trace|
    ensures trace[i].request < trace[j].request
    decreases j
  {
    if i < j - 1 {
      RequestsIncrease(target, trace, i, j - 1);
    }
  }

  // ----- With a provider whose fee is reasonable -----

  /** The fee is not negative, never falls, and takes at most a share 1/m, and a cent, of anything extra. */
  ghost predicate IsFee(fee: int -> int, m: real) {
    && m > 1.0
    && forall r, t :: r <= t ==> 0 <= fee(r) <= fee(t) && (fee(t) - fee(r)) as real <= (t - r) as real / m + 1.0
  }

  ghost predicate Charges(fee: int -> int, trace: seq<Quote>) {
    forall i :: 0 <= i < |trace| ==> trace[i].received == trace[i].request - fee(trace[i].request)
  }

  function Shortfall(target: int, quote: Quote): int {
    target - quote.received
  }

  ghost function Times(a: real, b: real): real {
    a * b
  }

  ghost function Pow(m: real, k: nat): real {
    if k == 0 then 1.0 else Times(m, Pow(m, k - 1))
  }

  /** All that may be missing after one correction of a shortfall of `before`. */
  ghost function Next(before: real, m: real): real
    requires m > 1.0
  {
    before / m + 1.0
  }

  lemma {:induction false} PowPositive(m: real, k: nat)
    requires m > 1.0
    ensures Pow(m, k) > 0.0
  {
    if k > 0 {
      PowPositive(m, k - 1);
    }
  }

  /** What may still be missing if `first` was missing at the start, and all of it was divided by `p`. */
  ghost function Bound(first: real, m: real, p: real): real
    requires m > 1.0 && p > 0.0
  {
    first / p + m / (m - 1.0)
  }

  lemma OneCorrection(target: int, before: Quote, after: Quote, fee: int -> int, m: real)
    requires IsFee(fee, m) && before.received <= target && after.request == before.request + target - before.received
    requires before.received == before.request - fee(before.request) && after.received == after.request - fee(after.request)
    ensures after.received <= target && Shortfall(target, after) as real <= Next(Shortfall(target, before) as real, m)
  {
  }

  lemma BoundStart(first: real, m: real)
    requires m > 1.0
    ensures first <= Bound(first, m, 1.0)
  {
  }

  /**
   The target is approached from below and never passed, and after k corrections the shortfall is what it
   was divided by m^k, plus at most m / (m - 1) cents.
   */
  lemma {:induction false} CorrectionsConverge(target: int, trace: seq<Quote>, fee: int -> int, m: real, k: nat)
    requires IsTrace(target, trace) && IsFee(fee, m) && Charges(fee, trace) && k < |trace|
    ensures trace[k].received <= target
    ensures Pow(m, k) > 0.0 && Shortfall(target, trace[k]) as real <= Bound(Shortfall(target, trace[0]) as real, m, Pow(m, k))
  {
    hide Bound, Next, Times, Pow;
    PowPositive(m, k);
    if k == 0 {
      assert fee(target) >= 0;
      PowStart(m);
      BoundStart(Shortfall(target, trace[0]) as real, m);
    } else {
      CorrectionsConverge(target, trace, fee, m, k - 1);
      assert trace[k].request == trace[k - 1].request + target - trace[k - 1].received;
      OneCorrection(target, trace[k - 1], trace[k], fee, m);
      PowNext(m, k);
      Shrinks(Shortfall(target, trace[0]) as real, Shortfall(target, trace[k - 1]) as real, m, Pow(m, k - 1));
    }
  }

  lemma PowStart(m: real)
    ensures Pow(m, 0) == 1.0
  {
  }

  lemma PowNext(m: real, k: nat)
    requires k > 0
    ensures Pow(m, k) == Times(m, Pow(m, k - 1))
  {
  }

  lemma Shrinks(first: real, before: real, m: real, p: real)
    requires m > 1.0 && p > 0.0 && before <= Bound(first, m, p)
    ensures Times(m, p) > 0.0 && Next(before, m) <= Bound(first, m, Times(m, p))
  {
  }

}
