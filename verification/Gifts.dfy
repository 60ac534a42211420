/**
 Gifts over claimable balances (src/gifts, src/jobs/gift-reconciliation.job.ts, src/jobs/gift-expiry.job.ts).

 Claimants, the funding scan, the refund scan, the expiry job, the senders and the ledger itself all
 act on the same gifts. `Event` lists their atomic steps. A submitted payment may be applied by the
 ledger long after its submitter gave up on the answer, and a process may stop after any step.
 */
module Gifts {
  import opened Common

  type GiftId = nat
  type BalanceId = nat
  type ClaimId = nat
  type ScanId = nat
  type UserId = nat
  type Address = nat
  type Memo = nat

  datatype Status = CREATED | FUNDED | CLAIMING | CLAIMED | EXPIRED | REFUNDED

  datatype Gift = Gift(sender: UserId, amount: nat, memo: Memo, expiresAt: nat, status: Status,
                       balance: Option<BalanceId>, recipient: Option<UserId>, claimTx: Option<ClaimId>)

  /** A claimable balance as its funding transaction created it. */
  datatype Claimable = Claimable(amount: nat, memo: Option<Memo>, usdc: bool)

  datatype Consumption = PaidOut(claim: ClaimId) | Reclaimed

  datatype Stage = Locked | Submitted | Paid | Failing | Finished
  datatype Payment = Unsent | Pending | Applied | Rejected

  /** One call of `claimGift` that got the lock: what it pays, to whom, and how far it is. */
  datatype Claim = Claim(gift: GiftId, user: UserId, destination: Address, balance: BalanceId, amount: nat,
                         stage: Stage, payment: Payment)

  /** One pass of the refund scan over a gift: read as expired, then seen without its balance. */
  datatype Scan = SawExpired(gift: GiftId, balance: BalanceId) | SawGone(gift: GiftId, balance: BalanceId)

  /** `balances` keeps every claimable balance ever created; the consumed ones are off the ledger. */
  datatype State = State(gifts: map<GiftId, Gift>, balances: map<BalanceId, Claimable>,
                         consumed: map<BalanceId, Consumption>, agent: nat,
                         claims: map<ClaimId, Claim>, scans: map<ScanId, Scan>)

  datatype Event =
    | Create(gift: GiftId, sender: UserId, amount: nat, memo: Memo, expiresAt: nat)
    | CreateBalance(balance: BalanceId, claimable: Claimable)
    | Reclaim(balance: BalanceId)
    | Bind(gift: GiftId, balance: BalanceId)
    | Expire(gift: GiftId, now: nat)
    | ScanExpired(scan: ScanId, gift: GiftId)
    | ScanGone(scan: ScanId)
    | Refund(scan: ScanId)
    | Lock(claim: ClaimId, gift: GiftId, user: UserId, destination: Address, balance: BalanceId, amount: nat)
    | Submit(claim: ClaimId)
    | LedgerApplies(claim: ClaimId)
    | LedgerRejects(claim: ClaimId)
    | Answer(claim: ClaimId, ok: bool)
    | MarkClaimed(claim: ClaimId, confirmed: bool)
    | MarkFails(claim: ClaimId)
    | Revert(claim: ClaimId)

  predicate OnLedger(s: State, b: BalanceId) {
    b in s.balances && b !in s.consumed
  }

  predicate Matches(s: State, gift: Gift, b: BalanceId) {
    b in s.balances && s.balances[b] == Claimable(gift.amount, Some(gift.memo), true)
  }

  predicate InStage(s: State, c: ClaimId, stage: Stage) {
    c in s.claims && s.claims[c].stage == stage
  }

  predicate Enabled(s: State, e: Event) {
    match e
    case Create(g, _, _, memo, _) => g !in s.gifts && forall x :: x in s.gifts ==> s.gifts[x].memo != memo
    case CreateBalance(b, _) => b !in s.balances
    case Reclaim(b) => OnLedger(s, b)
    case Bind(g, b) => g in s.gifts && s.gifts[g].status == CREATED && Matches(s, s.gifts[g], b)
    case Expire(g, now) => g in s.gifts && s.gifts[g].status in {CREATED, FUNDED} && s.gifts[g].expiresAt < now
    case ScanExpired(k, g) => g in s.gifts && s.gifts[g].status == EXPIRED && s.gifts[g].balance.Some?
    case ScanGone(k) => k in s.scans && s.scans[k].SawExpired? && !OnLedger(s, s.scans[k].balance)
    case Refund(k) => k in s.scans && s.scans[k].SawGone?
    case Lock(c, g, user, _, b, amount) =>
      && c !in s.claims && g in s.gifts && s.gifts[g].status == FUNDED
      && s.gifts[g].balance == Some(b) && s.gifts[g].amount == amount && s.gifts[g].sender != user
    case Submit(c) => InStage(s, c, Locked)
    case LedgerApplies(c) =>
      && c in s.claims && s.claims[c].payment == Pending && OnLedger(s, s.claims[c].balance)
      && s.claims[c].amount <= s.agent + Received(s, s.claims[c].balance)
    case LedgerRejects(c) => c in s.claims && s.claims[c].payment == Pending
    case Answer(c, ok) => InStage(s, c, Submitted) && (ok ==> s.claims[c].payment == Applied)
    case MarkClaimed(c, _) => InStage(s, c, Paid)
    case MarkFails(c) => InStage(s, c, Paid)
    case Revert(c) => InStage(s, c, Failing) || InStage(s, c, Locked)
  }

  /** What claiming the balance brings the agent, in USDC. */
  function Received(s: State, b: BalanceId): nat {
    if b in s.balances && s.balances[b].usdc then s.balances[b].amount else 0
  }

  function SetStatus(s: State, g: GiftId, status: Status): State {
    if g in s.gifts then s.(gifts := s.gifts[g := s.gifts[g].(status := status)]) else s
  }

  function SetStage(s: State, c: ClaimId, stage: Stage): State {
    if c in s.claims then s.(claims := s.claims[c := s.claims[c].(stage := stage)]) else s
  }

  function SetPayment(s: State, c: ClaimId, payment: Payment): State {
    if c in s.claims then s.(claims := s.claims[c := s.claims[c].(payment := payment)]) else s
  }

  function Apply(s: State, e: Event): State
    requires Enabled(s, e)
  {
    match e
    case Create(g, sender, amount, memo, expiresAt) =>
      s.(gifts := s.gifts[g := Gift(sender, amount, memo, expiresAt, CREATED, None, None, None)])
    case CreateBalance(b, claimable) => s.(balances := s.balances[b := claimable])
    case Reclaim(b) => s.(consumed := s.consumed[b := Reclaimed])
    case Bind(g, b) => s.(gifts := s.gifts[g := s.gifts[g].(status := FUNDED, balance := Some(b))])
    case Expire(g, _) => SetStatus(s, g, EXPIRED)
    case ScanExpired(k, g) => s.(scans := s.scans[k := SawExpired(g, s.gifts[g].balance.value)])
    case ScanGone(k) => s.(scans := s.scans[k := SawGone(s.scans[k].gift, s.scans[k].balance)])
    case Refund(k) => SetStatus(s, s.scans[k].gift, REFUNDED).(scans := s.scans - {k})
    case Lock(c, g, user, destination, b, amount) =>
      s.(gifts := s.gifts[g := s.gifts[g].(status := CLAIMING, recipient := Some(user))],
         claims := s.claims[c := Claim(g, user, destination, b, amount, Locked, Unsent)])
    case Submit(c) => SetPayment(SetStage(s, c, Submitted), c, Pending)
    case LedgerApplies(c) =>
      SetPayment(s, c, Applied).(consumed := s.consumed[s.claims[c].balance := PaidOut(c)],
                                 agent := s.agent + Received(s, s.claims[c].balance) - s.claims[c].amount)
    case LedgerRejects(c) => SetPayment(s, c, Rejected)
    case Answer(c, ok) => SetStage(s, c, if ok then Paid else Failing)
    case MarkClaimed(c, confirmed) =>
      var g := s.claims[c].gift;
      var t := SetStage(s, c, if confirmed then Finished else Failing);
      if g in s.gifts then t.(gifts := s.gifts[g := s.gifts[g].(status := CLAIMED, claimTx := Some(c))]) else t
    case MarkFails(c) => SetStage(s, c, Failing)
    case Revert(c) =>
      var g := s.claims[c].gift;
      var t := SetStage(s, c, Finished);
      if g in s.gifts && s.gifts[g].status == CLAIMING then
        t.(gifts := s.gifts[g := s.gifts[g].(status := FUNDED, recipient := None)])
      else t
  }

  // ----- The invariant -----

  ghost predicate Active(c: Claim) {
    c.stage != Finished
  }

  /** The balance and amount of a claim are the gift's, and the ledger's. */
  ghost predicate ClaimOk(s: State, c: ClaimId)
    requires c in s.claims
  {
    var claim := s.claims[c];
    && claim.gift in s.gifts
    && var gift := s.gifts[claim.gift];
    && gift.balance == Some(claim.balance) && gift.amount == claim.amount && Matches(s, gift, claim.balance)
    && (claim.stage == Locked ==> claim.payment == Unsent)
    && (claim.stage == Paid ==> claim.payment == Applied)
    && (claim.stage in {Locked, Submitted, Paid} ==> gift.status == CLAIMING && gift.recipient == Some(claim.user))
    && (claim.stage == Failing ==> gift.status == CLAIMING || (gift.status == CLAIMED && gift.claimTx == Some(c)))
    && (claim.payment == Applied <==> claim.balance in s.consumed && s.consumed[claim.balance] == PaidOut(c))
  }

  ghost predicate GiftOk(s: State, g: GiftId)
    requires g in s.gifts
  {
    var gift := s.gifts[g];
    && (gift.status == CREATED ==> gift.balance.None?)
    && (gift.status in {FUNDED, CLAIMING, CLAIMED, REFUNDED} ==> gift.balance.Some?)
    && (gift.balance.Some? ==> Matches(s, gift, gift.balance.value))
    && (gift.status == CLAIMED ==>
          && gift.claimTx.Some? && gift.claimTx.value in s.claims
          && var claim := s.claims[gift.claimTx.value];
          claim.gift == g && claim.payment == Applied && gift.recipient == Some(claim.user))
    && (gift.status == REFUNDED ==> gift.balance.value in s.consumed)
  }

  ghost predicate ScanOk(s: State, k: ScanId)
    requires k in s.scans
  {
    var scan := s.scans[k];
    && scan.gift in s.gifts && s.gifts[scan.gift].status in {EXPIRED, REFUNDED}
    && s.gifts[scan.gift].balance == Some(scan.balance) && scan.balance in s.balances
    && (scan.SawGone? ==> scan.balance in s.consumed)
  }

  /** At most one claim of a gift is under way. */
  ghost predicate OneClaimInFlight(s: State) {
    forall c, d :: c in s.claims && d in s.claims && Active(s.claims[c]) && Active(s.claims[d]) && s.claims[c].gift == s.claims[d].gift
      ==> c == d
  }

  ghost predicate MemosUnique(s: State) {
    forall x, y :: x in s.gifts && y in s.gifts && s.gifts[x].memo == s.gifts[y].memo ==> x == y
  }

  ghost predicate ConsumedOk(s: State) {
    forall b :: b in s.consumed ==>
      b in s.balances &&
      (s.consumed[b].PaidOut? ==> s.consumed[b].claim in s.claims && s.claims[s.consumed[b].claim].balance == b)
  }

  ghost predicate Inv(s: State) {
    && MemosUnique(s)
    && ConsumedOk(s)
    && OneClaimInFlight(s)
    && (forall g :: g in s.gifts ==> GiftOk(s, g))
    && (forall c :: c in s.claims ==> ClaimOk(s, c))
    && (forall k :: k in s.scans ==> ScanOk(s, k))
  }

  /** Which steps may change a gift's row: its status moves along these edges only. */
  predicate Moves(from: Status, to: Status) {
    || from == to
    || (from == CREATED && to in {FUNDED, EXPIRED})
    || (from == FUNDED && to in {CLAIMING, EXPIRED})
    || (from == CLAIMING && to in {FUNDED, CLAIMED})
    || (from == EXPIRED && to == REFUNDED)
  }

  /** The part of the invariant that concerns the row the step works on. */
  ghost predicate ActorOk(s: State, e: Event) {
    match e
    case Bind(g, _) => g in s.gifts && GiftOk(s, g)
    case ScanExpired(_, g) => g in s.gifts && GiftOk(s, g)
    case ScanGone(k) => k in s.scans && ScanOk(s, k)
    case Refund(k) => k in s.scans && ScanOk(s, k)
    case Lock(_, g, _, _, _, _) => g in s.gifts && GiftOk(s, g)
    case Submit(c) => c in s.claims && ClaimOk(s, c)
    case LedgerApplies(c) => c in s.claims && ClaimOk(s, c)
    case LedgerRejects(c) => c in s.claims && ClaimOk(s, c)
    case Answer(c, _) => c in s.claims && ClaimOk(s, c)
    case MarkClaimed(c, _) => c in s.claims && ClaimOk(s, c)
    case MarkFails(c) => c in s.claims && ClaimOk(s, c)
    case Revert(c) => c in s.claims && ClaimOk(s, c)
    case _ => true
  }

  lemma ActorIsOk(s: State, e: Event)
    requires Inv(s) && Enabled(s, e)
    ensures ActorOk(s, e)
  {
  }

  lemma StepMovesStatus(s: State, e: Event, g: GiftId)
    requires Enabled(s, e) && ActorOk(s, e) && g in s.gifts
    ensures var t := Apply(s, e);
            && g in t.gifts && Moves(s.gifts[g].status, t.gifts[g].status)
            && (s.gifts[g].balance.Some? ==> t.gifts[g].balance == s.gifts[g].balance)
            && t.gifts[g].amount == s.gifts[g].amount && t.gifts[g].memo == s.gifts[g].memo
  {
  }

  /** Nothing on the ledger is ever undone, and a claim keeps what it is about. */
  lemma StepOnlyAdds(s: State, e: Event)
    requires Enabled(s, e)
    ensures var t := Apply(s, e);
            && (forall b :: b in s.consumed ==> b in t.consumed && t.consumed[b] == s.consumed[b])
            && (forall b :: b in s.balances ==> b in t.balances && t.balances[b] == s.balances[b])
            && (forall c :: c in s.claims ==>
                  && c in t.claims && t.claims[c].gift == s.claims[c].gift && t.claims[c].balance == s.claims[c].balance
                  && (Active(t.claims[c]) ==> Active(s.claims[c])))
  {
  }

  lemma StepKeepsMemos(s: State, e: Event)
    requires MemosUnique(s) && Enabled(s, e)
    ensures MemosUnique(Apply(s, e))
  {
    if e.Create? {
    } else {
      assert forall g :: g in Apply(s, e).gifts ==> g in s.gifts && Apply(s, e).gifts[g].memo == s.gifts[g].memo;
    }
  }

  lemma StepKeepsConsumed(s: State, e: Event)
    requires ConsumedOk(s) && Enabled(s, e)
    ensures ConsumedOk(Apply(s, e))
  {
    StepOnlyAdds(s, e);
    assert forall b :: b in Apply(s, e).consumed && b !in s.consumed ==> e.Reclaim? || e.LedgerApplies?;
  }

  /** The claim a step belongs to. */
  predicate ByClaim(e: Event, c: ClaimId) {
    (e.Submit? || e.LedgerApplies? || e.LedgerRejects? || e.Answer? || e.MarkClaimed? || e.MarkFails? || e.Revert? || e.Lock?)
    && e.claim == c
  }

  /** Another party's step leaves a locked gift alone, and keeps what any claim relies on. */
  lemma StepSparesGift(s: State, e: Event, c: ClaimId)
    requires Enabled(s, e) && ActorOk(s, e) && c in s.claims && ClaimOk(s, c) && !ByClaim(e, c)
    requires forall d :: d in s.claims && d != c && Active(s.claims[c]) && Active(s.claims[d]) ==> s.claims[d].gift != s.claims[c].gift
    ensures var g := s.claims[c].gift;
            && g in Apply(s, e).gifts
            && (Active(s.claims[c]) ==> Apply(s, e).gifts[g] == s.gifts[g])
            && Apply(s, e).gifts[g].balance == s.gifts[g].balance && Apply(s, e).gifts[g].amount == s.gifts[g].amount
            && Apply(s, e).gifts[g].memo == s.gifts[g].memo
  {
  }

  lemma StepSparesClaim(s: State, e: Event, c: ClaimId)
    requires Enabled(s, e) && ActorOk(s, e) && c in s.claims && !ByClaim(e, c)
    ensures c in Apply(s, e).claims && Apply(s, e).claims[c] == s.claims[c]
    ensures forall b :: b in Apply(s, e).consumed && b !in s.consumed ==> Apply(s, e).consumed[b] != PaidOut(c)
  {
  }

  lemma StepKeepsOtherClaim(s: State, e: Event, c: ClaimId)
    requires Enabled(s, e) && ActorOk(s, e) && c in s.claims && ClaimOk(s, c) && !ByClaim(e, c)
    requires forall d :: d in s.claims && d != c && Active(s.claims[c]) && Active(s.claims[d]) ==> s.claims[d].gift != s.claims[c].gift
    ensures ClaimOk(Apply(s, e), c)
  {
    StepSparesGift(s, e, c);
    StepSparesClaim(s, e, c);
    StepOnlyAdds(s, e);
    hide Apply, Enabled, ActorOk, ByClaim;
  }

  lemma StepKeepsOwnClaim(s: State, e: Event, c: ClaimId)
    requires Enabled(s, e) && ActorOk(s, e) && ByClaim(e, c)
    requires ConsumedOk(s)
    ensures c in Apply(s, e).claims && ClaimOk(Apply(s, e), c)
  {
  }

  lemma StepKeepsClaim(s: State, e: Event, c: ClaimId)
    requires Inv(s) && Enabled(s, e) && c in Apply(s, e).claims
    ensures ClaimOk(Apply(s, e), c)
  {
    ActorIsOk(s, e);
    if ByClaim(e, c) {
      StepKeepsOwnClaim(s, e, c);
    } else {
      hide GiftOk, ScanOk, ConsumedOk, MemosUnique, Enabled;
      StepKeepsOtherClaim(s, e, c);
    }
  }

  lemma StepKeepsGift(s: State, e: Event, g: GiftId)
    requires Enabled(s, e) && ActorOk(s, e) && g in Apply(s, e).gifts
    requires g in s.gifts ==> GiftOk(s, g)
    ensures GiftOk(Apply(s, e), g)
  {
    StepOnlyAdds(s, e);
    if g in s.gifts {
      StepMovesStatus(s, e, g);
      StepKeepsReceipt(s, e, g);
    }
  }

  /** The claim that a CLAIMED gift points to stays the one that was paid. */
  lemma StepKeepsReceipt(s: State, e: Event, g: GiftId)
    requires Enabled(s, e) && ActorOk(s, e) && g in s.gifts && GiftOk(s, g)
    ensures var t := Apply(s, e);
            g in t.gifts && (t.gifts[g].status == CLAIMED ==>
              && t.gifts[g].claimTx.Some? && t.gifts[g].claimTx.value in t.claims
              && var claim := t.claims[t.gifts[g].claimTx.value];
              claim.gift == g && claim.payment == Applied && t.gifts[g].recipient == Some(claim.user))
  {
  }

  lemma StepKeepsScan(s: State, e: Event, k: ScanId)
    requires Enabled(s, e) && ActorOk(s, e) && k in Apply(s, e).scans
    requires k in s.scans ==> ScanOk(s, k)
    ensures ScanOk(Apply(s, e), k)
  {
    StepOnlyAdds(s, e);
  }

  /** An active claim was active before, or has just taken the lock. */
  lemma ActiveBefore(s: State, e: Event, c: ClaimId)
    requires Enabled(s, e) && c in Apply(s, e).claims && Active(Apply(s, e).claims[c])
    ensures if c in s.claims && !(e.Lock? && e.claim == c)
            then Active(s.claims[c]) && s.claims[c].gift == Apply(s, e).claims[c].gift
            else e.Lock? && e.claim == c && Apply(s, e).claims[c].gift == e.gift
  {
  }

  lemma LockFindsNone(s: State, e: Event, d: ClaimId)
    requires Inv(s) && Enabled(s, e) && e.Lock? && d in s.claims && s.claims[d].gift == e.gift
    ensures !Active(s.claims[d])
  {
  }

  lemma StepKeepsOneClaim(s: State, e: Event)
    requires Inv(s) && Enabled(s, e)
    ensures OneClaimInFlight(Apply(s, e))
  {
    var t := Apply(s, e);
    forall c, d | c in t.claims && d in t.claims && Active(t.claims[c]) && Active(t.claims[d]) && t.claims[c].gift == t.claims[d].gift
      ensures c == d
    {
      hide GiftOk, ScanOk, ConsumedOk, MemosUnique, ClaimOk, Apply, Enabled;
      ActiveBefore(s, e, c);
      ActiveBefore(s, e, d);
      if e.Lock? && e.claim == c && c != d {
        LockFindsNone(s, e, d);
      } else if e.Lock? && e.claim == d && c != d {
        LockFindsNone(s, e, c);
      }
    }
  }

  lemma StepKeepsInv(s: State, e: Event)
    requires Inv(s) && Enabled(s, e)
    ensures Inv(Apply(s, e))
  {
    StepKeepsMemos(s, e);
    StepKeepsConsumed(s, e);
    StepKeepsOneClaim(s, e);
    ActorIsOk(s, e);
    hide GiftOk, ScanOk, ClaimOk, ConsumedOk, MemosUnique, OneClaimInFlight, ActorOk, Enabled, Apply;
    forall g | g in Apply(s, e).gifts ensures GiftOk(Apply(s, e), g) {
      StepKeepsGift(s, e, g);
    }
    forall c | c in Apply(s, e).claims ensures ClaimOk(Apply(s, e), c) {
      StepKeepsClaim(s, e, c);
    }
    forall k | k in Apply(s, e).scans ensures ScanOk(Apply(s, e), k) {
      StepKeepsScan(s, e, k);
    }
  }

  /** The agent never keeps, or spends, anything of its own: a payout is exactly what the balance held. */
  lemma StepKeepsAgent(s: State, e: Event)
    requires Enabled(s, e) && ActorOk(s, e)
    ensures Apply(s, e).agent == s.agent
  {
  }

  // ----- Runs -----

  function Init(agent: nat): State {
    State(map[], map[], map[], agent, map[], map[])
  }

  /** The state after the steps of `log`, in order; none if some step was not allowed when it came. */
  function Run(start: State, log: seq<Event>): Option<State> {
    if log == [] then Some(start)
    else
      var before, e := Run(start, log[..|log| - 1]), log[|log| - 1];
      if before.Some? && Enabled(before.value, e) then Some(Apply(before.value, e)) else None
  }

  predicate Legal(start: State, log: seq<Event>) {
    Run(start, log).Some?
  }

  function Play(start: State, log: seq<Event>): State
    requires Legal(start, log)
  {
    Run(start, log).value
  }

  lemma Extend(start: State, log: seq<Event>, e: Event)
    requires Legal(start, log) && Enabled(Play(start, log), e)
    ensures Legal(start, log + [e]) && Play(start, log + [e]) == Apply(Play(start, log), e)
  {
  }

  lemma {:induction false} EveryRunKeepsInv(agent: nat, log: seq<Event>)
    requires Legal(Init(agent), log)
    ensures Inv(Play(Init(agent), log)) && Play(Init(agent), log).agent == agent
  {
    if log != [] {
      var before := log[..|log| - 1];
      EveryRunKeepsInv(agent, before);
      ActorIsOk(Play(Init(agent), before), log[|log| - 1]);
      StepKeepsInv(Play(Init(agent), before), log[|log| - 1]);
      StepKeepsAgent(Play(Init(agent), before), log[|log| - 1]);
    }
  }

  /** Where a gift can get to from a status, in any number of steps. */
  predicate Leads(from: Status, to: Status) {
    match from
    case CREATED => true
    case FUNDED => to != CREATED
    case CLAIMING => to != CREATED
    case CLAIMED => to == CLAIMED
    case EXPIRED => to == EXPIRED || to == REFUNDED
    case REFUNDED => to == REFUNDED
  }

  /** CLAIMED and REFUNDED are never left, and EXPIRED only for REFUNDED, in any run and from any point of it. */
  lemma {:induction false} TerminalStatusesStay(agent: nat, log: seq<Event>, more: seq<Event>, g: GiftId)
    requires log <= more && Legal(Init(agent), more)
    ensures Legal(Init(agent), log)
    ensures g in Play(Init(agent), log).gifts ==>
              && g in Play(Init(agent), more).gifts
              && Leads(Play(Init(agent), log).gifts[g].status, Play(Init(agent), more).gifts[g].status)
    decreases |more|
  {
    if |log| < |more| {
      var before := more[..|more| - 1];
      TerminalStatusesStay(agent, log, before, g);
      EveryRunKeepsInv(agent, before);
      ActorIsOk(Play(Init(agent), before), more[|more| - 1]);
      if g in Play(Init(agent), before).gifts {
        StepMovesStatus(Play(Init(agent), before), more[|more| - 1], g);
      }
    } else {
      assert log == more;
    }
  }

  /** Gift money, for every interleaving: one claim under way per gift, and the agent's own USDC never changes. */
  lemma OneClaimAndAgentUnchanged(agent: nat, log: seq<Event>, c: ClaimId, d: ClaimId)
    requires Legal(Init(agent), log)
    ensures Play(Init(agent), log).agent == agent
    ensures var s := Play(Init(agent), log);
            && c in s.claims && d in s.claims && s.claims[c].gift == s.claims[d].gift
            && s.claims[c].stage != Finished && s.claims[d].stage != Finished
            ==> c == d
  {
    EveryRunKeepsInv(agent, log);
  }

  /**
   Money leaves a balance once, for every interleaving: a payout is of the gift's whole amount, which
   is the balance's; the same gift is never paid twice; no other gift is bound to that balance, and
   its sender did not take it back.
   */
  lemma PaidOnce(agent: nat, log: seq<Event>, c: ClaimId)
    requires Legal(Init(agent), log)
    requires c in Play(Init(agent), log).claims && Play(Init(agent), log).claims[c].payment == Applied
    ensures var s := Play(Init(agent), log);
            var claim := s.claims[c];
            && claim.gift in s.gifts && claim.balance in s.balances && claim.balance in s.consumed
            && s.gifts[claim.gift].balance == Some(claim.balance)
            && s.balances[claim.balance].amount == claim.amount == s.gifts[claim.gift].amount
            && s.consumed[claim.balance] == PaidOut(c)
            && (forall d :: d in s.claims && s.claims[d].gift == claim.gift && s.claims[d].payment == Applied ==> d == c)
            && (forall g :: g in s.gifts && s.gifts[g].balance == Some(claim.balance) ==> g == claim.gift)
  {
    EveryRunKeepsInv(agent, log);
    var s := Play(Init(agent), log);
    assert ClaimOk(s, c);
    forall d | d in s.claims && s.claims[d].gift == s.claims[c].gift && s.claims[d].payment == Applied ensures d == c {
      assert ClaimOk(s, d);
    }
    forall g | g in s.gifts && s.gifts[g].balance == Some(s.claims[c].balance) ensures g == s.claims[c].gift {
      assert GiftOk(s, g);
    }
  }

  /** CLAIMED tells the truth: the gift's whole amount went to the recorded recipient's claim, and to no other. */
  lemma ClaimedMeansPaid(agent: nat, log: seq<Event>, g: GiftId)
    requires Legal(Init(agent), log)
    requires g in Play(Init(agent), log).gifts && Play(Init(agent), log).gifts[g].status == CLAIMED
    ensures var s := Play(Init(agent), log);
            && s.gifts[g].claimTx.Some? && s.gifts[g].claimTx.value in s.claims
            && var claim := s.claims[s.gifts[g].claimTx.value];
            && claim.payment == Applied && claim.gift == g && claim.amount == s.gifts[g].amount
            && s.gifts[g].recipient == Some(claim.user)
            && claim.balance in s.consumed && s.consumed[claim.balance] == PaidOut(s.gifts[g].claimTx.value)
  {
    EveryRunKeepsInv(agent, log);
    var s := Play(Init(agent), log);
    assert GiftOk(s, g);
    assert ClaimOk(s, s.gifts[g].claimTx.value);
  }

  // ----- What REFUNDED says -----

  /** No payment of the gift was made, and none can still be: what is submitted was refused, or came too late. */
  ghost predicate PaymentsSettled(s: State, g: GiftId) {
    forall c :: c in s.claims && s.claims[c].gift == g ==> PaymentSettled(s, c)
  }

  predicate PaymentSettled(s: State, c: ClaimId)
    requires c in s.claims
  {
    s.claims[c].payment != Applied && !(s.claims[c].payment == Pending && OnLedger(s, s.claims[c].balance))
  }

  /** The gift's money went back to its sender. */
  predicate TakenBack(s: State, g: GiftId) {
    && g in s.gifts && s.gifts[g].balance.Some? && s.gifts[g].balance.value in s.consumed
    && s.consumed[s.gifts[g].balance.value] == Reclaimed
  }

  /** REFUNDED says only that the balance left the ledger: to its sender, or to a claim of this gift. */
  lemma RefundedMeansGone(agent: nat, log: seq<Event>, g: GiftId)
    requires Legal(Init(agent), log)
    requires g in Play(Init(agent), log).gifts && Play(Init(agent), log).gifts[g].status == REFUNDED
    ensures var s := Play(Init(agent), log);
            && s.gifts[g].balance.Some? && s.gifts[g].balance.value in s.consumed
            && (!TakenBack(s, g) ==>
                  && s.consumed[s.gifts[g].balance.value].PaidOut?
                  && var c := s.consumed[s.gifts[g].balance.value].claim;
                  c in s.claims && s.claims[c].gift == g && s.claims[c].payment == Applied && s.claims[c].stage == Finished)
  {
    EveryRunKeepsInv(agent, log);
    var s := Play(Init(agent), log);
    assert GiftOk(s, g);
    var b := s.gifts[g].balance.value;
    if s.consumed[b].PaidOut? {
      var c := s.consumed[b].claim;
      assert ClaimOk(s, c) && GiftOk(s, s.claims[c].gift);
      assert s.claims[c].gift == g;
    }
  }

  /** What holds of an expired gift whose payments are settled goes on holding. */
  lemma StepKeepsSettled(s: State, e: Event, g: GiftId)
    requires Enabled(s, e) && ActorOk(s, e) && g in s.gifts && s.gifts[g].status in {EXPIRED, REFUNDED} && PaymentsSettled(s, g)
    requires forall c :: c in s.claims ==> s.claims[c].balance in s.balances
    ensures g in Apply(s, e).gifts && Apply(s, e).gifts[g].status in {EXPIRED, REFUNDED} && PaymentsSettled(Apply(s, e), g)
  {
    StepMovesStatus(s, e, g);
    hide Apply, Enabled, ActorOk;
    forall c | c in Apply(s, e).claims && Apply(s, e).claims[c].gift == g
      ensures PaymentSettled(Apply(s, e), c)
    {
      StepKeepsPaymentSettled(s, e, g, c);
    }
  }

  lemma StepKeepsPaymentSettled(s: State, e: Event, g: GiftId, c: ClaimId)
    requires Enabled(s, e) && ActorOk(s, e) && g in s.gifts && s.gifts[g].status in {EXPIRED, REFUNDED}
    requires c in s.claims && s.claims[c].gift == g ==> PaymentSettled(s, c) && s.claims[c].balance in s.balances
    requires c in Apply(s, e).claims && Apply(s, e).claims[c].gift == g
    ensures PaymentSettled(Apply(s, e), c)
  {
  }

  lemma {:induction false} SettledStays(agent: nat, log: seq<Event>, more: seq<Event>, g: GiftId)
    requires log <= more && Legal(Init(agent), more) && Legal(Init(agent), log)
    requires g in Play(Init(agent), log).gifts && Play(Init(agent), log).gifts[g].status == EXPIRED
    requires PaymentsSettled(Play(Init(agent), log), g)
    ensures var t := Play(Init(agent), more);
            g in t.gifts && t.gifts[g].status in {EXPIRED, REFUNDED} && PaymentsSettled(t, g)
    decreases |more|
  {
    hide Apply, Enabled, PaymentsSettled;
    if |log| < |more| {
      var before, e := more[..|more| - 1], more[|more| - 1];
      SettledStays(agent, log, before, g);
      EveryRunKeepsInv(agent, before);
      ActorIsOk(Play(Init(agent), before), e);
      ClaimsHaveBalances(Play(Init(agent), before));
      StepKeepsSettled(Play(Init(agent), before), e, g);
    } else {
      assert log == more;
    }
  }

  lemma ClaimsHaveBalances(s: State)
    requires Inv(s)
    ensures forall c :: c in s.claims ==> s.claims[c].balance in s.balances
  {
    forall c | c in s.claims ensures s.claims[c].balance in s.balances {
      assert ClaimOk(s, c);
    }
  }

  /** The refund scan completes on an expired gift whose balance is gone, whoever has it. */
  lemma ScanRecordsRefund(agent: nat, log: seq<Event>, g: GiftId) returns (more: seq<Event>)
    requires Legal(Init(agent), log) && g in Play(Init(agent), log).gifts
    requires var s := Play(Init(agent), log);
             s.gifts[g].status == EXPIRED && s.gifts[g].balance.Some? && s.gifts[g].balance.value in s.consumed
    ensures log <= more && Legal(Init(agent), more) && g in Play(Init(agent), more).gifts
    ensures var s, t := Play(Init(agent), log), Play(Init(agent), more);
            t.gifts[g] == s.gifts[g].(status := REFUNDED) && t.consumed == s.consumed
  {
    hide Run, Legal, Play;
    Extend(Init(agent), log, ScanExpired(0, g));
    var seen := log + [ScanExpired(0, g)];
    Extend(Init(agent), seen, ScanGone(0));
    var gone := seen + [ScanGone(0)];
    Extend(Init(agent), gone, Refund(0));
    more := gone + [Refund(0)];
  }

  /** A payment that was given up undecided leaves both ends open: the ledger applies it, or the sender is first. */
  lemma UndecidedCanGoEitherWay(agent: nat, log: seq<Event>, g: GiftId, c: ClaimId) returns (paid: seq<Event>, taken: seq<Event>)
    requires Legal(Init(agent), log)
    requires var s := Play(Init(agent), log);
             && g in s.gifts && s.gifts[g].status == EXPIRED && c in s.claims && s.claims[c].gift == g
             && s.claims[c].payment == Pending && OnLedger(s, s.claims[c].balance)
    ensures log <= paid && Legal(Init(agent), paid) && g in Play(Init(agent), paid).gifts
    ensures Play(Init(agent), paid).gifts[g].status == REFUNDED && !TakenBack(Play(Init(agent), paid), g)
    ensures log <= taken && Legal(Init(agent), taken) && g in Play(Init(agent), taken).gifts
    ensures Play(Init(agent), taken).gifts[g].status == REFUNDED && TakenBack(Play(Init(agent), taken), g)
  {
    var s := Play(Init(agent), log);
    EveryRunKeepsInv(agent, log);
    assert ClaimOk(s, c);
    hide Run, Legal, Play, Inv;
    Extend(Init(agent), log, LedgerApplies(c));
    paid := ScanRecordsRefund(agent, log + [LedgerApplies(c)], g);
    Extend(Init(agent), log, Reclaim(s.claims[c].balance));
    taken := ScanRecordsRefund(agent, log + [Reclaim(s.claims[c].balance)], g);
  }

  /**
   When REFUNDED will be true of an expired gift, whatever happens from now on: exactly if none of its claims was
   paid and none of those the ledger has not decided yet could still be paid. The scan does not look at that.
   */
  lemma RefundIsTruthfulExactlyWhen(agent: nat, log: seq<Event>, g: GiftId)
    requires Legal(Init(agent), log)
    requires g in Play(Init(agent), log).gifts && Play(Init(agent), log).gifts[g].status == EXPIRED
    ensures PaymentsSettled(Play(Init(agent), log), g) <==>
            forall more :: log <= more && Legal(Init(agent), more) && IsRefunded(Play(Init(agent), more), g) ==>
              TakenBack(Play(Init(agent), more), g)
  {
    var s := Play(Init(agent), log);
    hide Run, Legal, Play, Inv, PaymentsSettled;
    if PaymentsSettled(s, g) {
      forall more | log <= more && Legal(Init(agent), more) && IsRefunded(Play(Init(agent), more), g)
        ensures TakenBack(Play(Init(agent), more), g)
      {
        SettledStays(agent, log, more, g);
        RefundedMeansGone(agent, more, g);
        NoneIsPaid(Play(Init(agent), more), g);
      }
    } else {
      var c := OpenPayment(s, g);
      var more;
      if s.claims[c].payment == Applied {
        EveryRunKeepsInv(agent, log);
        PaidIsConsumed(s, c);
        more := ScanRecordsRefund(agent, log, g);
      } else {
        var taken;
        more, taken := UndecidedCanGoEitherWay(agent, log, g, c);
      }
      assert log <= more && Legal(Init(agent), more) && IsRefunded(Play(Init(agent), more), g);
    }
  }

  predicate IsRefunded(s: State, g: GiftId) {
    g in s.gifts && s.gifts[g].status == REFUNDED
  }

  lemma NoneIsPaid(s: State, g: GiftId)
    requires PaymentsSettled(s, g)
    ensures forall c :: c in s.claims && s.claims[c].gift == g ==> s.claims[c].payment != Applied
  {
  }

  lemma OpenPayment(s: State, g: GiftId) returns (c: ClaimId)
    requires !PaymentsSettled(s, g)
    ensures c in s.claims && s.claims[c].gift == g
    ensures s.claims[c].payment == Applied || (s.claims[c].payment == Pending && OnLedger(s, s.claims[c].balance))
  {
    c :| c in s.claims && s.claims[c].gift == g && !PaymentSettled(s, c);
  }

  lemma PaidIsConsumed(s: State, c: ClaimId)
    requires Inv(s) && c in s.claims && s.claims[c].payment == Applied
    ensures var g := s.claims[c].gift;
            && g in s.gifts && s.gifts[g].balance == Some(s.claims[c].balance)
            && s.claims[c].balance in s.consumed && s.consumed[s.claims[c].balance] == PaidOut(c)
  {
    assert ClaimOk(s, c);
  }

  /** Every lock on the gift that was given back had no payment left open: never sent, or refused by the ledger. */
  ghost predicate RefusedBeforeGivenUp(agent: nat, log: seq<Event>, g: GiftId) {
    forall k :: 0 <= k < |log| && Legal(Init(agent), log[..k]) ==> !GivesUpOpenPayment(Play(Init(agent), log[..k]), log[k], g)
  }

  predicate GivesUpOpenPayment(s: State, e: Event, g: GiftId) {
    e.Revert? && e.claim in s.claims && s.claims[e.claim].gift == g && s.claims[e.claim].payment in {Pending, Applied}
  }

  /** A call of the gift that ended with its payment sent and not refused has recorded it. */
  ghost predicate FinishedIsDecided(s: State, g: GiftId) {
    forall c :: c in s.claims && s.claims[c].gift == g && EndsOpen(s.claims[c]) ==>
      g in s.gifts && s.gifts[g].status == CLAIMED
  }

  lemma StepKeepsDecided(s: State, e: Event, g: GiftId)
    requires Inv(s) && Enabled(s, e) && FinishedIsDecided(s, g) && !GivesUpOpenPayment(s, e, g)
    ensures FinishedIsDecided(Apply(s, e), g)
  {
    ActorIsOk(s, e);
    hide Inv, Apply, Enabled, ActorOk;
    if g in s.gifts {
      StepMovesStatus(s, e, g);
    }
    forall c | c in Apply(s, e).claims && Apply(s, e).claims[c].gift == g && EndsOpen(Apply(s, e).claims[c])
      ensures g in Apply(s, e).gifts && Apply(s, e).gifts[g].status == CLAIMED
    {
      EndedBefore(s, e, g, c);
    }
  }

  predicate EndsOpen(claim: Claim) {
    claim.stage == Finished && claim.payment in {Pending, Applied}
  }

  /** A claim with its payment sent and not refused ends by being recorded, or was at its end before. */
  lemma EndedBefore(s: State, e: Event, g: GiftId, c: ClaimId)
    requires Enabled(s, e) && ActorOk(s, e) && !GivesUpOpenPayment(s, e, g)
    requires c in Apply(s, e).claims && Apply(s, e).claims[c].gift == g && EndsOpen(Apply(s, e).claims[c])
    ensures || (c in s.claims && s.claims[c].gift == g && EndsOpen(s.claims[c]))
            || (g in Apply(s, e).gifts && Apply(s, e).gifts[g].status == CLAIMED)
  {
  }

  lemma {:induction false} CarefulRunsDecide(agent: nat, log: seq<Event>, g: GiftId)
    requires Legal(Init(agent), log) && RefusedBeforeGivenUp(agent, log, g)
    ensures FinishedIsDecided(Play(Init(agent), log), g)
  {
    if log != [] {
      var n := |log| - 1;
      var before := log[..n];
      forall k | 0 <= k < n && Legal(Init(agent), before[..k])
        ensures !GivesUpOpenPayment(Play(Init(agent), before[..k]), before[k], g)
      {
        assert before[..k] == log[..k];
      }
      hide Apply, Enabled, Inv, GivesUpOpenPayment;
      CarefulRunsDecide(agent, before, g);
      EveryRunKeepsInv(agent, before);
      assert !GivesUpOpenPayment(Play(Init(agent), log[..n]), log[n], g);
      StepKeepsDecided(Play(Init(agent), before), log[n], g);
    }
  }

  /** If no lock on the gift was given back with a payment open, REFUNDED is always true. */
  lemma RefusedClaimsMakeItTrue(agent: nat, log: seq<Event>, g: GiftId)
    requires Legal(Init(agent), log) && RefusedBeforeGivenUp(agent, log, g) && IsRefunded(Play(Init(agent), log), g)
    ensures TakenBack(Play(Init(agent), log), g)
  {
    hide Run, Legal, Play, Inv, RefusedBeforeGivenUp;
    RefundedMeansGone(agent, log, g);
    CarefulRunsDecide(agent, log, g);
  }

  // ----- A lock that is not given back -----

  /** A step that the call behind a claim takes itself; what the ledger does with its payment is not one. */
  predicate ByCaller(e: Event, c: ClaimId) {
    (e.Lock? || e.Submit? || e.Answer? || e.MarkClaimed? || e.MarkFails? || e.Revert?) && e.claim == c
  }

  lemma StepSparesLocked(s: State, e: Event, c: ClaimId)
    requires Inv(s) && Enabled(s, e) && c in s.claims && Active(s.claims[c]) && !ByCaller(e, c)
    ensures var g := s.claims[c].gift;
            && g in s.gifts && g in Apply(s, e).gifts && Apply(s, e).gifts[g] == s.gifts[g]
            && c in Apply(s, e).claims && Active(Apply(s, e).claims[c]) && Apply(s, e).claims[c].gift == g
  {
    ActorIsOk(s, e);
    assert ClaimOk(s, c);
    if !ByClaim(e, c) {
      OnlyOneHolds(s, c);
      StepSparesGift(s, e, c);
      StepSparesClaim(s, e, c);
    }
  }

  lemma OnlyOneHolds(s: State, c: ClaimId)
    requires Inv(s) && c in s.claims
    ensures forall d :: d in s.claims && d != c && Active(s.claims[c]) && Active(s.claims[d]) ==> s.claims[d].gift != s.claims[c].gift
  {
  }

  /**
   A lock whose call has ended without giving it back (or whose process is gone) stays for good: no claimant, job
   or sender changes the gift's row again, even when the balance is paid out or taken back. It is not expired,
   not refunded, not claimed by anybody else.
   */
  lemma {:induction false} AbandonedLockStays(agent: nat, log: seq<Event>, more: seq<Event>, c: ClaimId)
    requires log <= more && Legal(Init(agent), more) && Legal(Init(agent), log)
    requires c in Play(Init(agent), log).claims && Play(Init(agent), log).claims[c].stage != Finished
    requires forall k :: |log| <= k < |more| ==> !ByCaller(more[k], c)
    ensures var g := Play(Init(agent), log).claims[c].gift;
            && g in Play(Init(agent), log).gifts && g in Play(Init(agent), more).gifts
            && Play(Init(agent), more).gifts[g] == Play(Init(agent), log).gifts[g]
            && Play(Init(agent), log).gifts[g].status in {CLAIMING, CLAIMED}
            && c in Play(Init(agent), more).claims && Play(Init(agent), more).claims[c].stage != Finished
            && Play(Init(agent), more).claims[c].gift == g
    decreases |more|
  {
    hide Apply, Enabled, ByCaller;
    EveryRunKeepsInv(agent, log);
    assert ClaimOk(Play(Init(agent), log), c);
    hide Inv;
    if |log| < |more| {
      var before, e := more[..|more| - 1], more[|more| - 1];
      AbandonedLockStays(agent, log, before, c);
      EveryRunKeepsInv(agent, before);
      StepSparesLocked(Play(Init(agent), before), e, c);
    } else {
      assert log == more;
    }
  }

  /**
   The untrue case does happen: the ledger pays the recipient, the answer is lost, the lock is
   reverted, the gift expires, and the refund scan records REFUNDED although nobody was refunded.
   */
  lemma LostAnswerEndsInRefunded() returns (log: seq<Event>)
    ensures Legal(Init(0), log)
    ensures var s := Play(Init(0), log);
            && 1 in s.gifts && s.gifts[1].status == REFUNDED
            && s.gifts[1].balance == Some(2) && 2 in s.consumed && s.consumed[2] == PaidOut(3)
  {
    FundReaches();
    PayOutReaches();
    LoseTheAnswerReaches();
    ExpireAndScanReaches();
    hide Apply, Enabled, Run, Fund, PayOut, LoseTheAnswer, ExpireAndScan;
    RunAppend(Init(0), Fund(), PayOut());
    RunAppend(Init(0), Fund() + PayOut(), LoseTheAnswer());
    log := Fund() + PayOut() + LoseTheAnswer() + ExpireAndScan();
    RunAppend(Init(0), Fund() + PayOut() + LoseTheAnswer(), ExpireAndScan());
  }

  function OneGift(status: Status): map<GiftId, Gift> {
    map[1 := Gift(10, 50, 7, 100, status, Some(2), None, None)]
  }

  function FundedGift(): State {
    State(OneGift(FUNDED), map[2 := Claimable(50, Some(7), true)], map[], 0, map[], map[])
  }

  function RevertedGift(): State {
    State(OneGift(FUNDED), map[2 := Claimable(50, Some(7), true)], map[2 := PaidOut(3)], 0,
          map[3 := Claim(1, 11, 12, 2, 50, Finished, Applied)], map[])
  }

  function Fund(): seq<Event> {
    [Create(1, 10, 50, 7, 100), CreateBalance(2, Claimable(50, Some(7), true)), Bind(1, 2)]
  }

  function PayOut(): seq<Event> {
    [Lock(3, 1, 11, 12, 2, 50), Submit(3), LedgerApplies(3)]
  }

  function LoseTheAnswer(): seq<Event> {
    [Answer(3, false), Revert(3)]
  }

  function ExpireAndScan(): seq<Event> {
    [Expire(1, 101), ScanExpired(4, 1)] + [ScanGone(4), Refund(4)]
  }

  lemma FundReaches()
    ensures Run(Init(0), Fund()) == Some(FundedGift())
    ensures Legal(Init(0), Fund()) && Play(Init(0), Fund()) == FundedGift()
  {
    RunThree(Init(0), Fund());
    var bound := Apply(Apply(Apply(Init(0), Fund()[0]), Fund()[1]), Fund()[2]);
    assert bound.gifts == FundedGift().gifts && bound.balances == FundedGift().balances;
  }

  function PaidGift(): State {
    RevertedGift().(gifts := map[1 := FundedGift().gifts[1].(status := CLAIMING, recipient := Some(11))],
                    claims := map[3 := Claim(1, 11, 12, 2, 50, Submitted, Applied)])
  }

  lemma PayOutReaches()
    ensures Run(FundedGift(), PayOut()) == Some(PaidGift())
  {
    RunThree(FundedGift(), PayOut());
    var paid := Apply(Apply(Apply(FundedGift(), PayOut()[0]), PayOut()[1]), PayOut()[2]);
    assert paid.gifts == PaidGift().gifts && paid.claims == PaidGift().claims && paid.consumed == PaidGift().consumed;
  }

  lemma LoseTheAnswerReaches()
    ensures Run(PaidGift(), LoseTheAnswer()) == Some(RevertedGift())
  {
    RunThree(PaidGift(), LoseTheAnswer());
    var reverted := Apply(Apply(PaidGift(), LoseTheAnswer()[0]), LoseTheAnswer()[1]);
    assert reverted.gifts == RevertedGift().gifts && reverted.claims == RevertedGift().claims;
  }

  lemma ExpireAndScanReaches()
    ensures Run(RevertedGift(), ExpireAndScan()).Some?
    ensures Run(RevertedGift(), ExpireAndScan()).value.gifts == OneGift(REFUNDED)
    ensures Run(RevertedGift(), ExpireAndScan()).value.consumed == map[2 := PaidOut(3)]
  {
    SeesItExpired();
    hide Run;
    RunAppend(RevertedGift(), [Expire(1, 101), ScanExpired(4, 1)], [ScanGone(4), Refund(4)]);
    RunThree(ScannedGift(), [ScanGone(4), Refund(4)]);
    var gone := Apply(ScannedGift(), ScanGone(4));
    assert Apply(gone, Refund(4)).gifts == OneGift(REFUNDED);
  }

  function ScannedGift(): State {
    RevertedGift().(gifts := OneGift(EXPIRED), scans := map[4 := SawExpired(1, 2)])
  }

  lemma SeesItExpired()
    ensures Run(RevertedGift(), [Expire(1, 101), ScanExpired(4, 1)]) == Some(ScannedGift())
  {
    RunThree(RevertedGift(), [Expire(1, 101), ScanExpired(4, 1)]);
    hide Run;
    var expired := Apply(RevertedGift(), Expire(1, 101));
    assert expired.gifts == OneGift(EXPIRED);
    assert Apply(expired, ScanExpired(4, 1)).scans == ScannedGift().scans;
  }

  /**
   A lock is left behind: the payment fails, the write that gives the lock back fails as well, the call ends. Then
   the sender takes the money back, and the gift is still being claimed.
   */
  lemma LockCanBeLeft() returns (log: seq<Event>, more: seq<Event>)
    ensures log <= more && Legal(Init(0), log) && Legal(Init(0), more) && forall k :: |log| <= k < |more| ==> !ByCaller(more[k], 3)
    ensures InStage(Play(Init(0), log), 3, Failing) && Play(Init(0), log).claims[3].gift == 1
    ensures 1 in Play(Init(0), log).gifts && Play(Init(0), log).gifts[1].status == CLAIMING
    ensures 1 in Play(Init(0), more).gifts && Play(Init(0), more).gifts[1].status == CLAIMING
    ensures TakenBack(Play(Init(0), more), 1)
  {
    FundReaches();
    hide Run, Legal, Play;
    log := Step(Fund(), Lock(3, 1, 11, 12, 2, 50));
    log := Step(log, Submit(3));
    log := Step(log, Answer(3, false));
    more := Step(log, LedgerRejects(3));
    more := Step(more, Reclaim(2));
  }

  lemma Step(log: seq<Event>, e: Event) returns (more: seq<Event>)
    requires Legal(Init(0), log) && Enabled(Play(Init(0), log), e)
    ensures more == log + [e] && Legal(Init(0), more) && Play(Init(0), more) == Apply(Play(Init(0), log), e)
  {
    more := log + [e];
    Extend(Init(0), log, e);
  }

  lemma {:induction false} RunAppend(start: State, first: seq<Event>, second: seq<Event>)
    ensures Run(start, first + second) == if Run(start, first).Some? then Run(Run(start, first).value, second) else None
  {
    if second == [] {
      assert first + second == first;
    } else {
      var init := second[..|second| - 1];
      assert (first + second)[..|first + second| - 1] == first + init;
      RunAppend(start, first, init);
    }
  }

  /** Unfolds a run of at most three steps. */
  lemma RunThree(start: State, log: seq<Event>)
    requires 2 <= |log| <= 3
    ensures var one := if Enabled(start, log[0]) then Some(Apply(start, log[0])) else None;
            var two := if one.Some? && Enabled(one.value, log[1]) then Some(Apply(one.value, log[1])) else None;
            Run(start, log) == if |log| == 2 then two
                               else if two.Some? && Enabled(two.value, log[2]) then Some(Apply(two.value, log[2])) else None
  {
    assert Run(start, []) == Some(start);
    assert log[..1][..0] == [] && log[..2][..1] == log[..1] && Run(start, log[..1]).Some? == Enabled(start, log[0]);
    assert log[..|log|] == log;
  }
}
