/**
 The gift services and jobs as the code runs them: separate database and network calls, with any
 number of other parties' steps in between. Every write is one step of the machine in `Gifts`.
 */
module GiftServices {
  import opened Common
  import opened Gifts

  /** Whose own steps nobody else takes. */
  datatype Actor = Claimant(claim: ClaimId) | Scanner(scan: ScanId) | Anyone

  predicate Owns(actor: Actor, e: Event) {
    match actor
    case Claimant(c) =>
      && (e.Lock? || e.Submit? || e.Answer? || e.MarkClaimed? || e.MarkFails? || e.Revert?)
      && e.claim == c
    case Scanner(k) => (e.ScanExpired? || e.ScanGone? || e.Refund?) && e.scan == k
    case Anyone => false
  }

  /** What every later state keeps: the facts of a gift's row, and a balance once bound. */
  ghost predicate RowsKeep(s: State, t: State) {
    && (forall g :: g in s.gifts ==>
          && g in t.gifts && t.gifts[g].sender == s.gifts[g].sender && t.gifts[g].amount == s.gifts[g].amount
          && t.gifts[g].memo == s.gifts[g].memo && t.gifts[g].expiresAt == s.gifts[g].expiresAt
          && (s.gifts[g].balance.Some? ==> t.gifts[g].balance == s.gifts[g].balance)
          && Leads(s.gifts[g].status, t.gifts[g].status))
    && (forall b :: b in s.balances ==> b in t.balances && t.balances[b] == s.balances[b])
    && (forall b :: b in s.consumed ==> b in t.consumed && t.consumed[b] == s.consumed[b])
  }

  ghost predicate LocalKeeps(actor: Actor, s: State, t: State) {
    match actor
    case Claimant(c) =>
      && (c in s.claims <==> c in t.claims)
      && (c in s.claims ==> t.claims[c] == s.claims[c].(payment := t.claims[c].payment))
      && (c in s.claims && s.claims[c].payment == Applied ==> t.claims[c].payment == Applied)
    case Scanner(k) => (k in s.scans <==> k in t.scans) && (k in s.scans ==> t.scans[k] == s.scans[k])
    case Anyone => true
  }

  lemma RowsKeepFurther(s: State, t: State, u: State)
    requires RowsKeep(s, t) && RowsKeep(t, u)
    ensures RowsKeep(s, u)
  {
  }

  lemma StepKeepsRows(s: State, e: Event)
    requires Enabled(s, e) && ActorOk(s, e)
    ensures RowsKeep(s, Apply(s, e))
  {
    StepOnlyAdds(s, e);
    forall g | g in s.gifts ensures g in Apply(s, e).gifts && Leads(s.gifts[g].status, Apply(s, e).gifts[g].status) {
      StepMovesStatus(s, e, g);
    }
  }

  lemma StepKeepsLocal(actor: Actor, s: State, e: Event)
    requires Enabled(s, e) && !Owns(actor, e)
    ensures LocalKeeps(actor, s, Apply(s, e))
  {
  }

  lemma {:induction false} RunKeeps(agent: nat, actor: Actor, log: seq<Event>, more: seq<Event>)
    requires log <= more && Legal(Init(agent), more)
    ensures Legal(Init(agent), log)
    ensures RowsKeep(Play(Init(agent), log), Play(Init(agent), more))
    ensures (forall i :: |log| <= i < |more| ==> !Owns(actor, more[i])) ==>
              LocalKeeps(actor, Play(Init(agent), log), Play(Init(agent), more))
    decreases |more|
  {
    if |log| < |more| {
      var before, e := more[..|more| - 1], more[|more| - 1];
      RunKeeps(agent, actor, log, before);
      EveryRunKeepsInv(agent, before);
      var s := Play(Init(agent), before);
      ActorIsOk(s, e);
      StepKeepsRows(s, e);
      RowsKeepFurther(Play(Init(agent), log), s, Apply(s, e));
      if forall i :: |log| <= i < |more| ==> !Owns(actor, more[i]) {
        StepKeepsLocal(actor, s, e);
      }
    } else {
      assert log == more;
    }
  }

  /** Nobody acted but the claim itself, the ledger on its payment, and the expiry of the gift at the claim's own time. */
  ghost predicate Undisturbed(me: ClaimId, g: GiftId, now: nat, log: seq<Event>, more: seq<Event>) {
    log <= more && forall k :: |log| <= k < |more| ==> ByClaim(more[k], me) || more[k] == Expire(g, now)
  }

  lemma UndisturbedFrom(me: ClaimId, g: GiftId, now: nat, a: seq<Event>, b: seq<Event>, c: seq<Event>)
    requires a <= b <= c
    ensures Undisturbed(me, g, now, a, c) ==> Undisturbed(me, g, now, a, b) && Undisturbed(me, g, now, b, c)
  {
  }

  /** Before the claim has a lock nothing happens then to a gift that is not past its date. */
  lemma {:induction false} NothingHappens(agent: nat, me: ClaimId, g: GiftId, now: nat, log: seq<Event>, more: seq<Event>)
    requires Undisturbed(me, g, now, log, more) && Legal(Init(agent), more) && me !in Play(Init(agent), more).claims
    requires forall k :: |log| <= k < |more| ==> !Owns(Claimant(me), more[k])
    ensures Legal(Init(agent), log)
    ensures var s, t := Play(Init(agent), log), Play(Init(agent), more);
            (g in s.gifts <==> g in t.gifts) && (g in s.gifts ==> t.gifts[g].expiresAt == s.gifts[g].expiresAt)
            && (g in s.gifts && now <= s.gifts[g].expiresAt ==> t == s)
    decreases |more|
  {
    hide Apply, Enabled;
    if |log| < |more| {
      var before, e := more[..|more| - 1], more[|more| - 1];
      ClaimsStay(Play(Init(agent), before), e);
      NothingHappens(agent, me, g, now, log, before);
      OnlyExpires(Play(Init(agent), before), e, me, g, now);
    } else {
      assert log == more;
    }
  }

  lemma ClaimsStay(s: State, e: Event)
    requires Enabled(s, e)
    ensures forall c :: c in s.claims ==> c in Apply(s, e).claims
  {
  }

  lemma OnlyExpires(s: State, e: Event, me: ClaimId, g: GiftId, now: nat)
    requires Enabled(s, e) && me !in s.claims && (ByClaim(e, me) || e == Expire(g, now)) && !Owns(Claimant(me), e)
    ensures e == Expire(g, now) && g in s.gifts && s.gifts[g].expiresAt < now
    ensures g in Apply(s, e).gifts && Apply(s, e).gifts[g].expiresAt == s.gifts[g].expiresAt
  {
  }

  class Database {
    const agent: nat
    var st: State
    ghost var log: seq<Event>
    /** How many of the calls made through this object have failed. */
    ghost var failures: nat

    ghost predicate Valid()
      reads this`st, this`log
    {
      Legal(Init(agent), log) && st == Play(Init(agent), log)
    }

    constructor (agent: nat)
      ensures Valid() && this.agent == agent && log == []
    {
      this.agent := agent;
      st := Init(agent);
      log, failures := [], 0;
    }

    /** Any number of steps by everyone else; callers know nothing else about it. */
    method Others(ghost actor: Actor)
      requires Valid()
      modifies this`st, this`log
      ensures Valid() && old(log) <= log
      ensures forall i :: |old(log)| <= i < |log| ==> !Owns(actor, log[i])
    {
    }

    method Yield(ghost actor: Actor)
      requires Valid()
      modifies this`st, this`log
      ensures Valid() && Inv(st) && old(log) <= log
      ensures RowsKeep(old(st), st) && LocalKeeps(actor, old(st), st)
      ensures forall i :: |old(log)| <= i < |log| ==> !Owns(actor, log[i])
    {
      Others(actor);
      RunKeeps(agent, actor, old(log), log);
      EveryRunKeepsInv(agent, log);
    }

    method Perform(e: Event)
      requires Valid() && Enabled(st, e)
      modifies this`st, this`log
      ensures Valid() && Inv(st) && log == old(log) + [e]
      ensures st == Apply(old(st), e) && RowsKeep(old(st), st)
    {
      log := log + [e];
      Extend(Init(agent), old(log), e);
      st := Apply(st, e);
      RunKeeps(agent, Anyone, old(log), log);
      EveryRunKeepsInv(agent, log);
    }

    /** A call that may fail. */
    method Call() returns (ok: bool)
      modifies this`failures
      ensures failures == old(failures) + if ok then 0 else 1
    {
      ok := *;
      if !ok {
        failures := failures + 1;
      }
    }
  }

  /** The answers of the route; `Broken` is an error raised by the database. */
  datatype Outcome = Claimed | NotFound | Gone | Conflict | Forbidden | BadRequest | Unavailable | Broken

  /** What became of the call's lock: none left, or which of the two writes around it went wrong. */
  datatype LockLeft = NoLock | LockUnanswered | RevertFailed

  /** The recipient as the claim reads it: whether the account is newer than the gift, and its wallet. */
  datatype Recipient = Recipient(user: UserId, newer: bool, wallet: Option<Address>)

  /** Why a claim is refused, as the rows are at that moment. */
  ghost predicate Refused(s: State, outcome: Outcome, g: GiftId, user: UserId, recipient: Option<Recipient>, destination: Address) {
    match outcome
    case NotFound => g !in s.gifts || recipient.None? || recipient.value.wallet.None?
    case Conflict => g in s.gifts && (s.gifts[g].status != FUNDED || s.gifts[g].balance.None?)
    case Forbidden => g in s.gifts && (s.gifts[g].sender == user || (recipient.Some? && !recipient.value.newer))
    case BadRequest => recipient.Some? && recipient.value.wallet.Some? && recipient.value.wallet != Some(destination)
    case _ => true
  }

  /** The checks on an unexpired gift, in the order they are made. */
  function Refusal(gift: Gift, user: UserId, recipient: Option<Recipient>, destination: Address): Option<Outcome> {
    if gift.status != FUNDED then Some(Conflict)
    else if gift.sender == user then Some(Forbidden)
    else if recipient.None? then Some(NotFound)
    else if !recipient.value.newer then Some(Forbidden)
    else if recipient.value.wallet.None? then Some(NotFound)
    else if recipient.value.wallet.value != destination then Some(BadRequest)
    else if gift.balance.None? then Some(Conflict)
    else None
  }

  /** What a claim is answered if nothing fails and nobody interferes, outcome by outcome. */
  ghost predicate AnsweredFor(s: State, outcome: Outcome, g: GiftId, user: UserId, recipient: Option<Recipient>, destination: Address, now: nat) {
    && (outcome == NotFound <==>
          || g !in s.gifts
          || (IsOpenFor(s.gifts[g], user, now) && (recipient.None? || (recipient.value.newer && recipient.value.wallet.None?))))
    && (outcome == Gone <==> g in s.gifts && now > s.gifts[g].expiresAt)
    && (outcome == Conflict <==> g in s.gifts && now <= s.gifts[g].expiresAt && s.gifts[g].status != FUNDED)
    && (outcome == Forbidden <==>
          && g in s.gifts && now <= s.gifts[g].expiresAt && s.gifts[g].status == FUNDED
          && (s.gifts[g].sender == user || (recipient.Some? && !recipient.value.newer)))
    && (outcome == BadRequest <==>
          && g in s.gifts && IsOpenFor(s.gifts[g], user, now)
          && recipient.Some? && recipient.value.newer && recipient.value.wallet.Some? && recipient.value.wallet.value != destination)
    && (outcome == Claimed <==>
          && g in s.gifts && IsOpenFor(s.gifts[g], user, now)
          && recipient.Some? && recipient.value.newer && recipient.value.wallet == Some(destination))
  }

  predicate IsOpenFor(gift: Gift, user: UserId, now: nat) {
    now <= gift.expiresAt && gift.status == FUNDED && gift.sender != user
  }

  lemma RefusalIsAnswer(s: State, g: GiftId, user: UserId, recipient: Option<Recipient>, destination: Address, now: nat)
    requires Inv(s)
    ensures g !in s.gifts ==> AnsweredFor(s, NotFound, g, user, recipient, destination, now)
    ensures g in s.gifts && now > s.gifts[g].expiresAt ==> AnsweredFor(s, Gone, g, user, recipient, destination, now)
    ensures g in s.gifts && now <= s.gifts[g].expiresAt ==>
              var refusal := Refusal(s.gifts[g], user, recipient, destination);
              AnsweredFor(s, if refusal.Some? then refusal.value else Claimed, g, user, recipient, destination, now)
  {
    if g in s.gifts {
      assert GiftOk(s, g);
    }
  }

  lemma NoRefusalMeans(gift: Gift, user: UserId, recipient: Option<Recipient>, destination: Address)
    requires Refusal(gift, user, recipient, destination).None?
    ensures recipient.Some? && recipient.value.newer && recipient.value.wallet == Some(destination)
    ensures gift.status == FUNDED && gift.sender != user && gift.balance.Some?
  {
  }

  lemma RefusalKinds(gift: Gift, user: UserId, recipient: Option<Recipient>, destination: Address)
    ensures var refusal := Refusal(gift, user, recipient, destination);
            refusal.Some? ==> refusal.value in {NotFound, Conflict, Forbidden, BadRequest}
  {
  }

  /** A lock is left by the failure of the write around it alone: after a failed delivery that is the second failure. */
  function Failures(outcome: Outcome, left: LockLeft): nat {
    match left
    case NoLock => if outcome == Unavailable then 1 else 0
    case LockUnanswered => 1
    case RevertFailed => 2
  }

  /** How far a call is whose lock was left behind: an unanswered lock has sent no payment. */
  ghost predicate IsLeft(s: State, c: ClaimId, left: LockLeft) {
    && c in s.claims
    && match left
       case NoLock => s.claims[c].stage == Finished
       case LockUnanswered => s.claims[c].stage == Locked
       case RevertFailed => s.claims[c].stage in {Locked, Failing}
  }

  lemma RefusedMeans(s: State, g: GiftId, user: UserId, recipient: Option<Recipient>, destination: Address)
    ensures g !in s.gifts ==> Refused(s, NotFound, g, user, recipient, destination)
    ensures g in s.gifts ==>
              var refusal := Refusal(s.gifts[g], user, recipient, destination);
              refusal.Some? ==> Refused(s, refusal.value, g, user, recipient, destination)
    ensures g in s.gifts && s.gifts[g].status != FUNDED ==> Refused(s, Conflict, g, user, recipient, destination)
    ensures forall o :: o in {Claimed, Gone, Unavailable, Broken} ==> Refused(s, o, g, user, recipient, destination)
  {
  }

  lemma FactsKept(s: State, t: State, g: GiftId)
    requires RowsKeep(s, t)
    ensures g in s.gifts ==> g in t.gifts && t.gifts[g].expiresAt == s.gifts[g].expiresAt
  {
  }

  /** What was read is what the call found when it began, as far as the answer goes. */
  lemma AnswersSame(agent: nat, me: ClaimId, g: GiftId, now: nat, log: seq<Event>, more: seq<Event>,
                    user: UserId, recipient: Option<Recipient>, destination: Address)
    requires log <= more && Legal(Init(agent), more) && Legal(Init(agent), log)
    requires me !in Play(Init(agent), more).claims && forall k :: |log| <= k < |more| ==> !Owns(Claimant(me), more[k])
    ensures Undisturbed(me, g, now, log, more) ==>
              forall o :: AnsweredFor(Play(Init(agent), more), o, g, user, recipient, destination, now) ==>
                AnsweredFor(Play(Init(agent), log), o, g, user, recipient, destination, now)
  {
    if Undisturbed(me, g, now, log, more) {
      hide Run, Legal, Play, Undisturbed;
      NothingHappens(agent, me, g, now, log, more);
    }
  }

  lemma StillOpen(agent: nat, me: ClaimId, g: GiftId, now: nat, log: seq<Event>, more: seq<Event>)
    requires log <= more && Legal(Init(agent), more) && Legal(Init(agent), log)
    requires me !in Play(Init(agent), more).claims && forall k :: |log| <= k < |more| ==> !Owns(Claimant(me), more[k])
    requires g in Play(Init(agent), log).gifts && now <= Play(Init(agent), log).gifts[g].expiresAt
    ensures Undisturbed(me, g, now, log, more) ==> Play(Init(agent), more) == Play(Init(agent), log)
  {
    if Undisturbed(me, g, now, log, more) {
      hide Run, Legal, Play, Undisturbed;
      NothingHappens(agent, me, g, now, log, more);
    }
  }

  class GiftsService {
    const db: Database

    constructor (db: Database)
      ensures this.db == db
    {
      this.db := db;
    }

    /**
     A claim. Reported as claimed, the gift was not past its date, the account is newer than the gift, and the
     whole gift was paid to the caller's wallet and recorded. Past its date a gift is locked by no claim. A call that
     returns still holds its lock exactly if the write that gives it back failed, or the answer to the one that
     took it was lost; nobody gives it back then. A call that never got a lock sent no payment. If nothing fails and
     nobody interferes, each answer is given exactly for its reason.
     */
    method ClaimGift(me: ClaimId, g: GiftId, user: UserId, recipient: Option<Recipient>, destination: Address, now: nat)
      returns (outcome: Outcome, ghost left: LockLeft)
      requires db.Valid() && me !in db.st.claims
      requires recipient.Some? ==> recipient.value.user == user
      modifies db
      ensures db.Valid() && Inv(db.st) && RowsKeep(old(db.st), db.st) && old(db.log) <= db.log
      ensures outcome.Claimed? ==>
                && me in db.st.claims && g in db.st.gifts
                && db.st.claims[me].gift == g && db.st.claims[me].payment == Applied && db.st.claims[me].user == user
                && recipient.Some? && recipient.value.wallet == Some(destination) && db.st.claims[me].destination == destination
                && db.st.gifts[g].status == CLAIMED && db.st.gifts[g].claimTx == Some(me)
      ensures outcome.Claimed? ==> now <= db.st.gifts[g].expiresAt && recipient.value.newer
      ensures g in old(db.st).gifts && now > old(db.st).gifts[g].expiresAt ==> outcome in {Gone, Broken} && me !in db.st.claims
      ensures g in db.st.gifts && now > db.st.gifts[g].expiresAt ==> outcome in {NotFound, Gone, Broken} && me !in db.st.claims
      ensures Undisturbed(me, g, now, old(db.log), db.log) && db.failures == old(db.failures) ==>
                AnsweredFor(old(db.st), outcome, g, user, recipient, destination, now)
      ensures me in db.st.claims ==> outcome in {Claimed, Unavailable, Broken} && db.st.claims[me].gift == g
      ensures left != NoLock <==> me in db.st.claims && db.st.claims[me].stage != Finished
      ensures left != NoLock ==> outcome == Broken && IsLeft(db.st, me, left)
      ensures outcome.Gone? ==> g in db.st.gifts && db.st.gifts[g].expiresAt < now && db.st.gifts[g].status !in {CREATED, FUNDED}
      ensures Refused(db.st, outcome, g, user, recipient, destination)
      ensures outcome in {Unavailable, Broken} ==> db.failures > old(db.failures)
      ensures db.failures == old(db.failures) + Failures(outcome, left) || (outcome == Broken && left == NoLock)
    {
      hide RowsKeep, Inv, Refused, IsLeft, AnsweredFor, Undisturbed, Run, Legal, Play, Refusal;
      left := NoLock;
      db.Yield(Claimant(me));
      ghost var found, read := db.st, db.log;
      RefusedMeans(db.st, g, user, recipient, destination);
      RefusalIsAnswer(db.st, g, user, recipient, destination, now);
      FactsKept(old(db.st), found, g);
      AnswersSame(db.agent, me, g, now, old(db.log), read, user, recipient, destination);
      var ok := db.Call();
      if !ok {
        return Broken, left;
      }
      if g !in db.st.gifts {
        return NotFound, left;
      }
      var gift := db.st.gifts[g];
      if now > gift.expiresAt {
        ok := ExpireOne(me, g, gift, now);
        RowsKeepFurther(old(db.st), found, db.st);
        RefusedMeans(db.st, g, user, recipient, destination);
        FactsKept(found, db.st, g);
        UndisturbedFrom(me, g, now, old(db.log), read, db.log);
        return if ok then Gone else Broken, left;
      }
      var refusal := Refusal(gift, user, recipient, destination);
      RefusalKinds(gift, user, recipient, destination);
      if refusal.Some? {
        return refusal.value, left;
      }
      NoRefusalMeans(gift, user, recipient, destination);
      ok := db.Call();
      if !ok {
        return Broken, left;
      }
      outcome, left := LockAndDeliver(me, g, gift, user, destination, now);
      RowsKeepFurther(old(db.st), found, db.st);
      RefusedMeans(db.st, g, user, recipient, destination);
      FactsKept(found, db.st, g);
      UndisturbedFrom(me, g, now, old(db.log), read, db.log);
    }

    /** The lock, if the gift is still funded, and the delivery under it. */
    method LockAndDeliver(me: ClaimId, g: GiftId, gift: Gift, user: UserId, destination: Address, ghost now: nat)
      returns (outcome: Outcome, ghost left: LockLeft)
      requires db.Valid() && Inv(db.st) && me !in db.st.claims && g in db.st.gifts && db.st.gifts[g] == gift
      requires gift.status == FUNDED && gift.balance.Some? && gift.sender != user && now <= gift.expiresAt
      modifies db
      ensures db.Valid() && Inv(db.st) && RowsKeep(old(db.st), db.st) && old(db.log) <= db.log
      ensures outcome in {Claimed, Conflict, Unavailable, Broken}
      ensures Undisturbed(me, g, now, old(db.log), db.log) && db.failures == old(db.failures) ==> outcome == Claimed
      ensures outcome.Conflict? ==> g in db.st.gifts && db.st.gifts[g].status != FUNDED && me !in db.st.claims
      ensures outcome in {Unavailable, Broken} ==> db.failures > old(db.failures)
      ensures db.failures == old(db.failures) + Failures(outcome, left) || (outcome == Broken && left == NoLock)
      ensures outcome in {Claimed, Unavailable} ==> InStage(db.st, me, Finished)
      ensures me in db.st.claims ==> db.st.claims[me].gift == g
      ensures left != NoLock <==> me in db.st.claims && db.st.claims[me].stage != Finished
      ensures left != NoLock ==> outcome == Broken && IsLeft(db.st, me, left)
      ensures outcome.Claimed? ==>
                && db.st.claims[me].gift == g && db.st.claims[me].payment == Applied && db.st.claims[me].user == user
                && db.st.claims[me].destination == destination
                && g in db.st.gifts && db.st.gifts[g].status == CLAIMED && db.st.gifts[g].claimTx == Some(me)
    {
      hide RowsKeep, Inv, Undisturbed, Run, Legal, Play;
      left := NoLock;
      var refused := TakeLock(me, g, gift, user, destination, now);
      if refused.Some? {
        return refused.value, left;
      }
      ghost var s, locked := db.st, db.log;
      var ok := db.Call();
      if !ok {
        return Broken, LockUnanswered;
      }
      outcome, left := Deliver(me, g);
      RowsKeepFurther(old(db.st), s, db.st);
      UndisturbedFrom(me, g, now, old(db.log), locked, db.log);
    }

    /** The compare-and-set that takes the lock; none is taken if it fails or somebody else was first. */
    method TakeLock(me: ClaimId, g: GiftId, gift: Gift, user: UserId, destination: Address, ghost now: nat) returns (refused: Option<Outcome>)
      requires db.Valid() && Inv(db.st) && me !in db.st.claims && g in db.st.gifts && db.st.gifts[g] == gift
      requires gift.status == FUNDED && gift.balance.Some? && gift.sender != user && now <= gift.expiresAt
      modifies db
      ensures db.Valid() && Inv(db.st) && RowsKeep(old(db.st), db.st) && old(db.log) <= db.log
      ensures refused in {None, Some(Conflict), Some(Broken)}
      ensures db.failures == old(db.failures) + if refused == Some(Broken) then 1 else 0
      ensures Undisturbed(me, g, now, old(db.log), db.log) ==> refused != Some(Conflict)
      ensures refused.Some? ==> me !in db.st.claims
      ensures refused == Some(Conflict) ==> g in db.st.gifts && db.st.gifts[g].status != FUNDED
      ensures refused.None? ==> InStage(db.st, me, Locked) && db.st.claims[me].gift == g
      ensures refused.None? ==> db.st.claims[me].user == user && db.st.claims[me].destination == destination
    {
      hide RowsKeep, Inv, Undisturbed, Run, Legal, Play;
      db.Yield(Claimant(me));
      SnapshotHolds(old(db.st), db.st, g);
      StillOpen(db.agent, me, g, now, old(db.log), db.log);
      var ok := db.Call();
      if !ok {
        return Some(Broken);
      }
      if db.st.gifts[g].status != FUNDED {
        return Some(Conflict);
      }
      ghost var s := db.st;
      db.Perform(Lock(me, g, user, destination, gift.balance.value, gift.amount));
      RowsKeepFurther(old(db.st), s, db.st);
      return None;
    }

    /** The write that expires the gift if nobody claimed it; it may fail. */
    method ExpireOne(ghost me: ClaimId, g: GiftId, gift: Gift, now: nat) returns (ok: bool)
      requires db.Valid() && Inv(db.st) && g in db.st.gifts && db.st.gifts[g] == gift && gift.expiresAt < now
      modifies db
      ensures db.Valid() && Inv(db.st) && RowsKeep(old(db.st), db.st) && old(db.log) <= db.log
      ensures g in db.st.gifts && db.st.gifts[g].expiresAt < now && (ok ==> db.st.gifts[g].status !in {CREATED, FUNDED})
      ensures me in db.st.claims <==> me in old(db.st.claims)
      ensures db.failures == old(db.failures) + if ok then 0 else 1
    {
      db.Yield(Claimant(me));
      ok := db.Call();
      if !ok {
        return;
      }
      ghost var s := db.st;
      if db.st.gifts[g].status in {CREATED, FUNDED} {
        db.Perform(Expire(g, now));
      }
      RowsKeepFurther(old(db.st), s, db.st);
    }

    /**
     Claim and pay on the ledger, record it, and give the lock back if anything failed on the way. The write that
     gives it back may itself fail, and then nothing else does.
     */
    method Deliver(me: ClaimId, g: GiftId) returns (outcome: Outcome, ghost left: LockLeft)
      requires db.Valid() && Inv(db.st) && InStage(db.st, me, Locked) && db.st.claims[me].gift == g
      modifies db
      ensures db.Valid() && Inv(db.st) && RowsKeep(old(db.st), db.st) && old(db.log) <= db.log
      ensures outcome in {Claimed, Unavailable, Broken} && me in db.st.claims
      ensures outcome in {Claimed, Unavailable} ==> left == NoLock
      ensures left == if db.st.claims[me].stage == Finished then NoLock else RevertFailed
      ensures left != NoLock ==> IsLeft(db.st, me, left)
      ensures db.failures == old(db.failures) + match outcome case Claimed => 0 case Unavailable => 1 case _ => 2
      ensures db.st.claims[me] == old(db.st.claims[me]).(stage := db.st.claims[me].stage, payment := db.st.claims[me].payment)
      ensures outcome.Claimed? ==>
                && db.st.claims[me].payment == Applied && g in db.st.gifts
                && db.st.gifts[g].status == CLAIMED && db.st.gifts[g].claimTx == Some(me)
    {
      hide RowsKeep, Inv;
      left := NoLock;
      db.Yield(Claimant(me));
      ghost var s := db.st;
      var paid := ClaimAndPay(me);
      RowsKeepFurther(old(db.st), s, db.st);
      if paid {
        s := db.st;
        var recorded := Record(me, g);
        RowsKeepFurther(old(db.st), s, db.st);
        if recorded {
          return Claimed, left;
        }
      }
      s := db.st;
      db.Yield(Claimant(me));
      RowsKeepFurther(old(db.st), s, db.st);
      var ok := db.Call();
      if !ok {
        return Broken, RevertFailed;
      }
      s := db.st;
      db.Perform(Revert(me));
      RowsKeepFurther(old(db.st), s, db.st);
      ok := db.Call();
      outcome := if ok then Unavailable else Broken;
    }

    /** The answer is trusted only when positive; without one the payment may still be applied later. */
    method ClaimAndPay(me: ClaimId) returns (paid: bool)
      requires db.Valid() && Inv(db.st) && InStage(db.st, me, Locked)
      modifies db
      ensures db.Valid() && Inv(db.st) && RowsKeep(old(db.st), db.st) && old(db.log) <= db.log
      ensures me in db.st.claims && db.st.claims[me].stage in (if paid then {Paid} else {Failing, Locked})
      ensures db.st.claims[me] ==
              old(db.st.claims[me]).(stage := db.st.claims[me].stage, payment := db.st.claims[me].payment)
      ensures paid ==> db.st.claims[me].payment == Applied
      ensures db.failures == old(db.failures) + if paid then 0 else 1
    {
      hide RowsKeep, Inv;
      db.Yield(Claimant(me));
      paid := db.Call();
      if !paid {
        return false;
      }
      ghost var s := db.st;
      db.Perform(Submit(me));
      RowsKeepFurther(old(db.st), s, db.st);
      s := db.st;
      db.Yield(Claimant(me));
      RowsKeepFurther(old(db.st), s, db.st);
      if db.st.claims[me].payment == Applied {
        paid := db.Call();
      } else {
        paid := false;
        db.failures := db.failures + 1;
      }
      s := db.st;
      db.Perform(Answer(me, paid));
      RowsKeepFurther(old(db.st), s, db.st);
    }

    method Record(me: ClaimId, g: GiftId) returns (recorded: bool)
      requires db.Valid() && Inv(db.st) && InStage(db.st, me, Paid) && db.st.claims[me].gift == g
      requires db.st.claims[me].payment == Applied
      modifies db
      ensures db.Valid() && Inv(db.st) && RowsKeep(old(db.st), db.st) && old(db.log) <= db.log
      ensures me in db.st.claims && db.st.claims[me].stage == (if recorded then Finished else Failing)
      ensures db.st.claims[me] == old(db.st.claims[me]).(stage := db.st.claims[me].stage)
      ensures recorded ==> g in db.st.gifts && db.st.gifts[g].status == CLAIMED && db.st.gifts[g].claimTx == Some(me)
      ensures db.failures == old(db.failures) + if recorded then 0 else 1
    {
      db.Yield(Claimant(me));
      ghost var s := db.st;
      ClaimHasGift(db.st, me);
      hide RowsKeep, Inv;
      recorded := db.Call();
      var written: bool := *;
      if !recorded && !written {
        db.Perform(MarkFails(me));
      } else {
        db.Perform(MarkClaimed(me, recorded));
      }
      RowsKeepFurther(old(db.st), s, db.st);
    }
  }

  /** An unclaimed gift past its date is expired; any other is left alone. */
  function Expired(gift: Gift, now: nat): Gift {
    if gift.status in {CREATED, FUNDED} && gift.expiresAt < now then gift.(status := EXPIRED) else gift
  }

  lemma ExpireWrites(s: State, g: GiftId, now: nat)
    requires Enabled(s, Expire(g, now))
    ensures g in s.gifts && Apply(s, Expire(g, now)) == s.(gifts := s.gifts[g := Expired(s.gifts[g], now)])
  {
  }

  const PENDING_PAGE := 50
  const BALANCE_PAGE := 200

  function WaitingGifts(s: State): set<GiftId> {
    set g | g in s.gifts && s.gifts[g].status == CREATED
  }

  /** The claimable balances on the ledger, of any asset: the page is cut before the asset is looked at. */
  function Claimables(s: State): set<BalanceId> {
    set b | b in s.balances && OnLedger(s, b)
  }

  /** At most so many of them, and all if there are fewer. */
  ghost predicate IsLimited(some: set<nat>, all: set<nat>, limit: nat) {
    some <= all && |some| <= limit && (|some| < limit ==> some == all)
  }

  lemma LimitedIsPart(some: set<nat>, all: set<nat>, limit: nat)
    requires IsLimited(some, all, limit)
    ensures some <= all
  {
  }

  /** Gifts that wait for their funding, at most 50, and every one if there are fewer. */
  ghost predicate ReadsWaiting(s: State, read: set<GiftId>) {
    && |read| <= 50 && (forall g :: g in read ==> g in s.gifts && s.gifts[g].status == CREATED)
    && (|read| < 50 ==> forall g :: g in s.gifts && s.gifts[g].status == CREATED ==> g in read)
  }

  /** Balances not yet consumed, at most 200, and every one if there are fewer. */
  ghost predicate ReadsLedger(s: State, page: set<BalanceId>) {
    && |page| <= 200 && (forall b :: b in page ==> b in s.balances && b !in s.consumed)
    && (|page| < 200 ==> forall b :: b in s.balances && b !in s.consumed ==> b in page)
  }

  lemma LimitedReadsWaiting(s: State, read: set<GiftId>)
    requires IsLimited(read, WaitingGifts(s), PENDING_PAGE)
    ensures ReadsWaiting(s, read)
  {
  }

  lemma LimitedReadsLedger(s: State, page: set<BalanceId>)
    requires IsLimited(page, Claimables(s), BALANCE_PAGE)
    ensures ReadsLedger(s, page)
  {
  }

  class GiftJobs {
    const db: Database
    const scan: ScanId

    constructor (db: Database, scan: ScanId)
      ensures this.db == db && this.scan == scan
    {
      this.db := db;
      this.scan := scan;
    }

    /** One bulk update: exactly the unclaimed gifts past their date become EXPIRED. */
    method ExpireGifts(now: nat)
      requires db.Valid() && Inv(db.st)
      modifies db
      ensures db.Valid() && Inv(db.st) && old(db.log) <= db.log
      ensures db.st == old(db.st).(gifts := db.st.gifts) && db.st.gifts.Keys == old(db.st.gifts.Keys)
      ensures forall g :: g in old(db.st.gifts) ==>
                db.st.gifts[g] == Expired(old(db.st.gifts[g]), now)
    {
      hide Inv, RowsKeep, Run, Legal, Play, Apply, Enabled;
      var left := db.st.gifts.Keys;
      while left != {}
        invariant db.Valid() && Inv(db.st) && old(db.log) <= db.log
        invariant db.st == old(db.st).(gifts := db.st.gifts) && db.st.gifts.Keys == old(db.st.gifts.Keys)
        invariant left <= db.st.gifts.Keys
        invariant forall g :: g in left ==> db.st.gifts[g] == old(db.st.gifts[g])
        invariant forall g :: g in old(db.st.gifts) && g !in left ==>
                    db.st.gifts[g] == Expired(old(db.st.gifts[g]), now)
      {
        var g :| g in left;
        left := left - {g};
        if db.st.gifts[g].status in {CREATED, FUNDED} && db.st.gifts[g].expiresAt < now {
          ExpireWrites(db.st, g, now);
          db.Perform(Expire(g, now));
        }
      }
    }

    /**
     Binds listed balances to the pending gifts their funding memo names, if the amount is right. It looks at
     some 50 pending gifts and a page of 200 balances; without a failure it misses none of those: a gift it read as
     pending, whose balance was on the page, is pending no more, unless that balance was already bound.
     */
    method FundPendingGifts()
      returns (bound: set<GiftId>, ghost start: State, ghost listing: State, ghost read: set<GiftId>, ghost page: set<BalanceId>)
      requires db.Valid() && Inv(db.st)
      modifies db
      ensures db.Valid() && Inv(db.st) && RowsKeep(old(db.st), db.st) && old(db.log) <= db.log
      ensures start == old(db.st) && RowsKeep(start, listing) && RowsKeep(listing, db.st)
      ensures AllBound(db.st, bound)
      ensures ReadsWaiting(start, read)
      ensures db.failures == old(db.failures) ==> ReadsLedger(listing, page)
      ensures db.failures == old(db.failures) ==>
                forall g, b :: g in read && b in page && Due(start, listing, g, b) ==> g in db.st.gifts && db.st.gifts[g].status != CREATED
    {
      hide RowsKeep, Inv, Due, AllHandled, PendingByMemo, AllBound, AllUsdc, Run, IsLimited, ReadsWaiting, ReadsLedger;
      start := db.st;
      MemosAreUnique(start);
      var taken := Limited(WaitingGifts(db.st), PENDING_PAGE);
      read, page := taken, {};
      LimitedIsPart(taken, WaitingGifts(start), PENDING_PAGE);
      LimitedReadsWaiting(start, taken);
      var pending := map g | g in taken :: db.st.gifts[g].memo := g;
      PendingHolds(start, pending);
      db.Yield(Anyone);
      PendingKept(start, db.st, pending);
      listing := db.st;
      RowsKeepSelf(listing);
      var answered := db.Call();
      if !answered {
        NoneBound(db.st);
        return {}, start, listing, read, page;
      }
      var records := Limited(Claimables(db.st), BALANCE_PAGE);
      page := records;
      LimitedIsPart(records, Claimables(listing), BALANCE_PAGE);
      LimitedReadsLedger(listing, records);
      var listed := set b | b in records && db.st.balances[b].usdc;
      UsdcHolds(db.st, listed);
      var known := set g | g in db.st.gifts && db.st.gifts[g].balance.Some? :: db.st.gifts[g].balance.value;
      bound := BindListed(pending, listed, known);
      RowsKeepFurther(start, listing, db.st);
      if db.failures == old(db.failures) {
        ListedIsAll(listing, records, listed, known);
        DueIsHandled(start, listing, db.st, taken, pending, records, listed - known);
      }
    }

    /** What a query with a limit returns: nothing says which ones. */
    method Limited(all: set<nat>, limit: nat) returns (some: set<nat>)
      ensures IsLimited(some, all, limit)
    {
      var left := all;
      some := {};
      while left != {} && |some| < limit
        invariant some <= all && left <= all && |some| <= limit && left + some == all && left !! some
      {
        var x :| x in left;
        left := left - {x};
        some := some + {x};
      }
    }

    method BindListed(pending: map<Memo, GiftId>, listed: set<BalanceId>, known: set<BalanceId>) returns (bound: set<GiftId>)
      requires db.Valid() && Inv(db.st) && PendingByMemo(db.st, pending) && AllUsdc(db.st, listed)
      modifies db
      ensures db.Valid() && Inv(db.st) && RowsKeep(old(db.st), db.st) && old(db.log) <= db.log && db.failures >= old(db.failures)
      ensures AllBound(db.st, bound)
      ensures db.failures == old(db.failures) ==> AllHandled(db.st, pending, listed - known)
    {
      hide RowsKeep, Inv, AllHandled, PendingByMemo, AllBound, AllUsdc, Run;
      bound := {};
      var left := listed - known;
      ghost var done: set<BalanceId> := {};
      NoneBound(db.st);
      NoneHandled(db.st, pending);
      RowsKeepSelf(db.st);
      while left != {}
        invariant db.Valid() && Inv(db.st) && RowsKeep(old(db.st), db.st) && old(db.log) <= db.log && db.failures >= old(db.failures)
        invariant PendingByMemo(db.st, pending) && AllUsdc(db.st, listed) && AllBound(db.st, bound)
        invariant left + done == listed - known
        invariant db.failures == old(db.failures) ==> AllHandled(db.st, pending, done)
      {
        var b :| b in left;
        left := left - {b};
        UsdcAt(db.st, listed, b);
        ghost var s := db.st;
        var g := ConsiderBalance(b, pending);
        RowsKeepFurther(old(db.st), s, db.st);
        BoundKept(s, db.st, bound);
        BalancesKept(s, db.st, listed);
        HandledKept(s, db.st, pending, done);
        HandledOne(db.st, pending, done, b, done + {b});
        done := done + {b};
        if g.Some? {
          BoundMore(db.st, bound, g.value);
          bound := bound + {g.value};
        }
      }
      assert done == listed - known;
    }

    /** One listed balance: bound to the gift of its memo if the amount is right and the gift still waits. */
    method ConsiderBalance(b: BalanceId, pending: map<Memo, GiftId>) returns (bound: Option<GiftId>)
      requires db.Valid() && Inv(db.st) && PendingByMemo(db.st, pending) && b in db.st.balances && db.st.balances[b].usdc
      modifies db
      ensures db.Valid() && Inv(db.st) && RowsKeep(old(db.st), db.st) && old(db.log) <= db.log && db.failures >= old(db.failures)
      ensures PendingByMemo(db.st, pending)
      ensures bound.Some? ==>
                && bound.value in db.st.gifts && db.st.gifts[bound.value].balance.Some?
                && Matches(db.st, db.st.gifts[bound.value], db.st.gifts[bound.value].balance.value)
      ensures db.failures == old(db.failures) ==> AllHandled(db.st, pending, {b})
    {
      hide RowsKeep, Inv, Run;
      bound := None;
      ghost var before := db.st;
      db.Yield(Anyone);
      PendingKept(before, db.st, pending);
      UsdcHolds(before, {b});
      BalancesKept(before, db.st, {b});
      UsdcAt(db.st, {b}, b);
      var answered := db.Call();
      if !answered {
        return;
      }
      var memo := db.st.balances[b].memo;
      if memo.Some? && memo.value in pending {
        var g := pending[memo.value];
        var matches := db.st.balances[b].amount == db.st.gifts[g].amount;
        if matches && db.st.gifts[g].status == CREATED {
          ghost var s := db.st;
          db.Perform(Bind(g, b));
          RowsKeepFurther(old(db.st), s, db.st);
          PendingKept(s, db.st, pending);
          bound := Some(g);
        }
      }
    }

    /** An expired gift whose balance is gone is recorded as refunded; nothing else is touched. */
    method DetectRefund(g: GiftId) returns (refunded: bool)
      requires db.Valid() && Inv(db.st)
      modifies db
      ensures db.Valid() && Inv(db.st) && RowsKeep(old(db.st), db.st) && old(db.log) <= db.log
      ensures refunded ==>
                && g in db.st.gifts && db.st.gifts[g].status == REFUNDED
                && db.st.gifts[g].balance.Some? && db.st.gifts[g].balance.value in db.st.consumed
      ensures !refunded && db.failures == old(db.failures) && g in db.st.gifts && db.st.gifts[g].status == EXPIRED ==>
                db.st.gifts[g].balance.None? || OnLedger(db.st, db.st.gifts[g].balance.value)
    {
      hide RowsKeep, Inv, Run, Leads;
      db.Yield(Scanner(scan));
      if g !in db.st.gifts || db.st.gifts[g].status != EXPIRED || db.st.gifts[g].balance.None? {
        return false;
      }
      ghost var s := db.st;
      db.Perform(ScanExpired(scan, g));
      RowsKeepFurther(old(db.st), s, db.st);
      s := db.st;
      refunded := RefundIfGone(g);
      RowsKeepFurther(old(db.st), s, db.st);
    }

    /** The row is rewritten without looking at it again: being expired and gone, it cannot have moved. */
    method RefundIfGone(g: GiftId) returns (refunded: bool)
      requires db.Valid() && Inv(db.st) && scan in db.st.scans && db.st.scans[scan].SawExpired? && db.st.scans[scan].gift == g
      modifies db
      ensures db.Valid() && Inv(db.st) && RowsKeep(old(db.st), db.st) && old(db.log) <= db.log
      ensures refunded ==>
                && g in db.st.gifts && db.st.gifts[g].status == REFUNDED
                && db.st.gifts[g].balance.Some? && db.st.gifts[g].balance.value in db.st.consumed
      ensures !refunded ==> db.failures > old(db.failures) || OnLedger(db.st, old(db.st.scans[scan].balance))
      ensures !refunded && g in db.st.gifts ==> db.st.gifts[g].balance == Some(old(db.st.scans[scan].balance))
    {
      hide RowsKeep, Inv, Run, Leads;
      db.Yield(Scanner(scan));
      ScanIsOk(db.st, scan);
      var answered := db.Call();
      if !answered {
        return false;
      }
      if OnLedger(db.st, db.st.scans[scan].balance) {
        return false;
      }
      ghost var s := db.st;
      db.Perform(ScanGone(scan));
      RowsKeepFurther(old(db.st), s, db.st);
      s := db.st;
      db.Yield(Scanner(scan));
      RowsKeepFurther(old(db.st), s, db.st);
      s := db.st;
      ScanIsOk(s, scan);
      db.Perform(Refund(scan));
      RowsKeepFurther(old(db.st), s, db.st);
      RefundHolds(s, scan);
      return true;
    }
  }

  /** A gift read as pending, and a balance of its memo and amount, listed while bound to no gift. */
  ghost predicate Due(start: State, listing: State, g: GiftId, b: BalanceId) {
    && g in start.gifts && start.gifts[g].status == CREATED
    && OnLedger(listing, b) && listing.balances[b] == Claimable(start.gifts[g].amount, Some(start.gifts[g].memo), true)
    && IsUnbound(listing, b)
  }

  predicate IsUnbound(s: State, b: BalanceId) {
    forall x :: x in s.gifts ==> s.gifts[x].balance != Some(b)
  }

  /** The gift a balance was meant for is no longer waiting. */
  ghost predicate AllHandled(s: State, pending: map<Memo, GiftId>, balances: set<BalanceId>) {
    forall b :: b in balances ==>
      && b in s.balances
      && (s.balances[b].memo.Some? && s.balances[b].memo.value in pending ==>
            var g := pending[s.balances[b].memo.value];
            g in s.gifts && (s.balances[b].amount == s.gifts[g].amount ==> s.gifts[g].status != CREATED))
  }

  lemma HandledKept(s: State, t: State, pending: map<Memo, GiftId>, balances: set<BalanceId>)
    requires RowsKeep(s, t)
    ensures AllHandled(s, pending, balances) ==> AllHandled(t, pending, balances)
  {
  }

  lemma NoneHandled(s: State, pending: map<Memo, GiftId>)
    ensures AllHandled(s, pending, {})
  {
  }

  lemma HandledOne(s: State, pending: map<Memo, GiftId>, balances: set<BalanceId>, b: BalanceId, more: set<BalanceId>)
    requires more <= balances + {b}
    ensures AllHandled(s, pending, balances) && AllHandled(s, pending, {b}) ==> AllHandled(s, pending, more)
  {
  }

  lemma DueIsHandled(start: State, listing: State, t: State, read: set<GiftId>, pending: map<Memo, GiftId>,
                     page: set<BalanceId>, balances: set<BalanceId>)
    requires RowsKeep(start, listing) && RowsKeep(listing, t) && RowsKeep(start, t) && AllHandled(t, pending, balances)
    requires MemosUnique(start) && forall g :: g in read ==> g in start.gifts
    requires pending == map g | g in read :: start.gifts[g].memo := g
    requires forall b :: b in page && OnLedger(listing, b) && listing.balances[b].usdc && IsUnbound(listing, b) ==> b in balances
    ensures forall g, b :: g in read && b in page && Due(start, listing, g, b) ==> g in t.gifts && t.gifts[g].status != CREATED
  {
  }

  lemma RowsKeepSelf(s: State)
    ensures RowsKeep(s, s)
  {
  }

  lemma ScanIsOk(s: State, k: ScanId)
    requires Inv(s) && k in s.scans
    ensures ScanOk(s, k)
  {
  }

  lemma RefundHolds(s: State, k: ScanId)
    requires k in s.scans && s.scans[k].SawGone? && ScanOk(s, k)
    ensures var t := Apply(s, Refund(k));
            var g := s.scans[k].gift;
            g in t.gifts && t.gifts[g].status == REFUNDED && t.gifts[g].balance == Some(s.scans[k].balance)
            && s.scans[k].balance in t.consumed
  {
  }

  lemma MemosAreUnique(s: State)
    requires Inv(s)
    ensures MemosUnique(s)
  {
  }

  /** The gifts read as pending, by memo. */
  ghost predicate PendingByMemo(s: State, pending: map<Memo, GiftId>) {
    forall memo :: memo in pending ==> pending[memo] in s.gifts && s.gifts[pending[memo]].memo == memo
  }

  lemma PendingHolds(s: State, pending: map<Memo, GiftId>)
    requires forall memo :: memo in pending ==> pending[memo] in s.gifts && s.gifts[pending[memo]].memo == memo
    ensures PendingByMemo(s, pending)
  {
  }

  lemma PendingKept(s: State, t: State, pending: map<Memo, GiftId>)
    requires RowsKeep(s, t) && PendingByMemo(s, pending)
    ensures PendingByMemo(t, pending)
  {
  }

  /** Each of these gifts has a balance of its memo and amount. */
  ghost predicate AllBound(s: State, bound: set<GiftId>) {
    forall g :: g in bound ==> g in s.gifts && s.gifts[g].balance.Some? && Matches(s, s.gifts[g], s.gifts[g].balance.value)
  }

  ghost predicate AllUsdc(s: State, balances: set<BalanceId>) {
    forall b :: b in balances ==> b in s.balances && s.balances[b].usdc
  }

  lemma NoneBound(s: State)
    ensures AllBound(s, {})
  {
  }

  lemma BoundMore(s: State, bound: set<GiftId>, g: GiftId)
    requires AllBound(s, bound) && g in s.gifts && s.gifts[g].balance.Some? && Matches(s, s.gifts[g], s.gifts[g].balance.value)
    ensures AllBound(s, bound + {g})
  {
  }

  lemma BoundKept(s: State, t: State, bound: set<GiftId>)
    requires RowsKeep(s, t) && AllBound(s, bound)
    ensures AllBound(t, bound)
  {
  }

  lemma UsdcHolds(s: State, balances: set<BalanceId>)
    requires forall b :: b in balances ==> b in s.balances && s.balances[b].usdc
    ensures AllUsdc(s, balances)
  {
  }

  lemma UsdcAt(s: State, balances: set<BalanceId>, b: BalanceId)
    requires AllUsdc(s, balances) && b in balances
    ensures b in s.balances && s.balances[b].usdc
  {
  }

  lemma BalancesKept(s: State, t: State, balances: set<BalanceId>)
    requires RowsKeep(s, t) && AllUsdc(s, balances)
    ensures AllUsdc(t, balances)
  {
  }

  lemma ListedIsAll(s: State, page: set<BalanceId>, listed: set<BalanceId>, known: set<BalanceId>)
    requires page <= Claimables(s) && listed == set b | b in page && s.balances[b].usdc
    requires known == set g | g in s.gifts && s.gifts[g].balance.Some? :: s.gifts[g].balance.value
    ensures forall b :: b in page && OnLedger(s, b) && s.balances[b].usdc && IsUnbound(s, b) ==> b in listed - known
  {
  }

  lemma ClaimHasGift(s: State, c: ClaimId)
    requires Inv(s) && c in s.claims
    ensures s.claims[c].gift in s.gifts
  {
  }

  lemma SnapshotHolds(s: State, t: State, g: GiftId)
    requires RowsKeep(s, t) && g in s.gifts
    ensures g in t.gifts && t.gifts[g].sender == s.gifts[g].sender && t.gifts[g].amount == s.gifts[g].amount
    ensures s.gifts[g].balance.Some? ==> t.gifts[g].balance == s.gifts[g].balance
  {
  }
}
