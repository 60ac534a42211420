/**
 The confirm call and the cleanup pass as the code runs them: one database or network call at a time,
 each of which may fail, with any steps by other calls in between.
 */
module DeletionServices {
  import opened Common
  import opened DeletionSaga

  const BATCH_SIZE := 20

  /** The steps nobody but the call `me` takes. */
  predicate Owns(me: nat, e: Event) {
    HasRun(e) && e.run.who == me
  }

  ghost predicate LocalKeeps(me: nat, s: State, t: State) {
    && (forall i: RunId :: i.who == me ==> (i in s.runs <==> i in t.runs))
    && (forall i: RunId :: i.who == me && i in s.runs ==> t.runs[i] == s.runs[i])
  }

  ghost predicate RowsKeep(s: State, t: State) {
    && t.max == s.max && s.customers <= t.customers && s.scrubs.Keys <= t.scrubs.Keys && s.blindpayGone <= t.blindpayGone && s.identityGone <= t.identityGone
    && forall r :: r in s.rows ==> r in t.rows && t.rows[r].user == s.rows[r].user
  }

  lemma StepKeepsRows(s: State, e: Event)
    requires Enabled(s, e)
    ensures RowsKeep(s, Apply(s, e))
  {
  }

  lemma StepKeepsLocal(me: nat, s: State, e: Event)
    requires Enabled(s, e) && !Owns(me, e)
    ensures LocalKeeps(me, s, Apply(s, e))
  {
  }

  lemma RowsKeepFurther(s: State, t: State, u: State)
    requires RowsKeep(s, t) && RowsKeep(t, u)
    ensures RowsKeep(s, u)
  {
  }

  lemma {:induction false} RunKeeps(max: nat, me: nat, log: seq<Event>, more: seq<Event>)
    requires log <= more && Legal(max, more)
    ensures Legal(max, log) && RowsKeep(Play(max, log), Play(max, more))
    ensures (forall k :: |log| <= k < |more| ==> !Owns(me, more[k])) ==> LocalKeeps(me, Play(max, log), Play(max, more))
    decreases |more|
  {
    if |log| < |more| {
      hide Apply, Enabled, RowsKeep;
      var before, e := more[..|more| - 1], more[|more| - 1];
      RunKeeps(max, me, log, before);
      StepKeepsRows(Play(max, before), e);
      if !Owns(me, e) {
        StepKeepsLocal(me, Play(max, before), e);
      }
      RowsKeepFurther(Play(max, log), Play(max, before), Play(max, more));
    } else {
      assert log == more;
    }
  }

  /** Only the call itself acted. */
  ghost predicate Alone(me: nat, log: seq<Event>, more: seq<Event>) {
    log <= more && forall k :: |log| <= k < |more| ==> Owns(me, more[k])
  }

  class Database {
    const max: nat
    var st: State
    ghost var log: seq<Event>
    /** How many of the calls made through this object have failed. */
    ghost var failures: nat

    ghost predicate Valid()
      reads this
    {
      Legal(max, log) && st == Play(max, log)
    }

    constructor (max: nat)
      ensures Valid() && this.max == max && log == []
    {
      this.max := max;
      st := Init(max);
      log, failures := [], 0;
    }

    /** Any number of steps by everyone else; callers know nothing else about it. */
    method Others(ghost me: nat)
      requires Valid()
      modifies this`st, this`log
      ensures Valid() && old(log) <= log
      ensures forall k :: |old(log)| <= k < |log| ==> !Owns(me, log[k])
    {
    }

    method Yield(ghost me: nat)
      requires Valid()
      modifies this`st, this`log
      ensures Valid() && Inv(st) && st.max == max && old(log) <= log && RowsKeep(old(st), st) && LocalKeeps(me, old(st), st)
      ensures forall k :: |old(log)| <= k < |log| ==> !Owns(me, log[k])
      ensures Alone(me, old(log), log) ==> log == old(log) && st == old(st)
    {
      hide RowsKeep, LocalKeeps, Inv, After;
      Others(me);
      RunKeeps(max, me, old(log), log);
      EveryRunKeepsInv(max, log);
      if |old(log)| < |log| {
        assert !Owns(me, log[|old(log)|]);
      } else {
        assert log == old(log);
      }
    }

    method Perform(e: Event)
      requires Valid() && Enabled(st, e)
      modifies this`st, this`log
      ensures Valid() && Inv(st) && st.max == max && log == old(log) + [e]
      ensures st == Apply(old(st), e) && RowsKeep(old(st), st)
    {
      hide RowsKeep, Inv, After, Apply, Enabled;
      log := log + [e];
      Extend(max, old(log), e);
      st := Apply(st, e);
      StepKeepsRows(old(st), e);
      EveryRunKeepsInv(max, log);
    }

    /** One call of `me`: others act first, and it may fail. */
    method Call(ghost me: nat) returns (ok: bool)
      requires Valid()
      modifies this
      ensures Valid() && Inv(st) && st.max == max && old(log) <= log && RowsKeep(old(st), st) && LocalKeeps(me, old(st), st)
      ensures forall k :: |old(log)| <= k < |log| ==> !Owns(me, log[k])
      ensures Alone(me, old(log), log) ==> log == old(log) && st == old(st)
      ensures failures == old(failures) + if ok then 0 else 1
    {
      Yield(me);
      ok := *;
      if !ok {
        failures := failures + 1;
      }
    }
  }

  // ----- What one call leaves to the next -----

  /** Nobody's status or attempts changed, except that the request `but` is completed if `done`. */
  ghost predicate SameCounts(s: State, t: State, but: ReqId, done: bool) {
    && s.rows.Keys == t.rows.Keys && s.max == t.max
    && forall r :: r in s.rows ==>
         && t.rows[r].attempts == s.rows[r].attempts
         && t.rows[r].status == if r == but && done then COMPLETED else s.rows[r].status
  }

  /** The other runs of the same call stay as they are. */
  ghost predicate OtherRunsKeep(s: State, t: State, but: RunId) {
    forall i: RunId :: i.who == but.who && i != but ==> (i in s.runs <==> i in t.runs) && (i in s.runs ==> t.runs[i] == s.runs[i])
  }

  /** How far a cleanup has come from where it was: only its stage and its two answers move. */
  ghost predicate Cleans(s: State, t: State, i: RunId) {
    && At(s, i, {Cleaning, OthersCleared, Updated}) && At(t, i, {Cleaning, OthersCleared, Updated})
    && t.runs[i] == s.runs[i].(stage := t.runs[i].stage, blindpay := t.runs[i].blindpay, privy := t.runs[i].privy)
    && RowsKeep(s, t) && OtherRunsKeep(s, t, i)
  }

  /** The cleanup moved on; undisturbed, it changed nobody's counts but completed its own request if `done`. */
  ghost predicate Goes(i: RunId, log: seq<Event>, more: seq<Event>, s: State, t: State, done: bool) {
    && log <= more && Cleans(s, t, i) && (Alone(i.who, log, more) ==> SameCounts(s, t, s.runs[i].req, done))
    && NoSubmission(i.who, log, more)
  }

  /** The call itself submitted no closure. */
  ghost predicate NoSubmission(me: nat, log: seq<Event>, more: seq<Event>) {
    forall k :: |log| <= k < |more| && more[k].Accept? ==> more[k].run.who != me
  }

  predicate IsCleanup(e: Event, i: RunId) {
    (e.DeleteCustomer? || e.NoCustomer? || e.DeleteIdentity? || e.ClearOthers? || e.Update?) && e.run == i
  }

  function Moved(run: Run, e: Event): Run {
    match e
    case DeleteCustomer(_) => run.(blindpay := true)
    case NoCustomer(_) => run.(blindpay := true)
    case DeleteIdentity(_) => run.(privy := true)
    case ClearOthers(_) => run.(stage := OthersCleared)
    case _ => run.(stage := Updated)
  }

  lemma CleansFurther(s: State, t: State, u: State, i: RunId)
    requires Cleans(s, t, i) && Cleans(t, u, i)
    ensures Cleans(s, u, i)
  {
  }

  lemma AloneSplits(me: nat, a: seq<Event>, b: seq<Event>, c: seq<Event>)
    requires a <= b <= c && Alone(me, a, c)
    ensures Alone(me, a, b) && Alone(me, b, c)
  {
  }

  lemma GoesFurther(i: RunId, a: seq<Event>, b: seq<Event>, c: seq<Event>, s: State, t: State, u: State, done: bool)
    requires Goes(i, a, b, s, t, false) && Goes(i, b, c, t, u, done)
    ensures Goes(i, a, c, s, u, done)
  {
    CleansFurther(s, t, u, i);
    if Alone(i.who, a, c) {
      AloneSplits(i.who, a, b, c);
    }
  }

  lemma GoesThroughCall(i: RunId, log: seq<Event>, more: seq<Event>, s: State, t: State)
    requires At(s, i, {Cleaning, OthersCleared, Updated}) && log <= more && LocalKeeps(i.who, s, t) && RowsKeep(s, t)
    requires Alone(i.who, log, more) ==> t == s
    requires forall k :: |log| <= k < |more| ==> !Owns(i.who, more[k])
    ensures Goes(i, log, more, s, t, false) && t.runs[i] == s.runs[i]
  {
  }

  lemma GoesByStep(i: RunId, log: seq<Event>, s: State, e: Event)
    requires IsCleanup(e, i) && Enabled(s, e)
    ensures Goes(i, log, log + [e], s, Apply(s, e), e.Update? && s.runs[i].stage == OthersCleared)
    ensures Apply(s, e).runs[i] == Moved(s.runs[i], e)
  {
    StepKeepsRows(s, e);
  }

  /** What a caller reads off it. */
  lemma GoesMeans(i: RunId, log: seq<Event>, more: seq<Event>, s: State, t: State, done: bool)
    requires Goes(i, log, more, s, t, done)
    ensures log <= more && RowsKeep(s, t) && At(t, i, {t.runs[i].stage}) && i in s.runs
    ensures t.runs[i].stage in {Cleaning, OthersCleared, Updated} && t.runs[i].req == s.runs[i].req
    ensures t.runs[i].provider == s.runs[i].provider && t.runs[i].attempts == s.runs[i].attempts
    ensures NoSubmission(i.who, log, more)
  {
  }

  lemma SubmitsNothingFurther(me: nat, a: seq<Event>, b: seq<Event>, c: seq<Event>)
    requires a <= b <= c && NoSubmission(me, a, b) && NoSubmission(me, b, c)
    ensures NoSubmission(me, a, c)
  {
  }

  lemma IdleSubmitsNothing(me: nat, log: seq<Event>, more: seq<Event>)
    requires forall k :: |log| <= k < |more| ==> !Owns(me, more[k])
    ensures NoSubmission(me, log, more)
  {
  }

  lemma StepSubmitsNothing(me: nat, log: seq<Event>, e: Event)
    requires !e.Accept?
    ensures NoSubmission(me, log, log + [e])
  {
  }

  lemma StillEnabled(s: State, t: State, i: RunId, e: Event)
    requires IsCleanup(e, i) && !e.NoCustomer? && Enabled(s, e) && Cleans(s, t, i) && t.runs[i] == s.runs[i]
    ensures Enabled(t, e)
  {
  }

  lemma GoesToTheEnd(i: RunId, log: seq<Event>, more: seq<Event>, s: State, t: State, done: bool)
    requires Goes(i, log, more, s, t, done)
    ensures i in s.runs && (Alone(i.who, log, more) && done ==> IsCompleted(t, s.runs[i].req))
  {
  }

  /** What the caller is told; `Broken` stands for an unexpected error (500). */
  datatype Outcome = NotFound | Forbidden | Conflict | NotEligible | BadRequest | Unavailable | Broken | Answered(status: Status)

  /** The answer to a confirm call if everything works. */
  function Decision(s: State, r: ReqId, user: User, eligible: bool, signed: bool): Outcome {
    if r !in s.rows then NotFound
    else if s.rows[r].user != user then Forbidden
    else if s.rows[r].status == COMPLETED then Answered(COMPLETED)
    else if s.rows[r].status == FAILED then Conflict
    else if !eligible then NotEligible
    else if s.rows[r].xdr.Some? && !signed then BadRequest
    else Answered(COMPLETED)
  }

  /** The call closes, scrubs or deletes nothing of an account that is not eligible, and submits nothing unsigned. */
  ghost predicate Entitled(me: nat, log: seq<Event>, more: seq<Event>, eligible: bool, signed: bool) {
    && log <= more
    && (forall k :: |log| <= k < |more| && Owns(me, more[k]) && !eligible ==> more[k].Confirm?)
    && (forall k :: |log| <= k < |more| && Owns(me, more[k]) && more[k].Accept? ==> signed)
  }

  lemma EntitledFurther(me: nat, a: seq<Event>, b: seq<Event>, c: seq<Event>, eligible: bool, signed: bool)
    requires Entitled(me, a, b, eligible, signed) && Entitled(me, b, c, eligible, signed)
    ensures Entitled(me, a, c, eligible, signed)
  {
  }

  lemma IdleIsEntitled(me: nat, log: seq<Event>, more: seq<Event>, eligible: bool, signed: bool)
    requires log <= more && forall k :: |log| <= k < |more| ==> !Owns(me, more[k])
    ensures Entitled(me, log, more, eligible, signed)
  {
  }

  lemma ConfirmIsEntitled(me: nat, log: seq<Event>, i: RunId, r: ReqId, provider: Provider, eligible: bool, signed: bool)
    ensures Entitled(me, log, log + [Confirm(i, r, provider)], eligible, signed)
  {
  }

  lemma EligibleIsEntitled(me: nat, log: seq<Event>, more: seq<Event>, signed: bool)
    requires log <= more && (signed || NoSubmission(me, log, more))
    ensures Entitled(me, log, more, true, signed)
  {
  }

  class AccountDeletionService {
    const db: Database

    constructor (db: Database)
      ensures this.db == db
    {
      this.db := db;
    }

    /** One call and then, unless it failed, one step of a cleanup. */
    method Act(i: RunId, e: Event) returns (ok: bool)
      requires db.Valid() && IsCleanup(e, i) && !e.NoCustomer? && Enabled(db.st, e)
      modifies db
      ensures db.Valid() && Inv(db.st) && db.failures == old(db.failures) + if ok then 0 else 1
      ensures Goes(i, old(db.log), db.log, old(db.st), db.st, ok && e.Update? && old(db.st.runs[i].stage) == OthersCleared)
      ensures i in db.st.runs && db.st.runs[i] == if ok then Moved(old(db.st.runs[i]), e) else old(db.st.runs[i])
    {
      hide Inv, RowsKeep, LocalKeeps, After, OtherRunsKeep, Goes, Alone, SameCounts;
      ok := db.Call(i.who);
      GoesThroughCall(i, old(db.log), db.log, old(db.st), db.st);
      if ok {
        ghost var s, log := db.st, db.log;
        GoesCleans(i, old(db.log), log, old(db.st), s, false);
        StillEnabled(old(db.st), s, i, e);
        db.Perform(e);
        GoesByStep(i, log, s, e);
        GoesFurther(i, old(db.log), log, db.log, old(db.st), s, db.st, e.Update? && s.runs[i].stage == OthersCleared);
      }
      GoesMeans(i, old(db.log), db.log, old(db.st), db.st, ok && e.Update? && old(db.st.runs[i].stage) == OthersCleared);
    }

    /**
     Steps 4 and 5. A failing provider is passed over; only a failing database breaks it off. Undisturbed,
     it changes no other request's status or attempts, and completes its own exactly if both deletions
     were answered as done; without a failure they are.
     */
    method CleanUpExternals(i: RunId) returns (ok: bool)
      requires db.Valid() && Inv(db.st) && At(db.st, i, {Cleaning})
      requires db.st.runs[i].provider.Some? && !db.st.runs[i].blindpay && !db.st.runs[i].privy
      modifies db
      ensures db.Valid() && Inv(db.st)
      ensures db.failures >= old(db.failures) && (!ok ==> db.failures > old(db.failures))
      ensures i in db.st.runs && (ok ==> db.st.runs[i].stage == Updated)
      ensures Goes(i, old(db.log), db.log, old(db.st), db.st, ok && db.st.runs[i].blindpay && db.st.runs[i].privy)
      ensures ok && db.failures == old(db.failures) ==> db.st.runs[i].blindpay && db.st.runs[i].privy
    {
      hide Inv, RowsKeep, LocalKeeps, After, OtherRunsKeep, Goes, SameCounts, Alone, Cleans, Apply, Play, Legal;
      ok := db.Call(i.who);
      GoesThroughCall(i, old(db.log), db.log, old(db.st), db.st);
      if !ok {
        return;
      }
      GoesMeans(i, old(db.log), db.log, old(db.st), db.st, false);
      ghost var s, log := db.st, db.log;
      AskProviders(i);
      GoesMeans(i, log, db.log, s, db.st, false);
      GoesFurther(i, old(db.log), log, db.log, old(db.st), s, db.st, false);
      s, log := db.st, db.log;
      ok := WriteOutcome(i);
      GoesFurther(i, old(db.log), log, db.log, old(db.st), s, db.st, ok && db.st.runs[i].blindpay && db.st.runs[i].privy);
    }

    /**
     Each provider is asked once: what has not been answered as done has cost exactly one failed call. A user
     who is no BlindPay customer counts as deleted there.
     */
    method AskProviders(i: RunId)
      requires db.Valid() && Inv(db.st) && At(db.st, i, {Cleaning})
      requires db.st.runs[i].provider.Some? && !db.st.runs[i].blindpay && !db.st.runs[i].privy
      modifies db
      ensures db.Valid() && Inv(db.st)
      ensures Goes(i, old(db.log), db.log, old(db.st), db.st, false) && At(db.st, i, {Cleaning})
      ensures db.failures == old(db.failures)
                + (if db.st.runs[i].blindpay then 0 else 1) + (if db.st.runs[i].privy then 0 else 1)
    {
      hide Inv, RowsKeep, LocalKeeps, After, OtherRunsKeep, Goes, SameCounts, Alone, Cleans, Apply, Play, Legal;
      ghost var s, log := db.st, db.log;
      if db.st.runs[i].user in db.st.customers {
        var answered := Act(i, DeleteCustomer(i));
      } else {
        db.Perform(NoCustomer(i));
        GoesByStep(i, log, s, NoCustomer(i));
      }
      GoesMeans(i, log, db.log, s, db.st, false);
      s, log := db.st, db.log;
      var answered := Act(i, DeleteIdentity(i));
      GoesMeans(i, log, db.log, s, db.st, false);
      GoesFurther(i, old(db.log), log, db.log, old(db.st), s, db.st, false);
    }

    /** The rows after the two answers: if both are positive, the other requests first, then its own. */
    method WriteOutcome(i: RunId) returns (ok: bool)
      requires db.Valid() && Inv(db.st) && At(db.st, i, {Cleaning})
      modifies db
      ensures db.Valid() && Inv(db.st)
      ensures db.failures == old(db.failures) + if ok then 0 else 1
      ensures i in db.st.runs && (ok ==> db.st.runs[i].stage == Updated)
      ensures db.st.runs[i].blindpay == old(db.st.runs[i].blindpay) && db.st.runs[i].privy == old(db.st.runs[i].privy)
      ensures Goes(i, old(db.log), db.log, old(db.st), db.st, ok && db.st.runs[i].blindpay && db.st.runs[i].privy)
    {
      hide Inv, RowsKeep, LocalKeeps, After, OtherRunsKeep, Goes, SameCounts, Alone, Cleans, Apply, Legal;
      ghost var s, log := db.st, db.log;
      if db.st.runs[i].blindpay && db.st.runs[i].privy {
        ok := Act(i, ClearOthers(i));
        GoesMeans(i, old(db.log), db.log, old(db.st), db.st, false);
        if !ok {
          return;
        }
        s, log := db.st, db.log;
        ok := Act(i, Update(i));
        GoesFurther(i, old(db.log), log, db.log, old(db.st), s, db.st, ok);
      } else {
        ok := Act(i, Update(i));
      }
    }

    /** One call and then, unless it failed, one step of a closure. */
    method Advance(i: RunId, e: Event) returns (ok: bool)
      requires db.Valid() && IsClosing(e, i) && Enabled(db.st, e)
      modifies db
      ensures db.Valid() && Inv(db.st) && RowsKeep(old(db.st), db.st) && Closing(i.who, old(db.log), db.log)
      ensures ok ==> e.MarkFailed? || (At(db.st, i, {Accepted, Closed}) && db.st.runs[i] == Nearer(old(db.st.runs[i]), e))
      ensures !ok ==> At(db.st, i, {Checked, Accepted}) && db.st.runs[i] == old(db.st.runs[i])
      ensures db.failures == old(db.failures) + if ok then 0 else 1
    {
      hide Inv, RowsKeep, LocalKeeps, After;
      ok := db.Call(i.who);
      RunRests(i, old(db.st), db.st);
      if ok {
        ghost var s := db.st;
        db.Perform(e);
        RowsKeepFurther(old(db.st), s, db.st);
      }
    }

    /** Step 2. Anything that goes wrong marks the request failed, if that can still be written. */
    method CloseOnChain(i: RunId) returns (closed: bool)
      requires db.Valid() && At(db.st, i, {Checked}) && db.st.runs[i].xdr.Some?
      modifies db
      ensures db.Valid() && Inv(db.st) && RowsKeep(old(db.st), db.st) && Closing(i.who, old(db.log), db.log)
      ensures closed ==> At(db.st, i, {Closed}) && db.st.runs[i] == old(db.st.runs[i]).(stage := Closed)
      ensures db.failures >= old(db.failures) && (!closed ==> db.failures > old(db.failures))
    {
      hide Inv, RowsKeep, LocalKeeps, After, Apply;
      closed := Advance(i, Accept(i));
      ghost var s := db.st;
      if closed {
        closed := Advance(i, MarkClosed(i));
        RowsKeepFurther(old(db.st), s, db.st);
        s := db.st;
      }
      if !closed {
        var written := Advance(i, MarkFailed(i));
        RowsKeepFurther(old(db.st), s, db.st);
      }
    }

    /**
     The whole saga for one call. Refused or unavailable, it has touched nothing local; answered, the user
     is scrubbed, and if the answer is completed, gone at both providers; broken, some call failed. An account that is
     not eligible is not touched, and nothing is submitted unsigned. Undisturbed and without a failed call the answer
     is what the request and the arguments decide, completed if nothing is against it.
     */
    method ConfirmDeletion(me: nat, r: ReqId, user: User, provider: Provider, eligible: bool, signed: bool) returns (o: Outcome)
      requires db.Valid() && RunId(me, 0) !in db.st.runs
      modifies db
      ensures db.Valid() && Inv(db.st) && RowsKeep(old(db.st), db.st) && old(db.log) <= db.log
      ensures o in {NotFound, Forbidden, Conflict, NotEligible, BadRequest, Unavailable} ==> Closing(me, old(db.log), db.log)
      ensures o in {Unavailable, Broken} ==> db.failures > old(db.failures)
      ensures o.NotEligible? ==> !eligible
      ensures o.BadRequest? ==> !signed && eligible
      ensures Entitled(me, old(db.log), db.log, eligible, signed)
      ensures !eligible ==>
                || o in {NotFound, Forbidden, Conflict, NotEligible, Broken}
                || (o == Answered(COMPLETED) && r in db.st.rows && db.st.rows[r].status == COMPLETED)
      ensures o.NotFound? ==> r !in old(db.st.rows)
      ensures o.Forbidden? ==> r in db.st.rows && db.st.rows[r].user != user
      ensures o.Conflict? ==> r in db.st.rows && db.st.rows[r].status == FAILED
      ensures Alone(me, old(db.log), db.log) && db.failures == old(db.failures) ==>
                o == Decision(old(db.st), r, user, eligible, signed)
      ensures o.Answered? ==> r in db.st.rows && db.st.rows[r].user == user && user in db.st.scrubs
      ensures o == Answered(COMPLETED) ==> user in db.st.blindpayGone && user in db.st.identityGone
    {
      hide Inv, RowsKeep, LocalKeeps, After, Goes, Apply, Alone, Entitled;
      var i := RunId(me, 0);
      var ok := db.Call(me);
      IdleIsEntitled(me, old(db.log), db.log, eligible, signed);
      if !ok {
        return Broken;
      }
      AbsentRests(i, old(db.st), db.st);
      RowsRest(old(db.st), db.st, r);
      if r !in db.st.rows {
        return NotFound;
      }
      if db.st.rows[r].user != user {
        return Forbidden;
      }
      if db.st.rows[r].status == COMPLETED {
        CompletedRow(db.st, r);
        return Answered(COMPLETED);
      }
      if db.st.rows[r].status == FAILED {
        return Conflict;
      }
      ghost var s, read := db.st, db.log;
      o := Proceed(i, r, provider, eligible, signed);
      RowsKeepFurther(old(db.st), s, db.st);
      EntitledFurther(me, old(db.log), read, db.log, eligible, signed);
      ClosingFurther(me, old(db.log), read, db.log);
      AloneFrom(me, old(db.log), read, db.log);
    }

    /** The steps of a call whose request is there, open and the caller's. */
    method Proceed(i: RunId, r: ReqId, provider: Provider, eligible: bool, signed: bool) returns (o: Outcome)
      requires db.Valid() && Inv(db.st) && i !in db.st.runs && r in db.st.rows && db.st.rows[r].status !in {COMPLETED, FAILED}
      modifies db
      ensures db.Valid() && Inv(db.st) && RowsKeep(old(db.st), db.st) && Entitled(i.who, old(db.log), db.log, eligible, signed)
      ensures old(db.log) <= db.log && (o.NotEligible? || o.BadRequest? || o.Unavailable? || o.Broken? || o.Answered?)
      ensures !o.Answered? && !o.Broken? ==> Closing(i.who, old(db.log), db.log)
      ensures !eligible ==> o in {NotEligible, Broken}
      ensures db.failures >= old(db.failures) && (o in {Unavailable, Broken} ==> db.failures > old(db.failures))
      ensures o.NotEligible? ==> !eligible
      ensures o.BadRequest? ==> !signed && eligible
      ensures Alone(i.who, old(db.log), db.log) && db.failures == old(db.failures) ==>
                o == Decision(old(db.st), r, old(db.st.rows[r].user), eligible, signed)
      ensures o.Answered? ==> r in db.st.rows && db.st.rows[r].user == old(db.st.rows[r].user) && db.st.rows[r].user in db.st.scrubs
      ensures o == Answered(COMPLETED) ==> db.st.rows[r].user in db.st.blindpayGone && db.st.rows[r].user in db.st.identityGone
    {
      hide Inv, RowsKeep, LocalKeeps, After, Goes, Apply, Alone, Entitled, Legal, Play;
      ghost var s, read := db.st, db.log;
      db.Perform(Confirm(i, r, provider));
      ConfirmIsEntitled(i.who, read, i, r, provider, eligible, signed);
      ConfirmReads(s, i, r, provider);
      ghost var confirmed := db.log;
      s := db.st;
      var prepared := Prepared(i, eligible, signed);
      RowsKeepFurther(old(db.st), s, db.st);
      RowsRest(s, db.st, r);
      EntitledFurther(i.who, read, confirmed, db.log, eligible, signed);
      if prepared.Some? {
        return prepared.value;
      }
      s := db.st;
      ghost var ready := db.log;
      o := Erase(i);
      EligibleIsEntitled(i.who, ready, db.log, signed);
      EntitledFurther(i.who, read, ready, db.log, eligible, signed);
      RowsKeepFurther(old(db.st), s, db.st);
      AloneFrom(i.who, read, ready, db.log);
    }

    /** Eligibility and, if there is a closure, its signature and its submission. */
    method Prepared(i: RunId, eligible: bool, signed: bool) returns (refusal: Option<Outcome>)
      requires db.Valid() && Inv(db.st) && At(db.st, i, {Checked})
      modifies db
      ensures db.Valid() && Inv(db.st) && RowsKeep(old(db.st), db.st) && Closing(i.who, old(db.log), db.log)
      ensures refusal.Some? ==> refusal.value in {NotEligible, BadRequest, Unavailable, Broken}
      ensures refusal.Some? && refusal.value in {Unavailable, Broken} ==> db.failures > old(db.failures)
      ensures refusal == Some(NotEligible) ==> !eligible
      ensures refusal == Some(BadRequest) ==> !signed && eligible
      ensures db.failures == old(db.failures) && !eligible ==> refusal == Some(NotEligible)
      ensures db.failures == old(db.failures) && eligible && old(db.st.runs[i].xdr).Some? && !signed ==> refusal == Some(BadRequest)
      ensures db.failures == old(db.failures) && eligible && (old(db.st.runs[i].xdr).Some? ==> signed) ==> refusal.None?
      ensures Entitled(i.who, old(db.log), db.log, eligible, signed)
      ensures !eligible ==> refusal in {Some(NotEligible), Some(Broken)}
      ensures refusal.None? ==> At(db.st, i, {Checked, Closed}) && (db.st.runs[i].stage == Checked ==> db.st.runs[i].xdr.None?)
      ensures refusal.None? ==> db.st.runs[i] == old(db.st.runs[i]).(stage := db.st.runs[i].stage)
      ensures db.failures >= old(db.failures)
    {
      hide Inv, RowsKeep, LocalKeeps, After, Apply, Entitled;
      var ok := db.Call(i.who);
      IdleIsEntitled(i.who, old(db.log), db.log, eligible, signed);
      RunRests(i, old(db.st), db.st);
      if !ok {
        return Some(Broken);
      }
      if !eligible {
        return Some(NotEligible);
      }
      if db.st.runs[i].xdr.Some? {
        if !signed {
          return Some(BadRequest);
        }
        ghost var s, log := db.st, db.log;
        var closed := CloseOnChain(i);
        EligibleIsEntitled(i.who, log, db.log, signed);
        EntitledFurther(i.who, old(db.log), log, db.log, eligible, signed);
        RowsKeepFurther(old(db.st), s, db.st);
        if !closed {
          return Some(Unavailable);
        }
      }
      refusal := None;
    }

    /** Step 3: the scrub, and its mark on the request. */
    method ScrubAndMark(i: RunId) returns (ok: bool)
      requires db.Valid() && Inv(db.st) && At(db.st, i, {Checked, Closed})
      requires db.st.runs[i].stage == Checked ==> db.st.runs[i].xdr.None?
      modifies db
      ensures db.Valid() && Inv(db.st) && RowsKeep(old(db.st), db.st) && old(db.log) <= db.log
      ensures NoSubmission(i.who, old(db.log), db.log)
      ensures db.failures == old(db.failures) + if ok then 0 else 1
      ensures ok ==> At(db.st, i, {Cleaning}) && db.st.runs[i] == old(db.st.runs[i]).(stage := Cleaning)
      ensures ok ==> old(db.st.runs[i].user) in db.st.scrubs
    {
      hide Inv, RowsKeep, LocalKeeps, After, Apply, Enabled, NoSubmission, Legal, Play;
      ScrubEnabled(db.st, i);
      ok := Take(i, Scrub(i));
      if !ok {
        return;
      }
      ghost var s, log := db.st, db.log;
      MarkEnabled(s, i);
      ok := Take(i, MarkScrubbed(i));
      RowsKeepFurther(old(db.st), s, db.st);
      SubmitsNothingFurther(i.who, old(db.log), log, db.log);
      RowsRest(s, db.st, s.runs[i].req);
    }

    /** One call and then, unless it failed, the scrub or its mark. */
    method Take(i: RunId, e: Event) returns (ok: bool)
      requires db.Valid() && (e == Scrub(i) || e == MarkScrubbed(i)) && Enabled(db.st, e)
      modifies db
      ensures db.Valid() && Inv(db.st) && RowsKeep(old(db.st), db.st) && old(db.log) <= db.log
      ensures NoSubmission(i.who, old(db.log), db.log)
      ensures db.failures == old(db.failures) + if ok then 0 else 1
      ensures ok ==> At(db.st, i, {if e.Scrub? then ScrubDone else Cleaning})
      ensures ok ==> db.st.runs[i] == old(db.st.runs[i]).(stage := if e.Scrub? then ScrubDone else Cleaning)
      ensures ok && e.Scrub? ==> old(db.st.runs[i].user) in db.st.scrubs
    {
      hide Inv, RowsKeep, LocalKeeps, After, Apply, NoSubmission, Legal, Play;
      ok := db.Call(i.who);
      RunRests(i, old(db.st), db.st);
      IdleSubmitsNothing(i.who, old(db.log), db.log);
      if ok {
        ghost var s, log := db.st, db.log;
        if e.Scrub? {
          ScrubMoves(s, i);
        } else {
          MarkMoves(s, i);
        }
        db.Perform(e);
        StepSubmitsNothing(i.who, log, e);
        SubmitsNothingFurther(i.who, old(db.log), log, db.log);
        RowsKeepFurther(old(db.st), s, db.st);
      }
    }

    /** Steps 3 to 5, and the status read back for the answer. */
    method Erase(i: RunId) returns (o: Outcome)
      requires db.Valid() && Inv(db.st) && At(db.st, i, {Checked, Closed}) && !db.st.runs[i].blindpay && !db.st.runs[i].privy
      requires (db.st.runs[i].stage == Checked ==> db.st.runs[i].xdr.None?) && db.st.runs[i].provider.Some?
      requires db.st.rows[db.st.runs[i].req].user == db.st.runs[i].user
      modifies db
      ensures db.Valid() && Inv(db.st) && RowsKeep(old(db.st), db.st) && old(db.log) <= db.log
      ensures NoSubmission(i.who, old(db.log), db.log)
      ensures o.Broken? || o.Answered?
      ensures db.failures >= old(db.failures) && (o.Broken? ==> db.failures > old(db.failures))
      ensures Alone(i.who, old(db.log), db.log) && db.failures == old(db.failures) ==> o == Answered(COMPLETED)
      ensures o.Answered? ==> old(db.st.runs[i].req) in db.st.rows && old(db.st.runs[i].user) in db.st.scrubs
      ensures o.Answered? ==> db.st.rows[old(db.st.runs[i].req)].user == old(db.st.runs[i].user)
      ensures o == Answered(COMPLETED) ==>
                old(db.st.runs[i].user) in db.st.blindpayGone && old(db.st.runs[i].user) in db.st.identityGone
    {
      hide Inv, RowsKeep, LocalKeeps, After, Goes, Apply, Alone, NoSubmission;
      var req := db.st.runs[i].req;
      var ok := ScrubAndMark(i);
      if !ok {
        return Broken;
      }
      ghost var scrubbed, log := db.st, db.log;
      ok := CleanUpExternals(i);
      GoesMeans(i, log, db.log, scrubbed, db.st, ok && db.st.runs[i].blindpay && db.st.runs[i].privy);
      RowsKeepFurther(old(db.st), scrubbed, db.st);
      SubmitsNothingFurther(i.who, old(db.log), log, db.log);
      if !ok {
        return Broken;
      }
      ghost var s, cleaned := db.st, db.log;
      ok := db.Call(i.who);
      IdleSubmitsNothing(i.who, cleaned, db.log);
      SubmitsNothingFurther(i.who, old(db.log), cleaned, db.log);
      RowsKeepFurther(old(db.st), s, db.st);
      RowsKeepFurther(scrubbed, s, db.st);
      AloneFrom(i.who, old(db.log), log, db.log);
      AloneFrom(i.who, log, cleaned, db.log);
      GoesToTheEnd(i, log, cleaned, scrubbed, s, s.runs[i].blindpay && s.runs[i].privy);
      if !ok {
        return Broken;
      }
      RowsRest(old(db.st), db.st, req);
      RowsRest(scrubbed, db.st, req);
      CompletedRow(db.st, req);
      o := Answered(db.st.rows[req].status);
    }
  }

  predicate IsClosing(e: Event, i: RunId) {
    (e.Accept? || e.MarkClosed? || e.MarkFailed?) && e.run == i
  }

  function Nearer(run: Run, e: Event): Run {
    run.(stage := if e.Accept? then Accepted else Closed)
  }

  /** The own steps of a call that has touched nothing local yet. */
  ghost predicate Closing(me: nat, log: seq<Event>, more: seq<Event>) {
    && log <= more
    && forall k :: |log| <= k < |more| && Owns(me, more[k]) ==>
         more[k].Confirm? || more[k].Accept? || more[k].MarkClosed? || more[k].MarkFailed? || more[k].Crash?
  }

  lemma ClosingFurther(me: nat, a: seq<Event>, b: seq<Event>, c: seq<Event>)
    requires a <= b <= c && forall k :: |a| <= k < |b| ==> !Owns(me, b[k])
    ensures Closing(me, b, c) ==> Closing(me, a, c)
  {
  }

  lemma RunRests(i: RunId, s: State, t: State)
    requires LocalKeeps(i.who, s, t) && RowsKeep(s, t) && i in s.runs && s.runs[i].req in s.rows
    ensures i in t.runs && t.runs[i] == s.runs[i] && t.runs[i].req in t.rows
  {
  }

  lemma AbsentRests(i: RunId, s: State, t: State)
    requires LocalKeeps(i.who, s, t) && i !in s.runs
    ensures i !in t.runs
  {
  }

  lemma RowsRest(s: State, t: State, r: ReqId)
    requires RowsKeep(s, t)
    ensures r in s.rows ==> r in t.rows && t.rows[r].user == s.rows[r].user
    ensures s.scrubs.Keys <= t.scrubs.Keys
  {
  }

  lemma CompletedRow(s: State, r: ReqId)
    requires Inv(s) && r in s.rows
    ensures var user := s.rows[r].user;
            s.rows[r].status == COMPLETED ==> user in s.scrubs && user in s.blindpayGone && user in s.identityGone
  {
  }

  lemma ConfirmReads(s: State, i: RunId, r: ReqId, provider: Provider)
    requires Enabled(s, Confirm(i, r, provider))
    ensures var t := Apply(s, Confirm(i, r, provider));
            && At(t, i, {Checked}) && t.runs[i].req == r && t.runs[i].user == s.rows[r].user && t.rows == s.rows
            && t.runs[i].provider.Some? && !t.runs[i].blindpay && !t.runs[i].privy && t.runs[i].xdr == s.rows[r].xdr
  {
  }

  lemma ScrubEnabled(s: State, i: RunId)
    requires At(s, i, {Checked, Closed}) && (s.runs[i].stage == Checked ==> s.runs[i].xdr.None?)
    ensures Enabled(s, Scrub(i))
  {
  }

  lemma MarkEnabled(s: State, i: RunId)
    requires At(s, i, {ScrubDone})
    ensures Enabled(s, MarkScrubbed(i))
  {
  }

  lemma ScrubMoves(s: State, i: RunId)
    requires Enabled(s, Scrub(i))
    ensures var t := Apply(s, Scrub(i));
            At(t, i, {ScrubDone}) && t.runs[i] == s.runs[i].(stage := ScrubDone) && s.runs[i].user in t.scrubs && t.rows == s.rows
  {
  }

  lemma MarkMoves(s: State, i: RunId)
    requires Enabled(s, MarkScrubbed(i))
    ensures var t := Apply(s, MarkScrubbed(i));
            At(t, i, {Cleaning}) && t.runs[i] == s.runs[i].(stage := Cleaning)
  {
  }

  lemma GoesCleans(i: RunId, log: seq<Event>, more: seq<Event>, s: State, t: State, done: bool)
    requires Goes(i, log, more, s, t, done)
    ensures Cleans(s, t, i) && log <= more
  {
  }

  // ----- The cleanup pass -----

  /** What is left to try over all requests waiting for cleanup. */
  ghost function Remaining(s: State): map<ReqId, nat> {
    map r | r in s.rows && s.rows[r].status == LOCAL_SCRUBBED && s.rows[r].attempts < s.max :: s.max - s.rows[r].attempts
  }

  ghost function Measure(s: State): nat {
    SumOf(Remaining(s))
  }

  /** `r` is waiting, as the pass read it. */
  ghost predicate Waits(s: State, r: ReqId, attempts: nat) {
    r in s.rows && s.rows[r].status == LOCAL_SCRUBBED && s.rows[r].attempts == attempts < s.max
  }

  /** Only `r` moved, and it is closer to its end. */
  ghost predicate Closer(s: State, t: State, r: ReqId) {
    && s.rows.Keys == t.rows.Keys && s.max == t.max && r in s.rows
    && (forall q :: q in s.rows && q != r ==> t.rows[q].attempts == s.rows[q].attempts && t.rows[q].status == s.rows[q].status)
    && (t.rows[r].status == LOCAL_SCRUBBED ==> t.rows[r].attempts == s.rows[r].attempts + 1 < s.max)
  }

  /** A request is given up only when this was the last attempt. */
  ghost predicate GivenUpAtLimit(s: State, t: State, r: ReqId) {
    r in s.rows && r in t.rows && t.rows[r].status == FAILED ==> s.rows[r].attempts + 1 >= s.max
  }

  lemma CloserLowers(s: State, t: State, r: ReqId)
    requires r in s.rows && Waits(s, r, s.rows[r].attempts) && Closer(s, t, r)
    ensures Measure(t) < Measure(s)
  {
    var a, b := Remaining(s), Remaining(t);
    assert r in a && (r in b ==> b[r] < a[r]) && b - {r} == a - {r};
    OneLower(a, b, r);
  }

  lemma OneLower(a: map<ReqId, nat>, b: map<ReqId, nat>, r: ReqId)
    requires r in a && b - {r} == a - {r} && (r in b ==> b[r] < a[r]) && a[r] > 0
    ensures SumOf(b) < SumOf(a)
  {
    SumWithout(a, r);
    if r in b {
      SumWithout(b, r);
    } else {
      assert b - {r} == b;
    }
  }

  /** Where a pass leaves a request if nothing fails: a request without a provider is for a human to finish. */
  predicate Ends(s: State, r: ReqId, provider: Option<Provider>) {
    r in s.rows && s.rows[r].status == if provider.Some? then COMPLETED else FAILED
  }

  lemma GivesUpAtOnce(s: State, i: RunId)
    requires At(s, i, {Cleaning}) && s.runs[i].attempts.Some? && s.runs[i].provider.None?
    ensures Enabled(s, GiveUp(i))
  {
  }

  lemma ClosesAfter(s: State, i: RunId, attempts: nat)
    requires At(s, i, {Unfinished}) && s.runs[i].attempts.Some? && attempts == s.runs[i].attempts.value + 1
    ensures attempts >= s.max ==> Enabled(s, GiveUp(i))
    ensures attempts < s.max ==> Enabled(s, CountAttempt(i))
  {
  }

  /** The read of the status ends the run or sends it to its last write; the rows stay as they are. */
  lemma ReviewMoves(s: State, i: RunId)
    requires At(s, i, {Cleaning, OthersCleared, Updated}) && s.runs[i].attempts.Some?
    ensures Enabled(s, Review(i))
    ensures var t := Apply(s, Review(i));
            && t == s.(runs := t.runs) && OtherRunsKeep(s, t, i)
            && (s.rows[s.runs[i].req].status != COMPLETED ==>
                  At(t, i, {Unfinished}) && t.runs[i] == s.runs[i].(stage := Unfinished))
  {
  }

  /** The cleanup and then the last read and write, of a request that waited when the pass came to it. */
  lemma CloserAfter(i: RunId, a: seq<Event>, b: seq<Event>, c: seq<Event>, s: State, t: State, u: State, done: bool, ok: bool)
    requires b <= c && Goes(i, a, b, s, t, done) && s.runs[i].attempts.Some? && RowsKeep(t, u) && OtherRunsKeep(t, u, i)
    requires ok && Alone(i.who, b, c) ==> Finishes(t, u, t.runs[i].req, t.runs[i].attempts.value)
    ensures a <= c && RowsKeep(s, u) && OtherRunsKeep(s, u, i)
    ensures ok && Alone(i.who, a, c) && Waits(s, s.runs[i].req, s.runs[i].attempts.value) ==>
              Closer(s, u, s.runs[i].req) && GivenUpAtLimit(s, u, s.runs[i].req)
    ensures ok && Alone(i.who, a, c) && done ==> IsCompleted(u, s.runs[i].req)
  {
    AloneFrom(i.who, a, b, c);
  }

  /** Nobody moved if the request is completed, and otherwise a waiting one is closer to its end. */
  ghost predicate Finishes(s: State, t: State, r: ReqId, attempts: nat) {
    && (IsCompleted(s, r) ==> SameCounts(s, t, r, false))
    && (Waits(s, r, attempts) ==> Closer(s, t, r) && GivenUpAtLimit(s, t, r))
  }

  lemma RunsRest(i: RunId, s: State, t: State)
    requires LocalKeeps(i.who, s, t)
    ensures OtherRunsKeep(s, t, i)
  {
  }

  lemma OthersKeepFurther(i: RunId, s: State, t: State, u: State)
    requires OtherRunsKeep(s, t, i) && OtherRunsKeep(t, u, i)
    ensures OtherRunsKeep(s, u, i)
  {
  }

  lemma FinishesCompleted(s: State, t: State, r: ReqId, attempts: nat)
    requires t == s.(runs := t.runs) && r in s.rows && s.rows[r].status == COMPLETED
    ensures Finishes(s, t, r, attempts)
  {
  }

  lemma FinishesCloser(s: State, t: State, u: State, r: ReqId, attempts: nat)
    requires t == s.(runs := t.runs) && r in s.rows && s.rows[r].status != COMPLETED
    ensures (Waits(t, r, attempts) ==> Closer(t, u, r) && GivenUpAtLimit(t, u, r)) ==> Finishes(s, u, r, attempts)
  {
  }

  class AccountDeletionCleanupJob {
    const db: Database
    const deletion: AccountDeletionService

    constructor (db: Database)
      ensures this.db == db && deletion.db == db && fresh(deletion)
    {
      this.db := db;
      deletion := new AccountDeletionService(db);
    }

    /** The last write of the pass for a request: one more attempt, given up, or nothing if it completed. */
    method Close(i: RunId, e: Event) returns (ok: bool)
      requires db.Valid() && At(db.st, i, {Cleaning, Unfinished}) && db.st.runs[i].attempts.Some?
      requires Enabled(db.st, e) && (e.CountAttempt? || e.GiveUp?) && e.run == i
      modifies db
      ensures db.Valid() && Inv(db.st) && old(db.log) <= db.log && RowsKeep(old(db.st), db.st) && OtherRunsKeep(old(db.st), db.st, i)
      ensures db.failures == old(db.failures) + if ok then 0 else 1
      ensures ok && e.GiveUp? ==> old(db.st.runs[i].req) in db.st.rows && db.st.rows[old(db.st.runs[i].req)].status == FAILED
      ensures ok && Alone(i.who, old(db.log), db.log) && Waits(old(db.st), old(db.st.runs[i].req), old(db.st.runs[i].attempts.value)) ==>
                Closer(old(db.st), db.st, old(db.st.runs[i].req))
      ensures ok && Alone(i.who, old(db.log), db.log) && Waits(old(db.st), old(db.st.runs[i].req), old(db.st.runs[i].attempts.value))
              && (e.CountAttempt? || old(db.st.runs[i].attempts.value) + 1 >= old(db.st.max)) ==>
                GivenUpAtLimit(old(db.st), db.st, old(db.st.runs[i].req))
    {
      hide Inv, After, Alone;
      ok := db.Call(i.who);
      if ok {
        ghost var s, log := db.st, db.log;
        db.Perform(e);
        RowsKeepFurther(old(db.st), s, db.st);
        if Alone(i.who, old(db.log), db.log) {
          AloneSplits(i.who, old(db.log), log, db.log);
        }
      }
    }

    /** What the pass does after the cleanup, however that ended: read the status and, unless completed, count or give up. */
    method ReadAndClose(i: RunId) returns (ok: bool)
      requires db.Valid() && Inv(db.st) && db.st.max == db.max
      requires At(db.st, i, {Cleaning, OthersCleared, Updated}) && db.st.runs[i].attempts.Some?
      modifies db
      ensures db.Valid() && Inv(db.st) && old(db.log) <= db.log && RowsKeep(old(db.st), db.st) && OtherRunsKeep(old(db.st), db.st, i)
      ensures db.failures == old(db.failures) + if ok then 0 else 1
      ensures ok && Alone(i.who, old(db.log), db.log) ==>
                Finishes(old(db.st), db.st, old(db.st.runs[i].req), old(db.st.runs[i].attempts.value))
    {
      hide Inv, After, Alone, RowsKeep, OtherRunsKeep, LocalKeeps, Waits, Closer, Apply, Enabled, IsJob, SameCounts, Finishes, IsCompleted;
      ok := db.Call(i.who);
      RunRests(i, old(db.st), db.st);
      RunsRest(i, old(db.st), db.st);
      if !ok {
        return;
      }
      ghost var s, read := db.st, db.log;
      var completed := db.st.rows[db.st.runs[i].req].status == COMPLETED;
      ReviewMoves(s, i);
      db.Perform(Review(i));
      RowsKeepFurther(old(db.st), s, db.st);
      OthersKeepFurther(i, old(db.st), s, db.st);
      AloneFrom(i.who, old(db.log), read, db.log);
      if completed {
        FinishesCompleted(s, db.st, s.runs[i].req, s.runs[i].attempts.value);
        return;
      }
      ghost var t, reviewed := db.st, db.log;
      var attempts := db.st.runs[i].attempts.value + 1;
      ClosesAfter(t, i, attempts);
      if attempts >= db.max {
        ok := Close(i, GiveUp(i));
      } else {
        ok := Close(i, CountAttempt(i));
      }
      RowsKeepFurther(old(db.st), t, db.st);
      OthersKeepFurther(i, old(db.st), t, db.st);
      AloneFrom(i.who, old(db.log), reviewed, db.log);
      AloneFrom(i.who, old(db.log), read, reviewed);
      FinishesCloser(s, t, db.st, s.runs[i].req, s.runs[i].attempts.value);
    }

    /**
     One request of the batch. Undisturbed, and with the database working, it is closer to its end; without any
     failed call it is completed, or failed if it has no provider.
     */
    method ProcessOne(i: RunId) returns (ok: bool)
      requires db.Valid() && Inv(db.st) && db.st.max == db.max && deletion.db == db
      requires At(db.st, i, {Cleaning}) && db.st.runs[i].attempts.Some?
      requires !db.st.runs[i].blindpay && !db.st.runs[i].privy && db.st.runs[i].attempts.value < db.max
      modifies db
      ensures db.Valid() && Inv(db.st) && old(db.log) <= db.log && RowsKeep(old(db.st), db.st) && OtherRunsKeep(old(db.st), db.st, i)
      ensures db.failures >= old(db.failures) && (!ok ==> db.failures > old(db.failures))
      ensures ok && Alone(i.who, old(db.log), db.log) && Waits(old(db.st), old(db.st.runs[i].req), old(db.st.runs[i].attempts.value)) ==>
                Closer(old(db.st), db.st, old(db.st.runs[i].req))
                && (old(db.st.runs[i].provider).Some? ==> GivenUpAtLimit(old(db.st), db.st, old(db.st.runs[i].req)))
      ensures Alone(i.who, old(db.log), db.log) && db.failures == old(db.failures) ==>
                Ends(db.st, old(db.st.runs[i].req), old(db.st.runs[i].provider))
    {
      hide Inv, After, Alone, Goes, RowsKeep, OtherRunsKeep, LocalKeeps, Waits, Closer, Apply, Enabled, IsJob, Finishes;
      if db.st.runs[i].provider.None? {
        GivesUpAtOnce(db.st, i);
        ok := Close(i, GiveUp(i));
        return;
      }
      var cleaned := deletion.CleanUpExternals(i);
      ghost var s, log := db.st, db.log;
      ghost var done := cleaned && s.runs[i].blindpay && s.runs[i].privy;
      GoesMeans(i, old(db.log), log, old(db.st), s, done);
      ok := ReadAndClose(i);
      CloserAfter(i, old(db.log), log, db.log, old(db.st), s, db.st, done, ok);
    }

    /** One read: up to a batch of the requests that wait and have attempts left. */
    method TakeBatch(me: nat) returns (batch: seq<ReqId>)
      requires db.Valid() && Inv(db.st) && db.st.max == db.max && forall i :: i in db.st.runs ==> i.who != me
      modifies db`st, db`log
      ensures db.Valid() && Inv(db.st) && db.st == old(db.st).(runs := db.st.runs) && |batch| <= BATCH_SIZE
      ensures old(db.log) <= db.log && Taken(db.st, me, batch, 0) && Waiting(db.st, me, batch, 0)
      ensures ProvidersRead(db.st, db.st, me, batch, 0)
      ensures |batch| < BATCH_SIZE ==> Remaining(db.st).Keys == set r | r in batch
    {
      hide Inv, RowsKeep, After, Waits;
      var left := set r | r in db.st.rows && db.st.rows[r].status == LOCAL_SCRUBBED && db.st.rows[r].attempts < db.st.max;
      batch := [];
      while left != {} && |batch| < BATCH_SIZE
        invariant db.Valid() && Inv(db.st) && db.st == old(db.st).(runs := db.st.runs) && |batch| <= BATCH_SIZE
        invariant old(db.log) <= db.log && Taken(db.st, me, batch, 0) && Waiting(db.st, me, batch, 0)
        invariant ProvidersRead(db.st, db.st, me, batch, 0)
        invariant NoRunFrom(db.st, me, |batch|) && forall r :: r in left ==> r !in batch
        invariant forall r :: r in left || r in batch <==>
                    r in db.st.rows && db.st.rows[r].status == LOCAL_SCRUBBED && db.st.rows[r].attempts < db.st.max
      {
        hide Inv, RowsKeep, After, Taken, Waiting, NoRunFrom, ProvidersRead;
        var r :| r in left;
        left := left - {r};
        RetryTakes(db.st, me, batch, r);
        db.Perform(Retry(RunId(me, |batch|), r));
        batch := batch + [r];
      }
    }

    /**
     A cleanup pass. With the database working and nobody else acting, every request of the batch comes
     closer to its end, so a pass that finds any lowers what is left to try; without any failed call it completes
     every request of the batch that has a provider and fails the others.
     */
    method RetryPendingCleanups(me: nat) returns (ok: bool, ghost batch: seq<ReqId>)
      requires db.Valid() && deletion.db == db && forall i :: i in db.st.runs ==> i.who != me
      modifies db
      ensures db.Valid() && Inv(db.st) && old(db.log) <= db.log && RowsKeep(old(db.st), db.st)
      ensures !ok ==> db.failures > old(db.failures)
      ensures ok && Alone(me, old(db.log), db.log) ==>
                && Measure(db.st) + |batch| <= Measure(old(db.st)) && IsBatch(old(db.st), batch)
                && (db.failures == old(db.failures) ==> BatchEnds(db.st, old(db.st), batch, |batch|))
    {
      hide Inv, After, RowsKeep, OtherRunsKeep, LocalKeeps, Taken, Waiting, Alone, Measure, Closer, Waits, Remaining,
           ProvidersRead, BatchEnds, IsBatch, Ends;
      batch := [];
      ok := db.Call(me);
      if !ok {
        return;
      }
      ghost var read, log := db.st, db.log;
      NoRunsYet(me, old(db.st), read);
      var pending := TakeBatch(me);
      batch := pending;
      BatchStarts(me, read, db.st, batch);
      RowsKeepFurther(old(db.st), read, db.st);
      AloneFrom(me, old(db.log), log, db.log);
      ghost var start := db.st;
      NothingEnds(start, start, batch);
      for n := 0 to |pending|
        invariant ok && db.Valid() && Inv(db.st) && db.st.max == db.max && old(db.log) <= db.log
        invariant RowsKeep(old(db.st), db.st) && db.failures >= old(db.failures)
        invariant Taken(db.st, me, pending, n) && ProvidersRead(db.st, start, me, pending, n)
        invariant Alone(me, old(db.log), db.log) ==> Measure(db.st) + n <= Measure(start) && start == old(db.st).(runs := start.runs)
        invariant Alone(me, old(db.log), db.log) ==> Waiting(db.st, me, pending, n)
        invariant Alone(me, old(db.log), db.log) && db.failures == old(db.failures) ==> BatchEnds(db.st, start, pending, n)
      {
        ghost var s, l, failed := db.st, db.log, db.failures;
        TakenAt(s, me, pending, n);
        ok := ProcessOne(RunId(me, n));
        RowsKeepFurther(old(db.st), s, db.st);
        if !ok {
          return;
        }
        AloneFrom(me, old(db.log), l, db.log);
        ProvidersNext(s, db.st, start, me, pending, n);
        if Alone(me, old(db.log), db.log) {
          TakenCloser(s, me, pending, n);
          if db.failures == old(db.failures) {
            EndsNext(s, db.st, start, me, pending, n);
          }
        }
        TakenNext(s, db.st, me, pending, n, Alone(me, old(db.log), db.log));
      }
      MeasureReads(old(db.st), start);
      BatchReads(old(db.st), start, batch);
    }
  }

  // ----- The batch -----

  /** The runs of the batch from the n-th on, as the pass read them. */
  ghost predicate Taken(s: State, me: nat, batch: seq<ReqId>, n: nat) {
    && (forall j, k :: 0 <= j < k < |batch| ==> batch[j] != batch[k])
    && (forall k :: n <= k < |batch| ==>
          && RunId(me, k) in s.runs && batch[k] in s.rows
          && var run := s.runs[RunId(me, k)];
             run.req == batch[k] && run.stage == Cleaning && run.attempts.Some? && run.attempts.value < s.max && !run.blindpay && !run.privy)
  }

  ghost predicate Waiting(s: State, me: nat, batch: seq<ReqId>, n: nat) {
    forall k :: n <= k < |batch| ==>
      && RunId(me, k) in s.runs && s.runs[RunId(me, k)].attempts.Some?
      && Waits(s, batch[k], s.runs[RunId(me, k)].attempts.value)
  }

  /** The runs of the batch from the n-th on go by the providers that their rows named in `read`. */
  ghost predicate ProvidersRead(s: State, read: State, me: nat, batch: seq<ReqId>, n: nat) {
    forall k :: n <= k < |batch| ==>
      RunId(me, k) in s.runs && batch[k] in read.rows && s.runs[RunId(me, k)].provider == read.rows[batch[k]].provider
  }

  /** The first n requests of the batch have got where they get if nothing fails. */
  ghost predicate BatchEnds(s: State, read: State, batch: seq<ReqId>, n: nat) {
    forall k :: 0 <= k < n <= |batch| ==> batch[k] in read.rows && Ends(s, batch[k], read.rows[batch[k]].provider)
  }

  lemma NothingEnds(s: State, read: State, batch: seq<ReqId>)
    ensures BatchEnds(s, read, batch, 0)
  {
  }

  lemma EndsNext(s: State, t: State, read: State, me: nat, batch: seq<ReqId>, n: nat)
    requires n < |batch| && Taken(s, me, batch, n) && BatchEnds(s, read, batch, n) && Closer(s, t, batch[n])
    requires batch[n] in read.rows && Ends(t, batch[n], read.rows[batch[n]].provider)
    ensures BatchEnds(t, read, batch, n + 1)
  {
  }

  lemma ProvidersNext(s: State, t: State, read: State, me: nat, batch: seq<ReqId>, n: nat)
    requires n < |batch| && ProvidersRead(s, read, me, batch, n) && OtherRunsKeep(s, t, RunId(me, n))
    ensures batch[n] in read.rows && RunId(me, n) in s.runs && s.runs[RunId(me, n)].provider == read.rows[batch[n]].provider
    ensures ProvidersRead(t, read, me, batch, n + 1)
  {
  }

  ghost predicate NoRunFrom(s: State, me: nat, n: nat) {
    forall i: RunId :: i in s.runs && i.who == me ==> i.n < n
  }

  lemma RetryTakes(s: State, me: nat, batch: seq<ReqId>, r: ReqId)
    requires Taken(s, me, batch, 0) && Waiting(s, me, batch, 0) && ProvidersRead(s, s, me, batch, 0) && NoRunFrom(s, me, |batch|) && r !in batch
    requires r in s.rows && s.rows[r].status == LOCAL_SCRUBBED && s.rows[r].attempts < s.max
    ensures var e := Retry(RunId(me, |batch|), r);
            && Enabled(s, e) && Apply(s, e) == s.(runs := Apply(s, e).runs) && Taken(Apply(s, e), me, batch + [r], 0)
            && Waiting(Apply(s, e), me, batch + [r], 0) && ProvidersRead(Apply(s, e), Apply(s, e), me, batch + [r], 0)
            && NoRunFrom(Apply(s, e), me, |batch| + 1)
  {
  }

  lemma TakenAt(s: State, me: nat, batch: seq<ReqId>, n: nat)
    requires n < |batch| && Taken(s, me, batch, n)
    ensures At(s, RunId(me, n), {Cleaning}) && s.runs[RunId(me, n)].attempts.Some? && s.runs[RunId(me, n)].req == batch[n]
    ensures !s.runs[RunId(me, n)].blindpay && !s.runs[RunId(me, n)].privy && s.runs[RunId(me, n)].attempts.value < s.max
  {
  }

  lemma TakenNext(s: State, t: State, me: nat, batch: seq<ReqId>, n: nat, alone: bool)
    requires n < |batch| && Taken(s, me, batch, n) && OtherRunsKeep(s, t, RunId(me, n)) && RowsKeep(s, t)
    requires alone ==> Waiting(s, me, batch, n) && (Waits(s, batch[n], s.runs[RunId(me, n)].attempts.value) ==> Closer(s, t, batch[n]))
    ensures Taken(t, me, batch, n + 1)
    ensures alone ==> Waiting(t, me, batch, n + 1) && Measure(t) < Measure(s)
  {
    hide Measure;
    if alone {
      CloserLowers(s, t, batch[n]);
    }
  }

  /** Different requests that wait and have attempts left: a batch of them, or all. */
  ghost predicate IsBatch(s: State, batch: seq<ReqId>) {
    && |batch| <= BATCH_SIZE
    && (forall j, k :: 0 <= j < k < |batch| ==> batch[j] != batch[k])
    && (forall r :: r in batch ==> r in Remaining(s))
    && (|batch| < BATCH_SIZE ==> forall r :: r in Remaining(s) ==> r in batch)
  }

  lemma TakenCloser(s: State, me: nat, batch: seq<ReqId>, n: nat)
    requires n < |batch| && Waiting(s, me, batch, n)
    ensures RunId(me, n) in s.runs && s.runs[RunId(me, n)].attempts.Some?
    ensures Waits(s, batch[n], s.runs[RunId(me, n)].attempts.value)
  {
  }

  lemma BatchStarts(me: nat, s: State, t: State, batch: seq<ReqId>)
    requires t == s.(runs := t.runs) && |batch| <= BATCH_SIZE && Taken(t, me, batch, 0) && Waiting(t, me, batch, 0)
    requires |batch| < BATCH_SIZE ==> Remaining(t).Keys == set r | r in batch
    ensures RowsKeep(s, t) && IsBatch(t, batch)
  {
    forall r | r in batch ensures r in Remaining(t) {
      var k :| 0 <= k < |batch| && batch[k] == r;
      assert Waits(t, batch[k], t.runs[RunId(me, k)].attempts.value);
    }
    if |batch| < BATCH_SIZE {
      assert forall r :: r in Remaining(t) ==> r in Remaining(t).Keys;
    }
  }

  lemma BatchReads(s: State, t: State, batch: seq<ReqId>)
    ensures t == s.(runs := t.runs) && IsBatch(t, batch) ==> IsBatch(s, batch)
    ensures t == s.(runs := t.runs) ==> forall u :: BatchEnds(u, t, batch, |batch|) ==> BatchEnds(u, s, batch, |batch|)
  {
    MeasureReads(s, t);
  }

  lemma NoRunsYet(me: nat, s: State, t: State)
    requires LocalKeeps(me, s, t) && forall i: RunId :: i in s.runs ==> i.who != me
    ensures forall i: RunId :: i in t.runs ==> i.who != me
  {
  }

  lemma AloneFrom(me: nat, a: seq<Event>, b: seq<Event>, c: seq<Event>)
    requires a <= b <= c
    ensures Alone(me, a, c) ==> Alone(me, a, b) && Alone(me, b, c)
  {
  }

  lemma MeasureReads(s: State, t: State)
    ensures t == s.(runs := t.runs) ==> Measure(t) == Measure(s) && Remaining(t) == Remaining(s)
  {
  }
}
