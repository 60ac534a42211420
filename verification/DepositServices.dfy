/**
 The deposit calls and jobs as the code runs them: one database or network call at a time, with any
 steps by other calls in between.
 */
module DepositServices {
  import opened Common
  import opened Deposits

  const BATCH_SIZE := 50

  predicate HasCall(e: Event) {
    e.Check? || e.Sign? || e.Answer? || e.Commit? || e.Abort? || e.SeePending? || e.Confirm?
  }

  /** The steps nobody but the call `me` takes. */
  predicate Owns(me: nat, e: Event) {
    HasCall(e) && e.call.who == me
  }

  ghost predicate LocalKeeps(me: nat, s: State, t: State) {
    && (forall c: CallId :: c.who == me ==> (c in s.submits <==> c in t.submits) && (c in s.submits ==> t.submits[c] == s.submits[c]))
    && (forall c: CallId :: c.who == me ==>
          (c in s.reconciles <==> c in t.reconciles) && (c in s.reconciles ==> t.reconciles[c] == s.reconciles[c]))
  }

  /** Records are never lost, nor a confirmation taken back. */
  ghost predicate RecordsKeep(s: State, t: State) {
    forall i :: i in s.records ==> i in t.records && (s.records[i] == RECORDED_CONFIRMED ==> t.records[i] == RECORDED_CONFIRMED)
  }

  lemma StepKeeps(me: nat, s: State, e: Event)
    requires Enabled(s, e)
    ensures RecordsKeep(s, Apply(s, e)) && (!Owns(me, e) ==> LocalKeeps(me, s, Apply(s, e)))
  {
  }

  lemma {:induction false} RunKeeps(me: nat, log: seq<Event>, more: seq<Event>)
    requires log <= more && Legal(more)
    ensures Legal(log) && RecordsKeep(Play(log), Play(more))
    ensures (forall k :: |log| <= k < |more| ==> !Owns(me, more[k])) ==> LocalKeeps(me, Play(log), Play(more))
    decreases |more|
  {
    if |log| < |more| {
      hide Apply, Enabled;
      RunKeeps(me, log, more[..|more| - 1]);
      StepKeeps(me, Play(more[..|more| - 1]), more[|more| - 1]);
    } else {
      assert log == more;
    }
  }

  /** None of the new steps was taken by the call itself. */
  ghost predicate Idle(me: nat, log: seq<Event>, more: seq<Event>) {
    log <= more && forall k :: |log| <= k < |more| ==> !Owns(me, more[k])
  }

  class Database {
    var st: State
    ghost var log: seq<Event>
    /** How many of the calls made through this object have failed. */
    ghost var failures: nat

    ghost predicate Valid()
      reads this
    {
      Legal(log) && st == Play(log)
    }

    constructor ()
      ensures Valid() && log == []
    {
      st := Empty;
      log, failures := [], 0;
    }

    /** Any number of steps by everyone else; callers know nothing else about it. */
    method Others(ghost me: nat)
      requires Valid()
      modifies this`st, this`log
      ensures Valid() && Idle(me, old(log), log)
    {
    }

    /** One call of `me`: others act first, and it may fail. */
    method Call(ghost me: nat) returns (ok: bool)
      requires Valid()
      modifies this
      ensures Valid() && Inv(st) && Idle(me, old(log), log) && RecordsKeep(old(st), st) && LocalKeeps(me, old(st), st)
      ensures failures == old(failures) + if ok then 0 else 1
    {
      hide Run, Inv, RecordsKeep, LocalKeeps;
      Others(me);
      RunKeeps(me, old(log), log);
      EveryRunKeepsInv(log);
      ok := *;
      if !ok {
        failures := failures + 1;
      }
    }

    method Perform(e: Event)
      requires Valid() && Enabled(st, e)
      modifies this`st, this`log
      ensures Valid() && Inv(st) && log == old(log) + [e] && st == Apply(old(st), e) && RecordsKeep(old(st), st)
    {
      hide Run, Inv, RecordsKeep, Apply, Enabled;
      log := log + [e];
      Extend(old(log), e);
      st := Apply(st, e);
      StepKeeps(0, old(st), e);
      EveryRunKeepsInv(log);
    }
  }

  datatype SubmitError = NotFound | AlreadyConfirmed | AlreadySubmitted | InFailedState | NoXdrYet | HasExpired | Broken

  datatype View = View(status: IntentStatus, state: TransactionState)

  class DepositsService {
    const db: Database

    constructor (db: Database)
      ensures this.db == db
    {
      this.db := db;
    }

    /**
     A signed submission. Refused, it has written nothing; accepted, the deposit has its one record and both
     rows say what the caller is told. It breaks only on a failed call, or because another submit of the
     same intent was recorded first, or the intent was purged.
     */
    method SubmitSignedXdr(me: nat, i: IntentId) returns (r: Result<IntentStatus, SubmitError>)
      requires db.Valid() && CallId(me, 0) !in db.st.submits
      modifies db
      ensures db.Valid() && Inv(db.st) && old(db.log) <= db.log && RecordsKeep(old(db.st), db.st)
      ensures r.Err? && r.error != Broken ==> Idle(me, old(db.log), db.log) && RefusalHolds(db.st, i, r.error)
      ensures r.Ok? ==> r.value in {CONFIRMED, SUBMITTED} && i in db.st.intents && db.st.intents[i].status == r.value
      ensures r.Ok? ==> RecordOf(db.st, i) == Some(if r.value == CONFIRMED then RECORDED_CONFIRMED else PENDING)
      ensures r == Err(Broken) ==> db.failures > old(db.failures) || i in db.st.records || i !in db.st.intents
    {
      hide Run, Inv, RecordsKeep, LocalKeeps;
      var c := CallId(me, 0);
      var ok := db.Call(me);
      SubmitRests(c, old(db.st), db.st);
      if !ok {
        return Err(Broken);
      }
      if i !in db.st.intents {
        return Err(NotFound);
      }
      var intent := db.st.intents[i];
      if intent.status == CONFIRMED {
        return Err(AlreadyConfirmed);
      }
      if intent.status == SUBMITTED {
        return Err(AlreadySubmitted);
      }
      if intent.status == FAILED {
        return Err(InFailedState);
      }
      if intent.status == CREATED {
        return Err(NoXdrYet);
      }
      if db.st.now > intent.expiresAt {
        return Err(HasExpired);
      }
      ghost var s := db.st;
      db.Perform(Check(c, i));
      RecordsKeepFurther(old(db.st), s, db.st);
      s := db.st;
      r := SubmitDeposit(c, i);
      RecordsKeepFurther(old(db.st), s, db.st);
    }

    /** The signed XDR is stored, sent, and the answer recorded in one transaction with the status. */
    method SubmitDeposit(c: CallId, i: IntentId) returns (r: Result<IntentStatus, SubmitError>)
      requires db.Valid() && Inv(db.st) && c in db.st.submits && db.st.submits[c] == Checked(i)
      modifies db
      ensures db.Valid() && Inv(db.st) && old(db.log) <= db.log && RecordsKeep(old(db.st), db.st)
      ensures r.Ok? ==> r.value in {CONFIRMED, SUBMITTED} && i in db.st.intents && db.st.intents[i].status == r.value
      ensures r.Ok? ==> RecordOf(db.st, i) == Some(if r.value == CONFIRMED then RECORDED_CONFIRMED else PENDING)
      ensures r.Err? ==> r.error == Broken && (db.failures > old(db.failures) || i in db.st.records || i !in db.st.intents)
    {
      hide Run, Inv, RecordsKeep, LocalKeeps;
      var ok := db.Call(c.who);
      SubmitRests(c, old(db.st), db.st);
      if !ok || i !in db.st.intents {
        return Err(Broken);
      }
      ghost var s := db.st;
      db.Perform(Sign(c));
      RecordsKeepFurther(old(db.st), s, db.st);
      s := db.st;
      ok := db.Call(c.who);
      SubmitRests(c, s, db.st);
      RecordsKeepFurther(old(db.st), s, db.st);
      if !ok {
        return Err(Broken);
      }
      s := db.st;
      var success := *;
      db.Perform(Answer(c, success));
      RecordsKeepFurther(old(db.st), s, db.st);
      s := db.st;
      ok := db.Call(c.who);
      SubmitRests(c, s, db.st);
      RecordsKeepFurther(old(db.st), s, db.st);
      if !ok || i !in db.st.intents || i in db.st.records {
        return Err(Broken);
      }
      s := db.st;
      db.Perform(Commit(c));
      RecordsKeepFurther(old(db.st), s, db.st);
      return Ok(if success then CONFIRMED else SUBMITTED);
    }

    method GetDeposit(i: IntentId) returns (view: Option<View>)
      requires db.Valid() && Inv(db.st)
      ensures view.Some? <==> i in db.st.intents
      ensures view.Some? ==> view.value.status == db.st.intents[i].status
      ensures view.Some? ==> ShownAs(db.st.intents[i], RecordOf(db.st, i), db.st.now, view.value.state)
      ensures view.Some? ==> view.value.state == DetailState(db.st.intents[i], RecordOf(db.st, i), db.st.now)
      ensures view.Some? ==> (view.value.state == ShowSuccess <==> Succeeded(db.st, i))
    {
      if i !in db.st.intents {
        return None;
      }
      var intent, record := db.st.intents[i], RecordOf(db.st, i);
      SuccessIsARecord(db.st, i, db.st.now);
      DetailShowsTheRow(intent, record, db.st.now);
      hide ShownAs;
      var state := Normalize(intent.status, intent.expiresAt, intent.code, record == Some(RECORDED_CONFIRMED), db.st.now);
      return Some(View(intent.status, state));
    }

    /** The history rewrites the status first, and still shows every deposit as the detail does. */
    method ListDeposits() returns (views: map<IntentId, View>)
      requires db.Valid() && Inv(db.st)
      ensures views.Keys == db.st.intents.Keys
      ensures forall i :: i in views ==>
                && views[i].status == (if RecordOf(db.st, i) == Some(RECORDED_CONFIRMED) then CONFIRMED else db.st.intents[i].status)
                && views[i].state == DetailState(db.st.intents[i], RecordOf(db.st, i), db.st.now)
                && ShownAs(db.st.intents[i], RecordOf(db.st, i), db.st.now, views[i].state)
    {
      hide ShownAs;
      views := map[];
      var left := db.st.intents.Keys;
      while left != {}
        invariant left <= db.st.intents.Keys && views.Keys == db.st.intents.Keys - left
        invariant forall i :: i in views ==>
                    && views[i].status == ListStatus(db.st.intents[i], RecordOf(db.st, i))
                    && views[i].state == DetailState(db.st.intents[i], RecordOf(db.st, i), db.st.now)
                    && ShownAs(db.st.intents[i], RecordOf(db.st, i), db.st.now, views[i].state)
      {
        var i :| i in left;
        left := left - {i};
        var intent, record := db.st.intents[i], RecordOf(db.st, i);
        HistoryAgrees(db.st, i);
        DetailShowsTheRow(intent, record, db.st.now);
        var status := if record == Some(RECORDED_CONFIRMED) then CONFIRMED else intent.status;
        var state := Normalize(status, intent.expiresAt, intent.code, record == Some(RECORDED_CONFIRMED), db.st.now);
        views := views[i := View(status, state)];
      }
    }
  }

  class ExpiredIntentsJob {
    const db: Database

    constructor (db: Database)
      ensures this.db == db
    {
      this.db := db;
    }

    /** One bulk update: exactly the unsigned intents past their date are failed. */
    method ExpireIntents()
      requires db.Valid() && Inv(db.st)
      modifies db
      ensures db.Valid() && Inv(db.st) && old(db.log) <= db.log
      ensures db.st == old(db.st).(intents := db.st.intents) && db.st.intents.Keys == old(db.st.intents.Keys)
      ensures forall i :: i in old(db.st.intents) ==>
                var intent := old(db.st.intents[i]);
                db.st.intents[i] == if intent.status in {CREATED, XDR_GENERATED} && intent.expiresAt < old(db.st.now)
                                    then intent.(status := FAILED) else intent
    {
      var left := db.st.intents.Keys;
      while left != {}
        invariant db.Valid() && Inv(db.st) && old(db.log) <= db.log
        invariant db.st == old(db.st).(intents := db.st.intents) && db.st.intents.Keys == old(db.st.intents.Keys)
        invariant left <= db.st.intents.Keys && forall i :: i in left ==> db.st.intents[i] == old(db.st.intents[i])
        invariant forall i :: i in old(db.st.intents) && i !in left ==>
                    var intent := old(db.st.intents[i]);
                    db.st.intents[i] == if intent.status in {CREATED, XDR_GENERATED} && intent.expiresAt < old(db.st.now)
                                        then intent.(status := FAILED) else intent
      {
        hide Inv, RecordsKeep, Run;
        var i :| i in left;
        left := left - {i};
        if Enabled(db.st, Expire(i)) {
          db.Perform(Expire(i));
        }
      }
    }

    /** Removes old failed intents, but none that has a record; a submit on its way may still lose its row. */
    method PurgeFailed(aged: set<IntentId>)
      requires db.Valid() && Inv(db.st)
      modifies db
      ensures db.Valid() && Inv(db.st) && old(db.log) <= db.log && db.st.records == old(db.st.records)
      ensures forall i :: i in old(db.st.intents) ==>
                (i in db.st.intents <==> !(i in aged && old(db.st.intents[i]).status == FAILED && i !in old(db.st.records)))
      ensures forall i :: i in db.st.intents ==> i in old(db.st.intents) && db.st.intents[i] == old(db.st.intents[i])
    {
      var left := aged;
      while left != {}
        invariant db.Valid() && Inv(db.st) && old(db.log) <= db.log && db.st.records == old(db.st.records) && left <= aged
        invariant forall i :: i in old(db.st.intents) ==>
                    (i in db.st.intents <==>
                     !(i in aged - left && old(db.st.intents[i]).status == FAILED && i !in old(db.st.records)))
        invariant forall i :: i in db.st.intents ==> i in old(db.st.intents) && db.st.intents[i] == old(db.st.intents[i])
      {
        hide Inv, RecordsKeep, Run;
        var i :| i in left;
        left := left - {i};
        if Enabled(db.st, Purge(i)) {
          db.Perform(Purge(i));
        }
      }
    }
  }

  class ReconciliationJob {
    const db: Database

    constructor (db: Database)
      ensures this.db == db
    {
      this.db := db;
    }

    /** One read of records still pending, at most a batch. */
    method ReadPending(me: nat) returns (batch: seq<IntentId>)
      requires db.Valid() && Inv(db.st)
      modifies db`st, db`log
      ensures db.Valid() && Inv(db.st) && old(db.log) <= db.log && RecordsKeep(old(db.st), db.st) && |batch| <= BATCH_SIZE
      ensures Seen(db.st, me, batch, 0) && db.st.records == old(db.st.records) && WerePending(old(db.st), batch)
      ensures |batch| < BATCH_SIZE ==> forall i :: i in db.st.records && db.st.records[i] == PENDING ==> i in batch
    {
      hide Inv, RecordsKeep, Run, Seen, WerePending, Legal, Play, Apply, Enabled;
      var left := set i | i in db.st.records && db.st.records[i] == PENDING;
      batch := [];
      NonePending(db.st, me);
      while left != {} && |batch| < BATCH_SIZE
        invariant db.Valid() && Inv(db.st) && old(db.log) <= db.log && db.st.records == old(db.st.records) && |batch| <= BATCH_SIZE
        invariant RecordsKeep(old(db.st), db.st)
        invariant left <= db.st.records.Keys && (forall i :: i in left ==> db.st.records[i] == PENDING)
        invariant forall i :: i in db.st.records && db.st.records[i] == PENDING ==> i in left || i in batch
        invariant Seen(db.st, me, batch, 0) && WerePending(old(db.st), batch) && forall i :: i in left ==> i !in batch
      {
        var i :| i in left;
        left := left - {i};
        PendingMore(old(db.st), batch, i);
        SeenMore(db.st, me, batch, i);
        ghost var s := db.st;
        db.Perform(SeePending(CallId(me, |batch|), i));
        RecordsKeepFurther(old(db.st), s, db.st);
        batch := batch + [i];
      }
    }

    /**
     What the network confirms is confirmed in both rows. `landed` are the deposits it would report as
     successful; a failure concerns only its own record, and without one none of the batch is missed.
     */
    method ReconcilePending(me: nat, landed: set<IntentId>) returns (confirmed: set<IntentId>, ghost read: State, ghost batch: seq<IntentId>)
      requires db.Valid()
      modifies db
      ensures db.Valid() && Inv(db.st) && old(db.log) <= db.log && RecordsKeep(old(db.st), db.st) && db.failures >= old(db.failures)
      ensures confirmed <= landed && forall i :: i in confirmed ==> Succeeded(db.st, i)
      ensures WerePending(read, batch) && |batch| <= BATCH_SIZE
      ensures db.failures == old(db.failures) ==> confirmed == set i | i in batch && i in landed
      ensures db.failures == old(db.failures) && |batch| < BATCH_SIZE ==>
                forall i :: i in read.records && read.records[i] == PENDING ==> i in batch
    {
      hide Run, Inv, LocalKeeps, RecordsKeep, Seen, Apply, Enabled, Succeeded, WerePending;
      confirmed, batch := {}, [];
      var ok := db.Call(me);
      read := db.st;
      NonePending(read, me);
      if !ok {
        return;
      }
      var listed := ReadPending(me);
      batch := listed;
      RecordsKeepFurther(old(db.st), read, db.st);
      for n := 0 to |listed|
        invariant db.Valid() && Inv(db.st) && old(db.log) <= db.log && RecordsKeep(old(db.st), db.st)
        invariant db.failures >= old(db.failures) && confirmed <= landed
        invariant Seen(db.st, me, listed, n) && forall i :: i in confirmed ==> Succeeded(db.st, i)
        invariant db.failures == old(db.failures) ==> confirmed == set i | i in listed[..n] && i in landed
      {
        ghost var s := db.st;
        var success := ReconcileOne(me, listed, n, listed[n] in landed);
        RecordsKeepFurther(old(db.st), s, db.st);
        SucceededKept(s, db.st, confirmed);
        assert listed[..n + 1] == listed[..n] + [listed[n]];
        confirmed := if success then confirmed + {listed[n]} else confirmed;
      }
      assert listed[..|listed|] == listed;
    }

    method ReconcileOne(me: nat, batch: seq<IntentId>, n: nat, landed: bool) returns (success: bool)
      requires db.Valid() && Inv(db.st) && n < |batch| && Seen(db.st, me, batch, n)
      modifies db
      ensures db.Valid() && Inv(db.st) && old(db.log) <= db.log && RecordsKeep(old(db.st), db.st)
      ensures Seen(db.st, me, batch, n + 1) && (success ==> landed && Succeeded(db.st, batch[n]))
      ensures db.failures >= old(db.failures) && (db.failures == old(db.failures) ==> success == landed)
    {
      hide Run, Inv, LocalKeeps, RecordsKeep, Seen;
      var ok := db.Call(me);
      SeenKept(old(db.st), db.st, me, batch, n);
      if !ok || !landed {
        return false;
      }
      ghost var s := db.st;
      success := db.Call(me);
      SeenKept(s, db.st, me, batch, n);
      RecordsKeepFurther(old(db.st), s, db.st);
      if !success {
        return;
      }
      s := db.st;
      ConfirmAllowed(s, me, batch, n);
      db.Perform(Confirm(CallId(me, n)));
      RecordsKeepFurther(old(db.st), s, db.st);
    }
  }

  ghost predicate RefusalHolds(s: State, i: IntentId, error: SubmitError) {
    match error
    case NotFound => i !in s.intents
    case AlreadyConfirmed => i in s.intents && s.intents[i].status == CONFIRMED
    case AlreadySubmitted => i in s.intents && s.intents[i].status == SUBMITTED
    case InFailedState => i in s.intents && s.intents[i].status == FAILED
    case NoXdrYet => i in s.intents && s.intents[i].status == CREATED
    case HasExpired => i in s.intents && s.intents[i].status in {XDR_GENERATED, SIGNED_XDR_RECEIVED} && s.intents[i].expiresAt < s.now
    case Broken => true
  }

  lemma SubmitRests(c: CallId, s: State, t: State)
    requires LocalKeeps(c.who, s, t)
    ensures c in s.submits <==> c in t.submits
    ensures c in s.submits ==> t.submits[c] == s.submits[c]
  {
  }

  lemma RecordsKeepFurther(s: State, t: State, u: State)
    requires RecordsKeep(s, t) && RecordsKeep(t, u)
    ensures RecordsKeep(s, u)
  {
  }

  lemma HistoryAgrees(s: State, i: IntentId)
    requires Inv(s) && i in s.intents
    ensures forall now :: DetailState(s.intents[i], RecordOf(s, i), now) == ListState(s.intents[i], RecordOf(s, i), now)
  {
  }

  /** Different intents whose records were pending. */
  ghost predicate WerePending(s: State, batch: seq<IntentId>) {
    && (forall j, k :: 0 <= j < k < |batch| ==> batch[j] != batch[k])
    && (forall i :: i in batch ==> i in s.records && s.records[i] == PENDING)
  }

  lemma NonePending(s: State, me: nat)
    ensures WerePending(s, []) && Seen(s, me, [], 0) && RecordsKeep(s, s)
  {
  }

  lemma PendingMore(s: State, batch: seq<IntentId>, i: IntentId)
    requires WerePending(s, batch) && i in s.records && s.records[i] == PENDING && i !in batch
    ensures WerePending(s, batch + [i])
  {
  }

  ghost predicate Seen(s: State, me: nat, batch: seq<IntentId>, n: nat) {
    forall k :: n <= k < |batch| ==>
      CallId(me, k) in s.reconciles && s.reconciles[CallId(me, k)] == batch[k] && batch[k] in s.records
  }

  lemma SeenMore(s: State, me: nat, batch: seq<IntentId>, i: IntentId)
    requires Seen(s, me, batch, 0) && i in s.records && s.records[i] == PENDING
    ensures Enabled(s, SeePending(CallId(me, |batch|), i))
    ensures Seen(Apply(s, SeePending(CallId(me, |batch|), i)), me, batch + [i], 0)
    ensures Apply(s, SeePending(CallId(me, |batch|), i)).records == s.records
  {
  }

  lemma SeenKept(s: State, t: State, me: nat, batch: seq<IntentId>, n: nat)
    requires Seen(s, me, batch, n) && LocalKeeps(me, s, t) && RecordsKeep(s, t)
    ensures Seen(t, me, batch, n) && Seen(t, me, batch, n + 1)
  {
  }

  lemma ConfirmAllowed(s: State, me: nat, batch: seq<IntentId>, n: nat)
    requires Inv(s) && n < |batch| && Seen(s, me, batch, n)
    ensures Enabled(s, Confirm(CallId(me, n)))
    ensures Succeeded(Apply(s, Confirm(CallId(me, n))), batch[n]) && Seen(Apply(s, Confirm(CallId(me, n))), me, batch, n + 1)
  {
  }

  lemma SucceededKept(s: State, t: State, confirmed: set<IntentId>)
    requires RecordsKeep(s, t) && Inv(t) && forall i :: i in confirmed ==> Succeeded(s, i)
    ensures forall i :: i in confirmed ==> Succeeded(t, i)
  {
  }
}
