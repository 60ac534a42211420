/**
 A deposit intent from creation to confirmation (src/deposits/deposits.service.ts,
 src/defindex/defindex.orchestrator.ts, src/jobs/expired-intents.job.ts, src/jobs/reconciliation.job.ts):
 creating calls, any number of submits at once, expiry, purge and reconciliation write the same rows,
 mostly without looking at them again. The client sees a projection of them, computed in two places.
 */
module Deposits {
  import opened Common

  type IntentId = nat
  /** A call or job pass `who`, and which of its items it works on. */
  datatype CallId = CallId(who: nat, n: nat)

  datatype IntentStatus = CREATED | XDR_GENERATED | SIGNED_XDR_RECEIVED | SUBMITTED | CONFIRMED | FAILED

  datatype FailureCode =
    | USER_REJECTED_SIGNATURE | SIGNATURE_MISMATCH | INTENT_EXPIRED | INSUFFICIENT_BALANCE | NO_TRUSTLINE
    | SLIPPAGE_EXCEEDED | QUOTE_EXPIRED | XDR_GENERATION_FAILED | UPSTREAM_UNAVAILABLE | CHAIN_REJECTED | UNKNOWN

  // ----- What the client is shown -----

  datatype TransactionState = ShowPendingSignature | ShowPending | ShowSuccess | ShowRejected | ShowFailed | ShowExpired

  predicate IsUserActionable(code: Option<FailureCode>) {
    && code.Some?
    && code.value in {USER_REJECTED_SIGNATURE, SIGNATURE_MISMATCH, INTENT_EXPIRED, INSUFFICIENT_BALANCE, NO_TRUSTLINE,
                      SLIPPAGE_EXCEEDED, QUOTE_EXPIRED}
  }

  function Normalize(status: IntentStatus, expiresAt: int, code: Option<FailureCode>, txConfirmed: bool, now: int): TransactionState {
    match status
    case CONFIRMED => ShowSuccess
    case FAILED => if IsUserActionable(code) then ShowRejected else ShowFailed
    case SIGNED_XDR_RECEIVED | SUBMITTED => if txConfirmed then ShowSuccess else ShowPending
    case CREATED | XDR_GENERATED => if now > expiresAt then ShowExpired else ShowPendingSignature
  }

  /** The states at which the client stops asking. */
  predicate IsTerminal(state: TransactionState) {
    state != ShowPendingSignature && state != ShowPending
  }

  datatype Intent = Intent(status: IntentStatus, expiresAt: int, code: Option<FailureCode>)
  datatype RecordStatus = PENDING | RECORDED_CONFIRMED

  function DetailState(intent: Intent, record: Option<RecordStatus>, now: int): TransactionState {
    Normalize(intent.status, intent.expiresAt, intent.code, record == Some(RECORDED_CONFIRMED), now)
  }

  /** What each state means, by the row: its status, its date, its failure code and its record. */
  ghost predicate ShownAs(intent: Intent, record: Option<RecordStatus>, now: int, state: TransactionState) {
    var signed := intent.status == SIGNED_XDR_RECEIVED || intent.status == SUBMITTED;
    var unsigned := intent.status == CREATED || intent.status == XDR_GENERATED;
    var usersOwn := {Some(USER_REJECTED_SIGNATURE), Some(SIGNATURE_MISMATCH), Some(INTENT_EXPIRED), Some(INSUFFICIENT_BALANCE),
                     Some(NO_TRUSTLINE), Some(SLIPPAGE_EXCEEDED), Some(QUOTE_EXPIRED)};
    var others := {None, Some(XDR_GENERATION_FAILED), Some(UPSTREAM_UNAVAILABLE), Some(CHAIN_REJECTED), Some(UNKNOWN)};
    && (state == ShowSuccess <==> intent.status == CONFIRMED || (signed && record == Some(RECORDED_CONFIRMED)))
    && (state == ShowPending <==> signed && record != Some(RECORDED_CONFIRMED))
    && (state == ShowPendingSignature <==> unsigned && now <= intent.expiresAt)
    && (state == ShowExpired <==> unsigned && now > intent.expiresAt)
    && (state == ShowRejected <==> intent.status == FAILED && intent.code in usersOwn)
    && (state == ShowFailed <==> intent.status == FAILED && intent.code in others)
  }

  lemma DetailShowsTheRow(intent: Intent, record: Option<RecordStatus>, now: int)
    ensures ShownAs(intent, record, now, DetailState(intent, record, now))
  {
    if intent.code.Some? {
      match intent.code.value {
        case USER_REJECTED_SIGNATURE | SIGNATURE_MISMATCH | INTENT_EXPIRED | INSUFFICIENT_BALANCE | NO_TRUSTLINE =>
        case SLIPPAGE_EXCEEDED | QUOTE_EXPIRED =>
        case XDR_GENERATION_FAILED | UPSTREAM_UNAVAILABLE | CHAIN_REJECTED | UNKNOWN =>
      }
    }
  }

  function ListStatus(intent: Intent, record: Option<RecordStatus>): IntentStatus {
    if record == Some(RECORDED_CONFIRMED) then CONFIRMED else intent.status
  }

  function ListState(intent: Intent, record: Option<RecordStatus>, now: int): TransactionState {
    Normalize(ListStatus(intent, record), intent.expiresAt, intent.code, record == Some(RECORDED_CONFIRMED), now)
  }

  /** The two projections are the same function on every row but a confirmed record of an unsigned or failed intent. */
  lemma ProjectionsAgreeExactly(intent: Intent, record: Option<RecordStatus>)
    ensures (forall now :: DetailState(intent, record, now) == ListState(intent, record, now)) <==>
            !(record == Some(RECORDED_CONFIRMED) && intent.status in {CREATED, XDR_GENERATED, FAILED})
  {
    if record == Some(RECORDED_CONFIRMED) && intent.status in {CREATED, XDR_GENERATED, FAILED} {
      assert DetailState(intent, record, intent.expiresAt) != ListState(intent, record, intent.expiresAt);
    }
  }

  // ----- The rows and who writes them -----

  datatype Submit = Checked(intent: IntentId) | Signed(intent: IntentId) | Answered(intent: IntentId, success: bool)

  /** `building` are the intents whose creating call is still at work, `used` all ids there ever were. */
  datatype State = State(intents: map<IntentId, Intent>, records: map<IntentId, RecordStatus>, used: set<IntentId>,
                         building: set<IntentId>, submits: map<CallId, Submit>, reconciles: map<CallId, IntentId>, now: int)

  datatype Event =
    | Create(intent: IntentId, expiresAt: int)
    | Generated(intent: IntentId)
    | BuildFailed(intent: IntentId, code: FailureCode)
    | Tick(now: int)
    | Check(call: CallId, intent: IntentId)
    | Sign(call: CallId)
    | Answer(call: CallId, success: bool)
    | Commit(call: CallId)
    | Abort(call: CallId)
    | Expire(intent: IntentId)
    | Purge(intent: IntentId)
    | SeePending(call: CallId, intent: IntentId)
    | Confirm(call: CallId)

  predicate Enabled(s: State, e: Event) {
    match e
    case Create(i, _) => i !in s.used
    case Generated(i) => i in s.building && i in s.intents
    case BuildFailed(i, _) => i in s.building && i in s.intents
    case Tick(now) => s.now <= now
    case Check(c, i) =>
      c !in s.submits && i in s.intents && s.intents[i].status in {XDR_GENERATED, SIGNED_XDR_RECEIVED} && s.now <= s.intents[i].expiresAt
    case Sign(c) => c in s.submits && s.submits[c].Checked? && s.submits[c].intent in s.intents
    case Answer(c, _) => c in s.submits && s.submits[c].Signed?
    case Commit(c) =>
      c in s.submits && s.submits[c].Answered? && s.submits[c].intent in s.intents && s.submits[c].intent !in s.records
    case Abort(c) => true
    case Expire(i) => i in s.intents && s.intents[i].status in {CREATED, XDR_GENERATED} && s.intents[i].expiresAt < s.now
    case Purge(i) => i in s.intents && s.intents[i].status == FAILED && i !in s.records
    case SeePending(c, i) => i in s.records && s.records[i] == PENDING
    case Confirm(c) => c in s.reconciles && s.reconciles[c] in s.records && s.reconciles[c] in s.intents
  }

  function SetStatus(s: State, i: IntentId, status: IntentStatus): State
    requires i in s.intents
  {
    s.(intents := s.intents[i := s.intents[i].(status := status)])
  }

  function Apply(s: State, e: Event): State
    requires Enabled(s, e)
  {
    match e
    case Create(i, expiresAt) =>
      s.(intents := s.intents[i := Intent(CREATED, expiresAt, None)], used := s.used + {i}, building := s.building + {i})
    case Generated(i) => SetStatus(s, i, XDR_GENERATED).(building := s.building - {i})
    case BuildFailed(i, code) =>
      s.(intents := s.intents[i := s.intents[i].(status := FAILED, code := Some(code))], building := s.building - {i})
    case Tick(now) => s.(now := now)
    case Check(c, i) => s.(submits := s.submits[c := Checked(i)])
    case Sign(c) =>
      var i := s.submits[c].intent;
      SetStatus(s, i, SIGNED_XDR_RECEIVED).(submits := s.submits[c := Signed(i)])
    case Answer(c, success) => s.(submits := s.submits[c := Answered(s.submits[c].intent, success)])
    case Commit(c) =>
      var i, success := s.submits[c].intent, s.submits[c].success;
      SetStatus(s, i, if success then CONFIRMED else SUBMITTED).(
        records := s.records[i := if success then RECORDED_CONFIRMED else PENDING], submits := s.submits - {c})
    case Abort(c) => s.(submits := s.submits - {c}, reconciles := s.reconciles - {c})
    case Expire(i) => SetStatus(s, i, FAILED)
    case Purge(i) => s.(intents := s.intents - {i}, building := s.building - {i})
    case SeePending(c, i) => s.(reconciles := s.reconciles[c := i])
    case Confirm(c) =>
      var i := s.reconciles[c];
      SetStatus(s, i, CONFIRMED).(records := s.records[i := RECORDED_CONFIRMED], reconciles := s.reconciles - {c})
  }

  ghost predicate IntentOk(s: State, i: IntentId)
    requires i in s.intents
  {
    var status := s.intents[i].status;
    && i in s.used
    && (i in s.building ==> status in {CREATED, FAILED} && i !in s.records)
    && (i in s.building && status == FAILED ==> s.intents[i].expiresAt < s.now)
    && (status in {SUBMITTED, CONFIRMED} ==> i in s.records)
    && (status == CONFIRMED ==> s.records[i] == RECORDED_CONFIRMED)
  }

  ghost predicate Inv(s: State) {
    && (forall i :: i in s.intents ==> IntentOk(s, i))
    && (forall i :: i in s.records ==> i in s.intents && s.intents[i].status in {SIGNED_XDR_RECEIVED, SUBMITTED, CONFIRMED})
    && (forall c :: c in s.submits ==> s.submits[c].intent in s.used && s.submits[c].intent !in s.building)
    && (forall c :: c in s.submits ==> SubmitOk(s, s.submits[c]))
    && (forall c :: c in s.reconciles ==> s.reconciles[c] in s.records)
    && s.building <= s.used
  }

  /** What has been signed is never unsigned or failed again. */
  ghost predicate SubmitOk(s: State, submit: Submit) {
    !submit.Checked? && submit.intent in s.intents ==> s.intents[submit.intent].status in {SIGNED_XDR_RECEIVED, SUBMITTED, CONFIRMED}
  }

  lemma StepKeepsInv(s: State, e: Event)
    requires Inv(s) && Enabled(s, e)
    ensures Inv(Apply(s, e))
  {
    var t := Apply(s, e);
    forall i | i in t.intents ensures IntentOk(t, i) {
      assert i in s.intents ==> IntentOk(s, i);
    }
  }

  const Empty := State(map[], map[], {}, {}, map[], map[], 0)

  /** The state after the steps of `log`, in order; none if some step was not allowed when it came. */
  function Run(log: seq<Event>): Option<State> {
    if log == [] then Some(Empty)
    else
      var before, e := Run(log[..|log| - 1]), log[|log| - 1];
      if before.Some? && Enabled(before.value, e) then Some(Apply(before.value, e)) else None
  }

  predicate Legal(log: seq<Event>) {
    Run(log).Some?
  }

  function Play(log: seq<Event>): State
    requires Legal(log)
  {
    Run(log).value
  }

  lemma {:induction false} EveryRunKeepsInv(log: seq<Event>)
    requires Legal(log)
    ensures Inv(Play(log))
  {
    if log != [] {
      EveryRunKeepsInv(log[..|log| - 1]);
      StepKeepsInv(Play(log[..|log| - 1]), log[|log| - 1]);
    }
  }

  lemma Extend(log: seq<Event>, e: Event)
    requires Legal(log) && Enabled(Play(log), e)
    ensures Legal(log + [e]) && Play(log + [e]) == Apply(Play(log), e)
  {
  }

  function RecordOf(s: State, i: IntentId): Option<RecordStatus> {
    if i in s.records then Some(s.records[i]) else None
  }

  /** In every reachable state, history and detail show the same for every deposit at any moment. */
  lemma HistoryAndDetailAgree(log: seq<Event>, i: IntentId, now: int)
    requires Legal(log) && i in Play(log).intents
    ensures DetailState(Play(log).intents[i], RecordOf(Play(log), i), now) == ListState(Play(log).intents[i], RecordOf(Play(log), i), now)
  {
    EveryRunKeepsInv(log);
    ProjectionsAgreeExactly(Play(log).intents[i], RecordOf(Play(log), i));
  }

  ghost predicate Succeeded(s: State, i: IntentId) {
    i in s.intents && i in s.records && s.records[i] == RECORDED_CONFIRMED
  }

  /** A deposit is shown as a success exactly when its record is confirmed. */
  lemma SuccessIsARecord(s: State, i: IntentId, now: int)
    requires Inv(s) && i in s.intents
    ensures DetailState(s.intents[i], RecordOf(s, i), now) == ShowSuccess <==> Succeeded(s, i)
  {
  }

  ghost predicate ShownAsSuccess(s: State, i: IntentId, now: int) {
    i in s.intents && DetailState(s.intents[i], RecordOf(s, i), now) == ShowSuccess
  }

  lemma StepKeepsSuccess(s: State, e: Event, i: IntentId)
    requires Inv(s) && Enabled(s, e) && Succeeded(s, i)
    ensures Succeeded(Apply(s, e), i)
  {
  }

  lemma {:induction false} SucceededStays(log: seq<Event>, more: seq<Event>, i: IntentId)
    requires log <= more && Legal(more)
    ensures Legal(log) && (Succeeded(Play(log), i) ==> Succeeded(Play(more), i))
    decreases |more|
  {
    hide Apply, Enabled, Inv;
    if |log| < |more| {
      var before := more[..|more| - 1];
      SucceededStays(log, before, i);
      EveryRunKeepsInv(before);
      if Succeeded(Play(before), i) {
        StepKeepsSuccess(Play(before), more[|more| - 1], i);
      }
    } else {
      assert log == more;
    }
  }

  /** Once shown as a success it is shown as a success for good, whatever other submits and jobs still write. */
  lemma SuccessStays(log: seq<Event>, more: seq<Event>, i: IntentId, now: int, later: int)
    requires log <= more && Legal(more)
    ensures Legal(log) && (ShownAsSuccess(Play(log), i, now) ==> ShownAsSuccess(Play(more), i, later))
  {
    hide Apply, Enabled, Inv, Run;
    SucceededStays(log, more, i);
    if ShownAsSuccess(Play(log), i, now) {
      EveryRunKeepsInv(log);
      EveryRunKeepsInv(more);
      SuccessIsARecord(Play(log), i, now);
      SuccessIsARecord(Play(more), i, later);
    }
  }

  // ----- The terminal states that are not a success -----

  /** Shown as expired, failed or rejected, which the client takes for the end. */
  ghost predicate ShownAsOver(s: State, i: IntentId) {
    && i in s.intents
    && var state := DetailState(s.intents[i], RecordOf(s, i), s.now);
       IsTerminal(state) && state != ShowSuccess
  }

  /** Some submit of the intent has passed its checks and not signed yet. */
  ghost predicate SubmitUnderWay(s: State, i: IntentId) {
    exists c :: c in s.submits && s.submits[c] == Checked(i)
  }

  /** Past its date or failed, if still there at all, and nobody at work on it who could bring it back. */
  ghost predicate Over(s: State, i: IntentId) {
    && i in s.used && i !in s.records
    && (i in s.intents ==>
          || (s.intents[i].status == FAILED && (i in s.building ==> s.intents[i].expiresAt < s.now))
          || (s.intents[i].status in {CREATED, XDR_GENERATED} && s.intents[i].expiresAt < s.now))
    && (forall c :: c in s.submits ==> s.submits[c].intent != i)
    && (forall c :: c in s.reconciles ==> s.reconciles[c] != i)
  }

  lemma StepKeepsOver(s: State, e: Event, i: IntentId)
    requires Enabled(s, e) && Over(s, i)
    ensures Over(Apply(s, e), i)
  {
  }

  lemma {:induction false} OverStays(log: seq<Event>, more: seq<Event>, i: IntentId)
    requires log <= more && Legal(more) && Legal(log) && Over(Play(log), i)
    ensures Over(Play(more), i)
    decreases |more|
  {
    hide Apply, Enabled, Over;
    if |log| < |more| {
      var before := more[..|more| - 1];
      OverStays(log, before, i);
      StepKeepsOver(Play(before), more[|more| - 1], i);
    } else {
      assert log == more;
    }
  }

  lemma ShownAsOverIsOver(s: State, i: IntentId)
    requires Inv(s) && ShownAsOver(s, i) && !SubmitUnderWay(s, i)
    ensures Over(s, i)
  {
    forall c | c in s.submits ensures s.submits[c].intent != i {
      assert SubmitOk(s, s.submits[c]);
    }
  }

  lemma OverIsShown(s: State, i: IntentId)
    requires Over(s, i) && i in s.intents
    ensures ShownAsOver(s, i)
  {
  }

  /** A submit under way signs the deposit, is answered by the chain and confirms it, over or not. */
  lemma SubmitRevives(log: seq<Event>, i: IntentId) returns (more: seq<Event>)
    requires Legal(log) && ShownAsOver(Play(log), i) && SubmitUnderWay(Play(log), i)
    ensures log <= more && Legal(more) && ShownAsSuccess(Play(more), i, Play(more).now)
  {
    EveryRunKeepsInv(log);
    var s := Play(log);
    var c :| c in s.submits && s.submits[c] == Checked(i);
    hide Run, Legal, Play;
    more := Step(log, Sign(c));
    more := Step(more, Answer(c, true));
    more := Step(more, Commit(c));
  }

  /**
   When a terminal state that is no success is final: a deposit shown as expired, failed or rejected can still be
   shown as a success exactly if some submit of it has passed its checks and not signed yet. Without one it is shown
   as expired, failed or rejected for as long as it is there, whatever else happens.
   */
  lemma TerminalIsFinalExactlyWhen(log: seq<Event>, i: IntentId)
    requires Legal(log) && ShownAsOver(Play(log), i)
    ensures SubmitUnderWay(Play(log), i) <==>
            exists more :: log <= more && Legal(more) && ShownAsSuccess(Play(more), i, Play(more).now)
    ensures SubmitUnderWay(Play(log), i) <==>
            exists more :: log <= more && Legal(more) && i in Play(more).intents && !ShownAsOver(Play(more), i)
  {
    hide Run, Legal, Play, Inv, Over, SubmitUnderWay, DetailState;
    if SubmitUnderWay(Play(log), i) {
      var more := SubmitRevives(log, i);
      SuccessIsNotOver(Play(more), i);
    } else {
      EveryRunKeepsInv(log);
      ShownAsOverIsOver(Play(log), i);
      forall more | log <= more && Legal(more) && i in Play(more).intents
        ensures ShownAsOver(Play(more), i) && !ShownAsSuccess(Play(more), i, Play(more).now)
      {
        OverStays(log, more, i);
        OverIsShown(Play(more), i);
        SuccessIsNotOver(Play(more), i);
      }
    }
  }

  lemma SuccessIsNotOver(s: State, i: IntentId)
    ensures ShownAsSuccess(s, i, s.now) ==> i in s.intents && !ShownAsOver(s, i)
  {
  }

  /** It does happen: a submit passes its checks in time, the expiry job fails the intent, and then it is confirmed. */
  lemma ExpiredCanStillSucceed() returns (log: seq<Event>, more: seq<Event>)
    ensures log <= more && Legal(log) && Legal(more)
    ensures ShownAsOver(Play(log), 0) && ShownAsSuccess(Play(more), 0, Play(more).now)
  {
    hide Run;
    assert Legal([]) && Play([]) == Empty by {
      FirstIsLegal();
    }
    log := Step([], Create(0, 10));
    log := Step(log, Generated(0));
    log := Step(log, Check(CallId(1, 0), 0));
    log := Step(log, Tick(11));
    log := Step(log, Expire(0));
    more := Step(log, Sign(CallId(1, 0)));
    more := Step(more, Answer(CallId(1, 0), true));
    more := Step(more, Commit(CallId(1, 0)));
  }

  lemma FirstIsLegal()
    ensures Legal([]) && Play([]) == Empty
  {
  }

  lemma Step(log: seq<Event>, e: Event) returns (more: seq<Event>)
    requires Legal(log) && Enabled(Play(log), e)
    ensures more == log + [e] && Legal(more) && Play(more) == Apply(Play(log), e)
  {
    more := log + [e];
    Extend(log, e);
  }
}
