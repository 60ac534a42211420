/**
 Account deletion as a saga over four systems: the request rows, the Stellar network, BlindPay and Privy
 (src/account-deletion/account-deletion.service.ts, src/jobs/account-deletion-cleanup.job.ts). Confirm
 calls and cleanup passes run at the same time, write rows without looking at them again, and may die
 after any step. Every `Run` is one such call; its fields are what it remembers.
 */
module DeletionSaga {
  import opened Common

  type User = nat
  type Provider = nat
  type ReqId = nat
  type Xdr = nat
  type CallId = nat

  /** A call or pass `who`, and which of the requests it works on. */
  datatype RunId = RunId(who: nat, n: nat)

  datatype Status = REQUESTED | PENDING_SIGNATURE | CHAIN_CLOSED | LOCAL_SCRUBBED | COMPLETED | FAILED

  datatype Row = Row(user: User, provider: Option<Provider>, status: Status, xdr: Option<Xdr>,
                     blindpayDeleted: bool, privyDeleted: bool, attempts: nat)

  datatype Stage = Checked | Accepted | Closed | ScrubDone | Cleaning | OthersCleared | Updated | Unfinished

  /** `attempts` is the cleanup job's copy of the column; a confirm call has none. */
  datatype Run = Run(req: ReqId, user: User, provider: Option<Provider>, xdr: Option<Xdr>, attempts: Option<nat>,
                     stage: Stage, blindpay: bool, privy: bool)

  /**
   History: closures the network `accepted`, `scrubs` with the closure that came before each, users whose
   BlindPay customer (if any) or identity was answered as gone, and requests that `cleared` their user's other rows.
   `openings` are the calls that opened a request and may still write its closing transaction, `customers` the users
   with a BlindPay receiver.
   */
  datatype State = State(max: nat, rows: map<ReqId, Row>, openings: map<CallId, ReqId>, customers: set<User>, runs: map<RunId, Run>,
                         accepted: set<Xdr>,
                         scrubs: map<User, Option<Xdr>>, blindpayGone: set<User>, identityGone: set<User>,
                         cleared: set<ReqId>)

  datatype Event =
    | Create(call: CallId, req: ReqId, user: User, provider: Provider)
    | Reuse(call: CallId, req: ReqId)
    | Prepare(call: CallId, xdr: Xdr)
    | Leave(call: CallId)
    | Onboard(user: User)
    | Confirm(run: RunId, req: ReqId, provider: Provider)
    | Accept(run: RunId)
    | MarkClosed(run: RunId)
    | MarkFailed(run: RunId)
    | Scrub(run: RunId)
    | MarkScrubbed(run: RunId)
    | Retry(run: RunId, req: ReqId)
    | DeleteCustomer(run: RunId)
    | NoCustomer(run: RunId)
    | DeleteIdentity(run: RunId)
    | ClearOthers(run: RunId)
    | Update(run: RunId)
    | Review(run: RunId)
    | CountAttempt(run: RunId)
    | GiveUp(run: RunId)
    | Crash(run: RunId)

  predicate At(s: State, i: RunId, stages: set<Stage>) {
    i in s.runs && s.runs[i].stage in stages && s.runs[i].req in s.rows
  }

  predicate IsJob(s: State, i: RunId) {
    At(s, i, {Unfinished}) && s.runs[i].attempts.Some?
  }

  /** A pass gives up at the limit, once it has read that the request is not completed, or at once without a provider. */
  predicate CanGiveUp(s: State, i: RunId) {
    || (IsJob(s, i) && s.runs[i].attempts.value + 1 >= s.max)
    || (At(s, i, {Cleaning}) && s.runs[i].attempts.Some? && s.runs[i].provider.None?)
  }

  predicate Enabled(s: State, e: Event) {
    match e
    case Create(c, r, _, _) => r !in s.rows && c !in s.openings
    case Reuse(c, r) => c !in s.openings && r in s.rows && s.rows[r].status in {REQUESTED, PENDING_SIGNATURE}
    case Prepare(c, _) => c in s.openings && s.openings[c] in s.rows
    case Leave(_) => true
    case Onboard(_) => true
    case Confirm(i, r, _) => i !in s.runs && r in s.rows && s.rows[r].status !in {COMPLETED, FAILED}
    case Accept(i) => At(s, i, {Checked}) && s.runs[i].xdr.Some?
    case MarkClosed(i) => At(s, i, {Accepted})
    case MarkFailed(i) => At(s, i, {Checked, Accepted}) && s.runs[i].xdr.Some?
    case Scrub(i) => At(s, i, {Checked, Closed}) && (s.runs[i].stage == Checked ==> s.runs[i].xdr.None?)
    case MarkScrubbed(i) => At(s, i, {ScrubDone})
    case Retry(i, r) => i !in s.runs && r in s.rows && s.rows[r].status == LOCAL_SCRUBBED && s.rows[r].attempts < s.max
    case DeleteCustomer(i) => At(s, i, {Cleaning}) && s.runs[i].user in s.customers
    case NoCustomer(i) => At(s, i, {Cleaning}) && s.runs[i].user !in s.customers
    case DeleteIdentity(i) => At(s, i, {Cleaning}) && s.runs[i].provider.Some?
    case ClearOthers(i) => At(s, i, {Cleaning}) && s.runs[i].blindpay && s.runs[i].privy
    case Update(i) => At(s, i, {Cleaning, OthersCleared}) && (s.runs[i].stage == OthersCleared <==> s.runs[i].blindpay && s.runs[i].privy)
    case CountAttempt(i) => IsJob(s, i) && s.runs[i].attempts.value + 1 < s.max
    case Review(i) => At(s, i, {Cleaning, OthersCleared, Updated}) && s.runs[i].attempts.Some?
    case GiveUp(i) => CanGiveUp(s, i)
    case Crash(_) => true
  }

  function Write(s: State, r: ReqId, row: Row): State {
    s.(rows := s.rows[r := row])
  }

  function WithRun(s: State, i: RunId, run: Run): State {
    s.(runs := s.runs[i := run])
  }

  function MoveTo(s: State, i: RunId, stage: Stage): State
    requires i in s.runs
  {
    WithRun(s, i, s.runs[i].(stage := stage))
  }

  function Apply(s: State, e: Event): State
    requires Enabled(s, e)
  {
    match e
    case Create(c, r, user, provider) =>
      Write(s, r, Row(user, Some(provider), REQUESTED, None, false, false, 0)).(openings := s.openings[c := r])
    case Reuse(c, r) => s.(openings := s.openings[c := r])
    case Prepare(c, xdr) =>
      var r := s.openings[c];
      Write(s, r, s.rows[r].(status := PENDING_SIGNATURE, xdr := Some(xdr))).(openings := s.openings - {c})
    case Leave(c) => s.(openings := s.openings - {c})
    case Onboard(u) => s.(customers := s.customers + {u})
    case Confirm(i, r, provider) =>
      WithRun(s, i, Run(r, s.rows[r].user, Some(provider), s.rows[r].xdr, None, Checked, false, false))
    case Accept(i) => MoveTo(s, i, Accepted).(accepted := s.accepted + {s.runs[i].xdr.value})
    case MarkClosed(i) =>
      var r := s.runs[i].req;
      MoveTo(Write(s, r, s.rows[r].(status := CHAIN_CLOSED)), i, Closed)
    case MarkFailed(i) =>
      var r := s.runs[i].req;
      Write(s, r, s.rows[r].(status := FAILED)).(runs := s.runs - {i})
    case Scrub(i) => MoveTo(s, i, ScrubDone).(scrubs := s.scrubs[s.runs[i].user := s.runs[i].xdr])
    case MarkScrubbed(i) =>
      var r := s.runs[i].req;
      MoveTo(Write(s, r, s.rows[r].(status := LOCAL_SCRUBBED)), i, Cleaning)
    case Retry(i, r) =>
      var row := s.rows[r];
      WithRun(s, i, Run(r, row.user, row.provider, row.xdr, Some(row.attempts), Cleaning, false, false))
    case DeleteCustomer(i) =>
      WithRun(s, i, s.runs[i].(blindpay := true)).(blindpayGone := s.blindpayGone + {s.runs[i].user})
    case NoCustomer(i) =>
      WithRun(s, i, s.runs[i].(blindpay := true)).(blindpayGone := s.blindpayGone + {s.runs[i].user})
    case DeleteIdentity(i) =>
      WithRun(s, i, s.runs[i].(privy := true)).(identityGone := s.identityGone + {s.runs[i].user})
    case ClearOthers(i) =>
      var run := s.runs[i];
      MoveTo(s, i, OthersCleared).(
        cleared := s.cleared + {run.req},
        rows := map r | r in s.rows ::
          if s.rows[r].user == run.user && r != run.req && s.rows[r].status != FAILED then s.rows[r].(provider := None) else s.rows[r])
    case Update(i) =>
      var run := s.runs[i];
      var row := s.rows[run.req];
      var flags := row.(blindpayDeleted := row.blindpayDeleted || run.blindpay, privyDeleted := row.privyDeleted || run.privy);
      var done := if run.stage == OthersCleared then flags.(status := COMPLETED, provider := None) else flags;
      MoveTo(Write(s, run.req, done), i, Updated)
    case Review(i) => if s.rows[s.runs[i].req].status == COMPLETED then s.(runs := s.runs - {i}) else MoveTo(s, i, Unfinished)
    case CountAttempt(i) =>
      var run := s.runs[i];
      Write(s, run.req, s.rows[run.req].(attempts := run.attempts.value + 1)).(runs := s.runs - {i})
    case GiveUp(i) =>
      Write(s, s.runs[i].req, s.rows[s.runs[i].req].(status := FAILED)).(runs := s.runs - {i})
    case Crash(i) => s.(runs := s.runs - {i})
  }

  // ----- The invariant -----

  ghost predicate RowOk(s: State, r: ReqId)
    requires r in s.rows
  {
    var row := s.rows[r];
    && (row.status in {LOCAL_SCRUBBED, COMPLETED} ==> row.user in s.scrubs)
    && (row.blindpayDeleted ==> row.user in s.blindpayGone)
    && (row.privyDeleted ==> row.user in s.identityGone)
    && (row.status == COMPLETED ==> row.blindpayDeleted && row.privyDeleted && row.provider.None? && r in s.cleared)
  }

  ghost predicate RunOk(s: State, i: RunId)
    requires i in s.runs
  {
    var run := s.runs[i];
    && run.req in s.rows && s.rows[run.req].user == run.user
    && (run.stage in {Accepted, Closed} ==> run.xdr.Some? && run.xdr.value in s.accepted)
    && (run.stage in {ScrubDone, Cleaning, OthersCleared, Updated, Unfinished} ==> run.user in s.scrubs)
    && (run.blindpay ==> run.user in s.blindpayGone)
    && (run.privy ==> run.user in s.identityGone)
    && (run.stage == OthersCleared ==> run.req in s.cleared && run.blindpay && run.privy)
  }

  ghost predicate RowsOk(s: State) {
    forall r :: r in s.rows ==> RowOk(s, r)
  }

  ghost predicate RunsOk(s: State) {
    forall i :: i in s.runs ==> RunOk(s, i)
  }

  ghost predicate ScrubsOk(s: State) {
    && (forall u :: u in s.scrubs && s.scrubs[u].Some? ==> s.scrubs[u].value in s.accepted)
    && s.identityGone <= s.scrubs.Keys && s.blindpayGone <= s.scrubs.Keys
  }

  ghost predicate OpeningsOk(s: State) {
    forall c :: c in s.openings ==> s.openings[c] in s.rows
  }

  ghost predicate Inv(s: State) {
    RowsOk(s) && RunsOk(s) && ScrubsOk(s) && OpeningsOk(s)
  }

  lemma StepKeepsRow(s: State, e: Event, r: ReqId)
    requires RowsOk(s) && RunsOk(s) && Enabled(s, e) && r in Apply(s, e).rows
    ensures RowOk(Apply(s, e), r)
  {
    hide RowsOk, RunsOk, RunOk;
    RowAt(s, r);
    if HasRun(e) && e.run in s.runs {
      RunAt(s, e.run);
      RowAt(s, s.runs[e.run].req);
    }
  }

  predicate HasRun(e: Event) {
    !e.Create? && !e.Reuse? && !e.Prepare? && !e.Leave? && !e.Onboard?
  }

  lemma RowAt(s: State, r: ReqId)
    requires RowsOk(s)
    ensures r in s.rows ==> RowOk(s, r)
  {
  }

  lemma RunAt(s: State, i: RunId)
    requires RunsOk(s) && i in s.runs
    ensures RunOk(s, i)
  {
  }

  /** A run is only moved by its own steps, and what it relies on is never taken back. */
  lemma StepKeepsOtherRun(s: State, e: Event, i: RunId)
    requires i in s.runs && RunOk(s, i) && Enabled(s, e) && !(HasRun(e) && e.run == i)
    ensures i in Apply(s, e).runs && RunOk(Apply(s, e), i)
  {
    hide Apply, Enabled, RunOk;
    StepSparesRun(s, e, i);
    StepOnlyAdds(s, e);
    StillOk(s, Apply(s, e), i);
  }

  lemma StepSparesRun(s: State, e: Event, i: RunId)
    requires i in s.runs && Enabled(s, e) && !(HasRun(e) && e.run == i)
    ensures i in Apply(s, e).runs && Apply(s, e).runs[i] == s.runs[i]
  {
    hide CanGiveUp, IsJob;
  }

  /** Rows keep their user, and what has been accepted, scrubbed, answered or cleared stays so. */
  ghost predicate OnlyAdds(s: State, t: State) {
    && s.accepted <= t.accepted && s.scrubs.Keys <= t.scrubs.Keys && s.blindpayGone <= t.blindpayGone
    && s.identityGone <= t.identityGone && s.cleared <= t.cleared
    && forall r :: r in s.rows ==> r in t.rows && t.rows[r].user == s.rows[r].user
  }

  lemma StepOnlyAdds(s: State, e: Event)
    requires Enabled(s, e)
    ensures OnlyAdds(s, Apply(s, e))
  {
  }

  lemma StillOk(s: State, t: State, i: RunId)
    requires i in s.runs && RunOk(s, i) && i in t.runs && t.runs[i] == s.runs[i] && OnlyAdds(s, t)
    ensures RunOk(t, i)
  {
  }

  lemma StepKeepsOwnRun(s: State, e: Event)
    requires HasRun(e) && e.run in s.runs && RunOk(s, e.run) && Enabled(s, e)
    ensures e.run in Apply(s, e).runs ==> RunOk(Apply(s, e), e.run)
  {
    if e.DeleteCustomer? || e.NoCustomer? || e.DeleteIdentity? || e.ClearOthers? || e.Update? || e.Review? {
      CleanupKeepsRun(s, e);
    } else {
      hide CanGiveUp, IsJob;
    }
  }

  lemma CleanupKeepsRun(s: State, e: Event)
    requires e.DeleteCustomer? || e.NoCustomer? || e.DeleteIdentity? || e.ClearOthers? || e.Update? || e.Review?
    requires e.run in s.runs && RunOk(s, e.run) && Enabled(s, e)
    ensures e.run in Apply(s, e).runs ==> RunOk(Apply(s, e), e.run)
  {
    hide CanGiveUp, IsJob;
  }

  lemma StepKeepsRun(s: State, e: Event, i: RunId)
    requires RunsOk(s) && RowsOk(s) && Enabled(s, e) && i in Apply(s, e).runs
    ensures RunOk(Apply(s, e), i)
  {
    hide RowsOk, RunsOk;
    if i in s.runs {
      RunAt(s, i);
      hide RunOk, Apply;
      if HasRun(e) && e.run == i {
        StepKeepsOwnRun(s, e);
      } else {
        StepKeepsOtherRun(s, e, i);
      }
    } else if e.Retry? {
      RowAt(s, e.req);
    }
  }

  lemma StepKeepsScrubs(s: State, e: Event)
    requires RunsOk(s) && ScrubsOk(s) && Enabled(s, e)
    ensures ScrubsOk(Apply(s, e))
  {
    hide RunsOk;
    if HasRun(e) && e.run in s.runs {
      RunAt(s, e.run);
    }
  }

  lemma StepKeepsOpenings(s: State, e: Event)
    requires OpeningsOk(s) && Enabled(s, e)
    ensures OpeningsOk(Apply(s, e))
  {
  }

  lemma StepKeepsInv(s: State, e: Event)
    requires Inv(s) && Enabled(s, e)
    ensures Inv(Apply(s, e))
  {
    hide Apply, Enabled, RowOk, RunOk, ScrubsOk, OpeningsOk;
    var t := Apply(s, e);
    forall r | r in t.rows ensures RowOk(t, r) {
      StepKeepsRow(s, e, r);
    }
    forall i | i in t.runs ensures RunOk(t, i) {
      StepKeepsRun(s, e, i);
    }
    StepKeepsScrubs(s, e);
    StepKeepsOpenings(s, e);
  }

  // ----- Runs -----

  function Init(max: nat): State {
    State(max, map[], map[], {}, map[], {}, map[], {}, {}, {})
  }

  /** The state after the steps of `log`, in order; none if some step was not allowed when it came. */
  function After(max: nat, log: seq<Event>): Option<State> {
    if log == [] then Some(Init(max))
    else
      var before, e := After(max, log[..|log| - 1]), log[|log| - 1];
      if before.Some? && Enabled(before.value, e) then Some(Apply(before.value, e)) else None
  }

  predicate Legal(max: nat, log: seq<Event>) {
    After(max, log).Some?
  }

  function Play(max: nat, log: seq<Event>): State
    requires Legal(max, log)
  {
    After(max, log).value
  }

  lemma {:induction false} EveryRunKeepsInv(max: nat, log: seq<Event>)
    requires Legal(max, log)
    ensures Inv(Play(max, log)) && Play(max, log).max == max
  {
    if log != [] {
      EveryRunKeepsInv(max, log[..|log| - 1]);
      StepKeepsInv(Play(max, log[..|log| - 1]), log[|log| - 1]);
    }
  }

  lemma Extend(max: nat, log: seq<Event>, e: Event)
    requires Legal(max, log) && Enabled(Play(max, log), e)
    ensures Legal(max, log + [e]) && Play(max, log + [e]) == Apply(Play(max, log), e)
  {
  }

  lemma {:induction false} PrefixIsLegal(max: nat, log: seq<Event>, k: nat)
    requires Legal(max, log) && k <= |log|
    ensures Legal(max, log[..k])
    decreases |log|
  {
    if k < |log| {
      PrefixIsLegal(max, log[..|log| - 1], k);
      assert log[..|log| - 1][..k] == log[..k];
    } else {
      assert log[..k] == log;
    }
  }

  /** Step `k` scrubs user `u`, after the network accepted the call's closure if its request had one. */
  ghost predicate ScrubsAt(max: nat, log: seq<Event>, k: nat, u: User)
    requires k < |log| && Legal(max, log[..k])
  {
    var s := Play(max, log[..k]);
    && log[k].Scrub? && log[k].run in s.runs && s.runs[log[k].run].user == u
    && (s.runs[log[k].run].xdr.Some? ==> s.runs[log[k].run].xdr.value in s.accepted)
  }

  lemma {:induction false} ScrubHappened(max: nat, log: seq<Event>, u: User)
    requires Legal(max, log) && u in Play(max, log).scrubs
    ensures exists k :: 0 <= k < |log| && Legal(max, log[..k]) && ScrubsAt(max, log, k, u)
  {
    if log != [] {
      var n := |log| - 1;
      var before := log[..n];
      EveryRunKeepsInv(max, before);
      if u in Play(max, before).scrubs {
        ScrubHappened(max, before, u);
        var k :| 0 <= k < n && Legal(max, before[..k]) && ScrubsAt(max, before, k, u);
        assert before[..k] == log[..k];
        assert ScrubsAt(max, log, k, u);
      } else {
        assert RunOk(Play(max, before), log[n].run);
        assert ScrubsAt(max, log, n, u);
      }
    }
  }

  /**
   The order of the saga, over every interleaving, failure and crash: whenever the identity of a user is
   deleted, an earlier step scrubbed that user, and by then the closure had been accepted unless the
   request carried none.
   */
  lemma IdentityGoesLast(max: nat, log: seq<Event>, n: nat)
    requires Legal(max, log) && n < |log| && log[n].DeleteIdentity?
    ensures Legal(max, log[..n]) && log[n].run in Play(max, log[..n]).runs
    ensures exists k :: 0 <= k < n && Legal(max, log[..k]) && ScrubsAt(max, log, k, Play(max, log[..n]).runs[log[n].run].user)
  {
    PrefixIsLegal(max, log, n + 1);
    PrefixIsLegal(max, log, n);
    assert log[..n + 1][..n] == log[..n];
    EveryRunKeepsInv(max, log[..n]);
    var u := Play(max, log[..n]).runs[log[n].run].user;
    ScrubHappened(max, log[..n], u);
    var k :| 0 <= k < n && Legal(max, log[..n][..k]) && ScrubsAt(max, log[..n], k, u);
    assert log[..n][..k] == log[..k];
    assert ScrubsAt(max, log, k, u);
  }

  // ----- Which requests still name the provider -----

  /** The step clears row `r` for another request of its user (a row that has failed is passed over), or completes it. */
  predicate TakesProvider(s: State, e: Event, r: ReqId) {
    || (&& e.ClearOthers? && e.run in s.runs && s.runs[e.run].req != r
        && r in s.rows && s.rows[r].user == s.runs[e.run].user && s.rows[r].status != FAILED)
    || (e.Update? && e.run in s.runs && s.runs[e.run].req == r && s.runs[e.run].stage == OthersCleared)
  }

  ghost predicate ProviderTakenAt(max: nat, log: seq<Event>, k: nat, r: ReqId)
    requires k < |log|
  {
    Legal(max, log[..k]) && TakesProvider(Play(max, log[..k]), log[k], r)
  }

  lemma StepTakesOnly(s: State, e: Event, r: ReqId)
    requires Enabled(s, e) && r in s.rows
    ensures var t := Apply(s, e);
            && r in t.rows && t.rows[r].user == s.rows[r].user
            && (t.rows[r].provider.Some? <==> s.rows[r].provider.Some? && !TakesProvider(s, e, r))
  {
  }

  lemma StepCreates(s: State, e: Event, r: ReqId)
    requires RunsOk(s) && Enabled(s, e) && r !in s.rows && r in Apply(s, e).rows
    ensures Apply(s, e).rows[r].provider.Some? && !TakesProvider(s, e, r)
  {
  }

  lemma NothingToTake(s: State, e: Event, r: ReqId)
    requires RunsOk(s) && r !in s.rows
    ensures !TakesProvider(s, e, r)
  {
  }

  /** Over any run: a request names its provider exactly if no step of the run has cleared or completed it. */
  lemma {:induction false} NamedExactlyWhenNotTaken(max: nat, log: seq<Event>, r: ReqId)
    requires Legal(max, log)
    ensures r !in Play(max, log).rows ==> forall k :: 0 <= k < |log| ==> !ProviderTakenAt(max, log, k, r)
    ensures r in Play(max, log).rows ==>
              (Play(max, log).rows[r].provider.Some? <==> forall k :: 0 <= k < |log| ==> !ProviderTakenAt(max, log, k, r))
  {
    if log != [] {
      var n := |log| - 1;
      var before := log[..n];
      NamedExactlyWhenNotTaken(max, before, r);
      EveryRunKeepsInv(max, before);
      var s := Play(max, before);
      assert Legal(max, log[..n]) && Enabled(s, log[n]) && Play(max, log) == Apply(s, log[n]);
      hide After, Legal, Play, Apply, Enabled, TakesProvider, RunOk;
      forall k | 0 <= k < n ensures ProviderTakenAt(max, log, k, r) <==> ProviderTakenAt(max, before, k, r) {
        assert before[..k] == log[..k];
      }
      assert ProviderTakenAt(max, log, n, r) <==> TakesProvider(s, log[n], r);
      if r in s.rows {
        StepTakesOnly(s, log[n], r);
      } else {
        NothingToTake(s, log[n], r);
        if r in Apply(s, log[n]).rows {
          StepCreates(s, log[n], r);
        }
      }
    }
  }

  /** Step `k` clears the other requests of user `u` for request `q`. */
  ghost predicate ClearsAt(max: nat, log: seq<Event>, k: nat, q: ReqId, u: User)
    requires k < |log|
  {
    && Legal(max, log[..k]) && log[k].ClearOthers? && log[k].run in Play(max, log[..k]).runs
    && Play(max, log[..k]).runs[log[k].run].req == q && Play(max, log[..k]).runs[log[k].run].user == u
  }

  lemma UserStays(s: State, e: Event, r: ReqId)
    requires Enabled(s, e) && r in s.rows
    ensures r in Apply(s, e).rows && Apply(s, e).rows[r].user == s.rows[r].user
  {
  }

  lemma {:induction false} ClearHappened(max: nat, log: seq<Event>, q: ReqId)
    requires Legal(max, log) && q in Play(max, log).cleared
    ensures q in Play(max, log).rows
    ensures exists k :: 0 <= k < |log| && ClearsAt(max, log, k, q, Play(max, log).rows[q].user)
  {
    if log != [] {
      var n := |log| - 1;
      var before := log[..n];
      EveryRunKeepsInv(max, before);
      var s := Play(max, before);
      if q in s.cleared {
        ClearHappened(max, before, q);
        var k :| 0 <= k < n && ClearsAt(max, before, k, q, s.rows[q].user);
        UserStays(s, log[n], q);
        assert before[..k] == log[..k];
        assert ClearsAt(max, log, k, q, s.rows[q].user);
      } else {
        RunAt(s, log[n].run);
        assert ClearsAt(max, log, n, q, s.rows[q].user);
      }
    }
  }

  /** Created after step `k` of the run, or failed at that step. */
  ghost predicate OutOfReachAt(max: nat, log: seq<Event>, k: nat, r: ReqId)
    requires k <= |log|
  {
    Legal(max, log[..k]) && (r !in Play(max, log[..k]).rows || Play(max, log[..k]).rows[r].status == FAILED)
  }

  /**
   A completed request: the account is scrubbed, both external deletions were answered as done, and the request
   itself names no provider. Another request of the user names it exactly if it was created after, or had failed
   at, every step that cleared the user's requests for another one, and has not been completed itself; there was
   at least the step for the completed request.
   */
  lemma CompletedMeansGone(max: nat, log: seq<Event>, q: ReqId)
    requires Legal(max, log) && q in Play(max, log).rows && Play(max, log).rows[q].status == COMPLETED
    ensures var s := Play(max, log);
            var u := s.rows[q].user;
            && u in s.scrubs && u in s.blindpayGone && u in s.identityGone && s.rows[q].provider.None?
            && (exists k :: 0 <= k < |log| && ClearsAt(max, log, k, q, u))
            && forall r :: r in s.rows && s.rows[r].user == u ==>
                 (s.rows[r].provider.Some? <==>
                    && (forall k, p :: 0 <= k < |log| && p != r && ClearsAt(max, log, k, p, u) ==> OutOfReachAt(max, log, k, r))
                    && (forall k :: 0 <= k < |log| ==> !CompletesAt(max, log, k, r)))
  {
    EveryRunKeepsInv(max, log);
    var s := Play(max, log);
    var u := s.rows[q].user;
    RowAt(s, q);
    ClearHappened(max, log, q);
    hide After, Legal, Play, Inv, ProviderTakenAt, ClearsAt, OutOfReachAt, CompletesAt;
    forall r | r in s.rows && s.rows[r].user == u
      ensures s.rows[r].provider.Some? <==>
                && (forall k, p :: 0 <= k < |log| && p != r && ClearsAt(max, log, k, p, u) ==> OutOfReachAt(max, log, k, r))
                && (forall k :: 0 <= k < |log| ==> !CompletesAt(max, log, k, r))
    {
      NamedExactlyWhenNotTaken(max, log, r);
      forall k | 0 <= k < |log|
        ensures ProviderTakenAt(max, log, k, r) <==>
                  CompletesAt(max, log, k, r) || exists p :: p != r && ClearsAt(max, log, k, p, u) && !OutOfReachAt(max, log, k, r)
      {
        TakenMeans(max, log, k, r);
      }
    }
  }

  /** Step `k` completes request `r`. */
  ghost predicate CompletesAt(max: nat, log: seq<Event>, k: nat, r: ReqId)
    requires k < |log|
  {
    && Legal(max, log[..k]) && log[k].Update? && log[k].run in Play(max, log[..k]).runs
    && Play(max, log[..k]).runs[log[k].run].req == r && Play(max, log[..k]).runs[log[k].run].stage == OthersCleared
  }

  lemma {:induction false} UserNeverChanges(max: nat, log: seq<Event>, k: nat, r: ReqId)
    requires Legal(max, log) && k <= |log| && Legal(max, log[..k]) && r in Play(max, log[..k]).rows
    ensures r in Play(max, log).rows && Play(max, log).rows[r].user == Play(max, log[..k]).rows[r].user
    decreases |log|
  {
    if k < |log| {
      var before := log[..|log| - 1];
      assert before[..k] == log[..k];
      UserNeverChanges(max, before, k, r);
      UserStays(Play(max, before), log[|log| - 1], r);
    } else {
      assert log[..k] == log;
    }
  }

  lemma TakenMeans(max: nat, log: seq<Event>, k: nat, r: ReqId)
    requires Legal(max, log) && k < |log| && r in Play(max, log).rows
    ensures var u := Play(max, log).rows[r].user;
            ProviderTakenAt(max, log, k, r) <==>
              CompletesAt(max, log, k, r) || exists p :: p != r && ClearsAt(max, log, k, p, u) && !OutOfReachAt(max, log, k, r)
  {
    PrefixIsLegal(max, log, k);
    var s, e, u := Play(max, log[..k]), log[k], Play(max, log).rows[r].user;
    if r in s.rows {
      UserNeverChanges(max, log, k, r);
    }
    hide After, Legal, Play;
    if e.ClearOthers? && e.run in s.runs {
      var p := s.runs[e.run].req;
      assert ClearsAt(max, log, k, p, s.runs[e.run].user);
    }
  }

  lemma Step(max: nat, log: seq<Event>, e: Event) returns (more: seq<Event>)
    requires Legal(max, log) && Enabled(Play(max, log), e)
    ensures more == log + [e] && Legal(max, more) && Play(max, more) == Apply(Play(max, log), e)
  {
    more := log + [e];
    Extend(max, log, e);
  }

  /** A request that is confirmed as far as the step before its completion. */
  lemma ReachesTheEnd(i: RunId) returns (log: seq<Event>)
    ensures Legal(10, log)
    ensures var s := Play(10, log);
            && s.rows == map[0 := Row(5, Some(7), LOCAL_SCRUBBED, None, false, false, 0)] && s.openings == map[]
            && s.runs == map[i := Run(0, 5, Some(7), None, None, OthersCleared, true, true)]
  {
    FirstIsLegal();
    hide After, Legal, Play;
    log := Step(10, [], Create(0, 0, 5, 7));
    log := Step(10, log, Leave(0));
    log := Step(10, log, Confirm(i, 0, 7));
    log := ErasesAll(log, i);
  }

  lemma ErasesAll(before: seq<Event>, i: RunId) returns (log: seq<Event>)
    requires Legal(10, before)
    requires var s := Play(10, before);
             && s.rows == map[0 := Row(5, Some(7), REQUESTED, None, false, false, 0)] && s.openings == map[] && s.customers == {}
             && s.runs == map[i := Run(0, 5, Some(7), None, None, Checked, false, false)]
    ensures Legal(10, log)
    ensures var s := Play(10, log);
            && s.rows == map[0 := Row(5, Some(7), LOCAL_SCRUBBED, None, false, false, 0)] && s.openings == map[]
            && s.runs == map[i := Run(0, 5, Some(7), None, None, OthersCleared, true, true)]
  {
    hide After, Legal, Play;
    log := Step(10, before, Scrub(i));
    log := Step(10, log, MarkScrubbed(i));
    log := AsksBoth(log, i);
  }

  lemma AsksBoth(before: seq<Event>, i: RunId) returns (log: seq<Event>)
    requires Legal(10, before)
    requires var s := Play(10, before);
             && s.rows == map[0 := Row(5, Some(7), LOCAL_SCRUBBED, None, false, false, 0)] && s.openings == map[] && s.customers == {}
             && s.runs == map[i := Run(0, 5, Some(7), None, None, Cleaning, false, false)]
    ensures Legal(10, log)
    ensures var s := Play(10, log);
            && s.rows == map[0 := Row(5, Some(7), LOCAL_SCRUBBED, None, false, false, 0)] && s.openings == map[]
            && s.runs == map[i := Run(0, 5, Some(7), None, None, OthersCleared, true, true)]
  {
    hide After, Legal, Play;
    log := Step(10, before, NoCustomer(i));
    log := Step(10, log, DeleteIdentity(i));
    log := Step(10, log, ClearOthers(i));
  }

  lemma FirstIsLegal()
    ensures Legal(10, []) && Play(10, []) == Init(10)
  {
  }

  /** The exception is real: a request opened between the clearing and the end keeps the provider for good. */
  lemma LateRequestKeepsTheProvider() returns (log: seq<Event>)
    ensures Legal(10, log) && 0 in Play(10, log).rows && 1 in Play(10, log).rows
    ensures Play(10, log).rows[0].status == COMPLETED && Play(10, log).rows[1].status == REQUESTED
    ensures Play(10, log).rows[0].user == Play(10, log).rows[1].user && Play(10, log).rows[1].provider == Some(7)
  {
    var i := RunId(0, 0);
    log := ReachesTheEnd(i);
    hide After, Legal, Play;
    log := Step(10, log, Create(1, 1, 5, 7));
    log := Step(10, log, Update(i));
  }

  // ----- When a completed request stays completed -----

  /** The run is still to write another status over that of its request, whatever that is by then. */
  predicate WillOverwrite(s: State, i: RunId) {
    || At(s, i, {Checked, Accepted, Closed, ScrubDone})
    || CanGiveUp(s, i)
  }

  /** No call that opened the request is still to write its closure, and no run to overwrite its status. */
  ghost predicate NobodyOverwrites(s: State, q: ReqId) {
    && (forall c :: c in s.openings ==> s.openings[c] != q)
    && (forall i :: i in s.runs && s.runs[i].req == q ==> !WillOverwrite(s, i))
  }

  predicate IsCompleted(s: State, q: ReqId) {
    q in s.rows && s.rows[q].status == COMPLETED
  }

  lemma StepStaysCompleted(s: State, e: Event, q: ReqId)
    requires Enabled(s, e) && IsCompleted(s, q) && NobodyOverwrites(s, q)
    ensures IsCompleted(Apply(s, e), q)
  {
    if HasRun(e) && e.run in s.runs && s.runs[e.run].req == q {
      assert !WillOverwrite(s, e.run);
    }
  }

  lemma StepAddsNoOverwriter(s: State, e: Event, q: ReqId)
    requires Enabled(s, e) && IsCompleted(s, q) && NobodyOverwrites(s, q) && IsCompleted(Apply(s, e), q) && Apply(s, e).max == s.max
    ensures NobodyOverwrites(Apply(s, e), q)
  {
    var t := Apply(s, e);
    hide CanGiveUp, IsJob;
    forall i | i in t.runs && t.runs[i].req == q ensures !WillOverwrite(t, i) {
      if i in s.runs && s.runs[i].req == q {
        assert !WillOverwrite(s, i);
      }
      StaysHarmless(s, e, i, q);
    }
  }

  lemma StaysHarmless(s: State, e: Event, i: RunId, q: ReqId)
    requires Enabled(s, e) && IsCompleted(s, q) && IsCompleted(Apply(s, e), q) && Apply(s, e).max == s.max
    requires i in Apply(s, e).runs && Apply(s, e).runs[i].req == q
    requires i in s.runs && s.runs[i].req == q ==> !WillOverwrite(s, i)
    ensures !WillOverwrite(Apply(s, e), i)
  {
  }

  lemma StepKeepsMax(s: State, e: Event)
    requires Enabled(s, e)
    ensures Apply(s, e).max == s.max
  {
  }

  lemma {:induction false} StaysCompleted(max: nat, log: seq<Event>, more: seq<Event>, q: ReqId)
    requires log <= more && Legal(max, more) && Legal(max, log)
    requires IsCompleted(Play(max, log), q) && NobodyOverwrites(Play(max, log), q)
    ensures IsCompleted(Play(max, more), q) && NobodyOverwrites(Play(max, more), q)
    decreases |more|
  {
    hide Apply, Enabled, IsCompleted, NobodyOverwrites;
    if |log| < |more| {
      var before, e := more[..|more| - 1], more[|more| - 1];
      StaysCompleted(max, log, before, q);
      StepStaysCompleted(Play(max, before), e, q);
      StepKeepsMax(Play(max, before), e);
      StepAddsNoOverwriter(Play(max, before), e, q);
    } else {
      assert log == more;
    }
  }

  lemma Overwrites(max: nat, log: seq<Event>, i: RunId, q: ReqId) returns (more: seq<Event>)
    requires Legal(max, log) && IsCompleted(Play(max, log), q)
    requires i in Play(max, log).runs && Play(max, log).runs[i].req == q && WillOverwrite(Play(max, log), i)
    ensures log <= more && Legal(max, more) && !IsCompleted(Play(max, more), q)
  {
    EveryRunKeepsInv(max, log);
    var s := Play(max, log);
    RunAt(s, i);
    hide After, Legal, Play, Inv;
    if CanGiveUp(s, i) {
      more := Step(max, log, GiveUp(i));
    } else if s.runs[i].stage in {Checked, Accepted} && s.runs[i].xdr.Some? {
      more := Step(max, log, MarkFailed(i));
    } else {
      more := log;
      if s.runs[i].stage != ScrubDone {
        more := Step(max, more, Scrub(i));
      }
      more := Step(max, more, MarkScrubbed(i));
    }
  }

  lemma Reopens(max: nat, log: seq<Event>, c: CallId, q: ReqId) returns (more: seq<Event>)
    requires Legal(max, log) && IsCompleted(Play(max, log), q) && c in Play(max, log).openings && Play(max, log).openings[c] == q
    ensures log <= more && Legal(max, more) && !IsCompleted(Play(max, more), q)
  {
    hide After, Legal, Play;
    more := Step(max, log, Prepare(c, 0));
  }

  /**
   The final writes look at nothing, so COMPLETED is not final by itself. A completed request stays completed in
   every continuation exactly if no call that opened it is still to write its closure, no confirm call of it is
   before its scrub mark, and no pass has seen it unfinished at its last attempt or without a provider.
   */
  lemma CompletedIsFinalExactlyWhen(max: nat, log: seq<Event>, q: ReqId)
    requires Legal(max, log) && IsCompleted(Play(max, log), q)
    ensures NobodyOverwrites(Play(max, log), q) <==>
            forall more :: log <= more && Legal(max, more) ==> IsCompleted(Play(max, more), q)
  {
    var s := Play(max, log);
    hide After, Legal, Play, WillOverwrite, IsCompleted;
    if NobodyOverwrites(s, q) {
      forall more | log <= more && Legal(max, more) ensures IsCompleted(Play(max, more), q) {
        StaysCompleted(max, log, more, q);
      }
    } else {
      var more;
      if c :| c in s.openings && s.openings[c] == q {
        more := Reopens(max, log, c, q);
      } else {
        var i :| i in s.runs && s.runs[i].req == q && WillOverwrite(s, i);
        more := Overwrites(max, log, i, q);
      }
      assert log <= more && Legal(max, more) && !IsCompleted(Play(max, more), q);
    }
  }

  /** It happens: of two confirm calls of one request, the second marks it scrubbed after the first has completed it. */
  lemma SecondConfirmReopens() returns (log: seq<Event>, more: seq<Event>)
    ensures log <= more && Legal(10, log) && Legal(10, more)
    ensures IsCompleted(Play(10, log), 0)
    ensures 0 in Play(10, more).rows && Play(10, more).rows[0].status == LOCAL_SCRUBBED && Play(10, more).rows[0].provider.None?
  {
    var i, j := RunId(0, 0), RunId(1, 0);
    log := ReachesTheEnd(i);
    hide After, Legal, Play;
    log := Step(10, log, Confirm(j, 0, 7));
    log := Step(10, log, Scrub(j));
    log := Step(10, log, Update(i));
    more := Step(10, log, MarkScrubbed(j));
  }
}
