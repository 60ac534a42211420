/**
 The dispatcher itself (src/jobs/push-dispatch.job.ts:76-289): claim a batch, fan it out to devices,
 send in chunks, book every answer, and write each row's final status. Other dispatchers, sweeps and
 inserts may come between any two of its database or network calls.
 */
module PushDispatch {
  import opened Common
  import opened PushOutbox
  import opened PushBooking
  import Versions

  const BATCH_SIZE := 100

  /** The steps nobody but `me` takes. */
  predicate Owns(me: Instance, e: Event) {
    (e.See? || e.Claim? || e.Ticket? || e.Finish? || e.Crash?) && e.who == me
  }

  ghost predicate RowsKeep(s: State, t: State) {
    forall r :: r in s.rows ==> r in t.rows && t.rows[r].user == s.rows[r].user && t.rows[r].target == s.rows[r].target
  }

  /** What `me` holds, with its copies of `attempts`. */
  ghost predicate Holds(s: State, me: Instance, held: map<RowId, nat>) {
    forall r :: ((me, r) in s.holds <==> r in held) && (r in held ==> s.holds[(me, r)] == held[r] && r in s.rows)
  }

  ghost predicate LocalKeeps(me: Instance, s: State, t: State) {
    && (forall r :: (me, r) in s.holds <==> (me, r) in t.holds)
    && (forall r :: (me, r) in s.holds ==> t.holds[(me, r)] == s.holds[(me, r)])
    && (forall r :: (me, r) in s.holds ==> (r in s.ticketed <==> r in t.ticketed))
    && (forall r :: (me, r) in s.seen ==> (me, r) in t.seen && t.seen[(me, r)] == s.seen[(me, r)])
  }

  /** Only the dispatcher itself acted, but for sweeps, which touch no row that waits. */
  ghost predicate Quiet(me: Instance, log: seq<Event>, more: seq<Event>) {
    log <= more && forall k :: |log| <= k < |more| ==> Owns(me, more[k]) || more[k].Sweep?
  }

  ghost predicate SameWaiting(s: State, t: State) {
    forall r :: r in s.rows && s.rows[r].status == PENDING <==> r in t.rows && t.rows[r].status == PENDING
  }

  lemma {:induction false} SweepsKeepWaiting(log: seq<Event>, more: seq<Event>)
    requires log <= more && Legal(more) && forall k :: |log| <= k < |more| ==> more[k].Sweep?
    ensures Legal(log) && SameWaiting(Play(log), Play(more))
    decreases |more|
  {
    if |log| < |more| {
      SweepsKeepWaiting(log, more[..|more| - 1]);
    } else {
      assert log == more;
    }
  }

  lemma QuietSplits(me: Instance, a: seq<Event>, b: seq<Event>, c: seq<Event>)
    requires a <= b <= c
    ensures Quiet(me, a, c) ==> Quiet(me, a, b) && Quiet(me, b, c)
  {
    if Quiet(me, a, c) {
      forall k | |a| <= k < |b| ensures Owns(me, b[k]) || b[k].Sweep? {
        assert c[k] == b[k];
      }
    }
  }

  lemma StepKeepsRows(s: State, e: Event)
    requires Enabled(s, e)
    ensures RowsKeep(s, Apply(s, e))
  {
  }

  lemma StepKeepsLocal(me: Instance, s: State, e: Event)
    requires Inv(s) && Enabled(s, e) && !Owns(me, e)
    ensures LocalKeeps(me, s, Apply(s, e))
  {
  }

  lemma RowsKeepFurther(s: State, t: State, u: State)
    requires RowsKeep(s, t) && RowsKeep(t, u)
    ensures RowsKeep(s, u)
  {
  }

  lemma LocalKeepsFurther(me: Instance, s: State, t: State, u: State)
    requires LocalKeeps(me, s, t) && LocalKeeps(me, t, u)
    ensures LocalKeeps(me, s, u)
  {
  }

  lemma HoldsKept(me: Instance, s: State, t: State, held: map<RowId, nat>)
    requires RowsKeep(s, t) && LocalKeeps(me, s, t) && Holds(s, me, held)
    ensures Holds(t, me, held)
  {
  }

  lemma {:induction false} RunKeeps(me: Instance, log: seq<Event>, more: seq<Event>)
    requires log <= more && Legal(more)
    ensures Legal(log) && RowsKeep(Play(log), Play(more))
    ensures (forall i :: |log| <= i < |more| ==> !Owns(me, more[i])) ==> LocalKeeps(me, Play(log), Play(more))
    decreases |more|
  {
    if |log| < |more| {
      var before, e := more[..|more| - 1], more[|more| - 1];
      hide LocalKeeps, RowsKeep, Inv, Apply, Enabled;
      RunKeeps(me, log, before);
      EveryRunKeepsInv(before);
      StepKeepsRows(Play(before), e);
      RowsKeepFurther(Play(log), Play(before), Play(more));
      if forall i :: |log| <= i < |more| ==> !Owns(me, more[i]) {
        StepKeepsLocal(me, Play(before), e);
        LocalKeepsFurther(me, Play(log), Play(before), Play(more));
      }
    } else {
      assert log == more;
    }
  }

  // ----- Exactly one final write per claim -----

  function ClaimsBy(log: seq<Event>, me: Instance, r: RowId): nat {
    if log == [] then 0
    else ClaimsBy(log[..|log| - 1], me, r) + if log[|log| - 1] == Claim(me, r) then 1 else 0
  }

  function FinishesBy(log: seq<Event>, me: Instance, r: RowId): nat {
    if log == [] then 0
    else
      var e := log[|log| - 1];
      FinishesBy(log[..|log| - 1], me, r) + if e.Finish? && e.who == me && e.row == r then 1 else 0
  }

  function Held(s: State, me: Instance, r: RowId): nat {
    if (me, r) in s.holds then 1 else 0
  }

  /** More steps, none of them the death of `me`. */
  ghost predicate Progress(me: Instance, log: seq<Event>, more: seq<Event>) {
    log <= more && forall k :: |log| <= k < |more| ==> more[k] != Crash(me)
  }

  /** As long as a dispatcher does not die, each row it claims gets one final write, or is still in its hands. */
  lemma {:induction false} OneFinalWritePerClaim(log: seq<Event>, more: seq<Event>, me: Instance, r: RowId)
    requires Progress(me, log, more) && Legal(more)
    ensures Legal(log)
    ensures ClaimsBy(more, me, r) - ClaimsBy(log, me, r) ==
            FinishesBy(more, me, r) - FinishesBy(log, me, r) + Held(Play(more), me, r) - Held(Play(log), me, r)
    decreases |more|
  {
    if |log| < |more| {
      OneFinalWritePerClaim(log, more[..|more| - 1], me, r);
      EveryRunKeepsInv(more[..|more| - 1]);
    } else {
      assert log == more;
    }
  }

  /** None of the dispatcher's own steps is a final write. */
  ghost predicate Collects(me: Instance, log: seq<Event>, more: seq<Event>) {
    log <= more && forall k :: |log| <= k < |more| && more[k].Finish? ==> more[k].who != me
  }

  /** None of them is a claim. */
  ghost predicate Sends(me: Instance, log: seq<Event>, more: seq<Event>) {
    log <= more && forall k :: |log| <= k < |more| ==> !(more[k].Claim? && more[k].who == me)
  }

  lemma {:induction false} NoMoreClaims(log: seq<Event>, more: seq<Event>, me: Instance, r: RowId)
    requires Sends(me, log, more)
    ensures ClaimsBy(more, me, r) == ClaimsBy(log, me, r)
    decreases |more|
  {
    if |log| < |more| {
      NoMoreClaims(log, more[..|more| - 1], me, r);
    } else {
      assert log == more;
    }
  }

  lemma {:induction false} NoMoreFinishes(log: seq<Event>, more: seq<Event>, me: Instance, r: RowId)
    requires Collects(me, log, more)
    ensures FinishesBy(more, me, r) == FinishesBy(log, me, r)
    decreases |more|
  {
    if |log| < |more| {
      NoMoreFinishes(log, more[..|more| - 1], me, r);
    } else {
      assert log == more;
    }
  }

  ghost predicate IsAmong(rows: seq<ClaimedRow>, r: RowId) {
    exists i :: 0 <= i < |rows| && rows[i].id == r
  }

  /** The dispatcher has claimed these rows, each once, and no other. */
  ghost predicate ClaimsExactly(me: Instance, log: seq<Event>, more: seq<Event>, rows: seq<ClaimedRow>) {
    forall r :: ClaimsBy(more, me, r) - ClaimsBy(log, me, r) == if IsAmong(rows, r) then 1 else 0
  }

  lemma BatchIsClaimed(me: Instance, log: seq<Event>, more: seq<Event>, rows: seq<ClaimedRow>, held: map<RowId, nat>)
    requires Progress(me, log, more) && Collects(me, log, more) && Legal(log) && Legal(more)
    requires Holds(Play(log), me, map[]) && Holds(Play(more), me, held) && Claimed(Play(more), rows, held)
    ensures ClaimsExactly(me, log, more, rows)
  {
    forall r ensures ClaimsBy(more, me, r) - ClaimsBy(log, me, r) == if IsAmong(rows, r) then 1 else 0 {
      OneFinalWritePerClaim(log, more, me, r);
      NoMoreFinishes(log, more, me, r);
    }
  }

  lemma RoundClaimsBatch(me: Instance, a: seq<Event>, b: seq<Event>, c: seq<Event>, d: seq<Event>, rows: seq<ClaimedRow>)
    requires (a == b || Sends(me, a, b)) && ClaimsExactly(me, b, c, rows) && Sends(me, c, d)
    ensures ClaimsExactly(me, a, d, rows)
  {
    forall r ensures ClaimsBy(d, me, r) - ClaimsBy(a, me, r) == if IsAmong(rows, r) then 1 else 0 {
      if a != b {
        NoMoreClaims(a, b, me, r);
      }
      NoMoreClaims(c, d, me, r);
    }
  }

  ghost predicate Written(log: seq<Event>, from: nat, me: Instance, r: RowId, status: Status) {
    exists k :: from <= k < |log| && log[k] == Finish(me, r, status)
  }

  // ----- Who a row goes to, and how it ends -----

  predicate OldestFirst(rows: map<RowId, Row>, listed: seq<RowId>) {
    forall i, j :: 0 <= i < j < |listed| && listed[i] in rows && listed[j] in rows ==> rows[listed[i]].createdAt <= rows[listed[j]].createdAt
  }

  /** The row is at least as recent as all that are listed. */
  predicate NotOlder(rows: map<RowId, Row>, listed: seq<RowId>, r: RowId) {
    r in rows ==> forall i :: 0 <= i < |listed| && listed[i] in rows ==> rows[listed[i]].createdAt <= rows[r].createdAt
  }

  predicate IsOldest(rows: map<RowId, Row>, left: set<RowId>, r: RowId) {
    r in left && r in rows && forall q :: q in left && q in rows ==> rows[r].createdAt <= rows[q].createdAt
  }

  lemma {:induction false} OldestExists(rows: map<RowId, Row>, left: set<RowId>)
    requires left != {} && left <= rows.Keys
    ensures exists r :: IsOldest(rows, left, r)
  {
    var x :| x in left;
    if left == {x} {
      assert IsOldest(rows, left, x);
    } else {
      OldestExists(rows, left - {x});
      var r :| IsOldest(rows, left - {x}, r);
      assert IsOldest(rows, left, if rows[x].createdAt < rows[r].createdAt then x else r);
    }
  }

  lemma OldestNext(rows: map<RowId, Row>, listed: seq<RowId>, left: set<RowId>, r: RowId)
    requires OldestFirst(rows, listed) && IsOldest(rows, left, r) && left <= rows.Keys
    requires forall q :: q in left ==> NotOlder(rows, listed, q)
    ensures OldestFirst(rows, listed + [r]) && forall q :: q in left - {r} ==> NotOlder(rows, listed + [r], q)
  {
  }

  datatype ClaimedRow = ClaimedRow(id: RowId, user: nat, target: Option<Versions.Target>, attempts: nat)

  /** The devices of the row's user that match its audience. */
  function Own(row: ClaimedRow, devices: seq<Versions.Device>): seq<nat> {
    if devices == [] then []
    else
      var d := devices[|devices| - 1];
      Own(row, devices[..|devices| - 1]) +
      if d.user == row.user && Versions.DeviceMatchesTarget(d, row.target) then [d.id] else []
  }

  function Messages(row: ClaimedRow, own: seq<nat>): seq<Target> {
    seq(|own|, i requires 0 <= i < |own| => Target(row.id, own[i]))
  }

  function FanOut(rows: seq<ClaimedRow>, devices: seq<Versions.Device>): seq<Target> {
    if rows == [] then []
    else
      var row := rows[|rows| - 1];
      FanOut(rows[..|rows| - 1], devices) + Messages(row, Own(row, devices))
  }

  function Ending(o: Outcome, attempts: nat): Status {
    if o.tickets != [] then SENT else if o.retryable && attempts < MAX_ATTEMPTS then PENDING else FAILED
  }

  /** How a claimed row ends, from everything that was answered in the round. */
  function Verdict(row: ClaimedRow, rows: seq<ClaimedRow>, devices: seq<Versions.Device>, answers: seq<Answer>): Status
    requires |answers| == |FanOut(rows, devices)|
  {
    if Own(row, devices) == [] then SKIPPED
    else Ending(Book(row.id, FanOut(rows, devices), answers), row.attempts)
  }

  /** The devices a row is for: its user's, on the platform asked for, running a version below the limit. */
  predicate IsFor(row: ClaimedRow, d: Versions.Device) {
    && d.user == row.user
    && (row.target.Some? && row.target.value.platform.Some? ==> d.platform == row.target.value.platform.value)
    && (row.target.Some? && row.target.value.maxAppVersion.Some? && row.target.value.maxAppVersion.value != "" ==>
          && d.appVersion.Some?
          && var order := Versions.Compare(d.appVersion.value, row.target.value.maxAppVersion.value);
          order.Some? && order.value < 0)
  }

  ghost predicate Reaches(row: ClaimedRow, devices: seq<Versions.Device>, x: nat) {
    exists d :: d in devices && d.id == x && IsFor(row, d)
  }

  /** Each row goes to the devices it is for and to no other, once to each, and nothing else is sent. */
  ghost predicate SentExactly(messages: seq<Target>, rows: seq<ClaimedRow>, devices: seq<Versions.Device>) {
    && (forall k :: 0 <= k < |messages| ==> IsAmong(rows, messages[k].row))
    && (forall i, x :: 0 <= i < |rows| ==> (Target(rows[i].id, x) in messages <==> Reaches(rows[i], devices, x)))
    && ((forall a, b :: 0 <= a < b < |devices| ==> devices[a].id != devices[b].id) ==>
          forall j, k :: 0 <= j < k < |messages| ==> messages[j] != messages[k])
  }

  /** The status a row ends with: skipped without a device, else sent, tried again or failed as its messages fared. */
  ghost predicate EndsAs(row: ClaimedRow, devices: seq<Versions.Device>, messages: seq<Target>, answers: seq<Answer>, status: Status)
    requires |messages| == |answers|
  {
    && status in {SKIPPED, SENT, PENDING, FAILED}
    && (status == SKIPPED <==> forall d :: d in devices ==> !IsFor(row, d))
    && (status == SENT <==> GotTicket(row.id, messages, answers))
    && (status == PENDING <==> !GotTicket(row.id, messages, answers) && MayPassLater(row.id, messages, answers) && row.attempts < MAX_ATTEMPTS)
  }

  lemma {:induction false} OwnIs(row: ClaimedRow, devices: seq<Versions.Device>, x: nat)
    ensures x in Own(row, devices) <==> Reaches(row, devices, x)
  {
    hide Versions.Compare;
    if devices != [] {
      var n := |devices| - 1;
      OwnIs(row, devices[..n], x);
      assert devices == devices[..n] + [devices[n]];
    }
  }

  lemma {:induction false} OwnOnce(row: ClaimedRow, devices: seq<Versions.Device>)
    requires forall a, b :: 0 <= a < b < |devices| ==> devices[a].id != devices[b].id
    ensures forall j, k :: 0 <= j < k < |Own(row, devices)| ==> Own(row, devices)[j] != Own(row, devices)[k]
  {
    hide Versions.DeviceMatchesTarget;
    if devices != [] {
      var n := |devices| - 1;
      OwnOnce(row, devices[..n]);
      OwnIs(row, devices[..n], devices[n].id);
    }
  }

  lemma {:induction false} FanOutIs(rows: seq<ClaimedRow>, devices: seq<Versions.Device>, t: Target)
    ensures t in FanOut(rows, devices) <==> exists i :: 0 <= i < |rows| && rows[i].id == t.row && t.device in Own(rows[i], devices)
  {
    hide Own;
    if rows != [] {
      var n := |rows| - 1;
      var own := Own(rows[n], devices);
      FanOutIs(rows[..n], devices, t);
      assert rows == rows[..n] + [rows[n]];
      assert t in Messages(rows[n], own) <==> t.row == rows[n].id && t.device in own by {
        if t.row == rows[n].id && t.device in own {
          var i :| 0 <= i < |own| && own[i] == t.device;
          assert Messages(rows[n], own)[i] == t;
        }
      }
    }
  }

  lemma {:induction false} FanOutOnce(rows: seq<ClaimedRow>, devices: seq<Versions.Device>)
    requires forall a, b :: 0 <= a < b < |devices| ==> devices[a].id != devices[b].id
    requires forall i, j :: 0 <= i < j < |rows| ==> rows[i].id != rows[j].id
    ensures forall j, k :: 0 <= j < k < |FanOut(rows, devices)| ==> FanOut(rows, devices)[j] != FanOut(rows, devices)[k]
  {
    hide Own;
    if rows != [] {
      var n := |rows| - 1;
      FanOutOnce(rows[..n], devices);
      OwnOnce(rows[n], devices);
      var before, own := FanOut(rows[..n], devices), Own(rows[n], devices);
      forall j, k | 0 <= j < |before| && 0 <= k < |own| ensures before[j] != Target(rows[n].id, own[k]) {
        FanOutIs(rows[..n], devices, before[j]);
      }
    }
  }

  /** The plan, without its own functions: who gets a message of a row, and who does not. */
  lemma FanOutReaches(rows: seq<ClaimedRow>, devices: seq<Versions.Device>)
    requires forall i, j :: 0 <= i < j < |rows| ==> rows[i].id != rows[j].id
    ensures SentExactly(FanOut(rows, devices), rows, devices)
  {
    hide FanOut, Own, Reaches;
    var messages := FanOut(rows, devices);
    forall k | 0 <= k < |messages| ensures IsAmong(rows, messages[k].row) {
      FanOutIs(rows, devices, messages[k]);
    }
    forall i, x | 0 <= i < |rows| ensures Target(rows[i].id, x) in messages <==> Reaches(rows[i], devices, x) {
      FanOutIs(rows, devices, Target(rows[i].id, x));
      OwnIs(rows[i], devices, x);
    }
    assert (forall a, b :: 0 <= a < b < |devices| ==> devices[a].id != devices[b].id) ==>
             forall j, k :: 0 <= j < k < |messages| ==> messages[j] != messages[k] by {
      if forall a, b :: 0 <= a < b < |devices| ==> devices[a].id != devices[b].id {
        FanOutOnce(rows, devices);
      }
    }
  }

  lemma NothingForOthers(row: ClaimedRow, devices: seq<Versions.Device>)
    ensures Own(row, devices) == [] <==> forall d :: d in devices ==> !IsFor(row, d)
  {
    hide Own, IsFor;
    if Own(row, devices) != [] {
      OwnIs(row, devices, Own(row, devices)[0]);
    }
    forall d | d in devices && IsFor(row, d) ensures Own(row, devices) != [] {
      OwnIs(row, devices, d.id);
    }
  }

  lemma VerdictEndsAs(row: ClaimedRow, rows: seq<ClaimedRow>, devices: seq<Versions.Device>, answers: seq<Answer>)
    requires |answers| == |FanOut(rows, devices)| && SentExactly(FanOut(rows, devices), rows, devices) && row in rows
    ensures EndsAs(row, devices, FanOut(rows, devices), answers, Verdict(row, rows, devices, answers))
  {
    hide FanOut, Own, Book, IsFor, Reaches;
    var messages := FanOut(rows, devices);
    BookSays(row.id, messages, answers);
    NothingForOthers(row, devices);
    var i :| 0 <= i < |rows| && rows[i] == row;
    if Own(row, devices) == [] {
      forall k | 0 <= k < |messages| ensures messages[k].row != row.id {
        if messages[k].row == row.id {
          assert Target(rows[i].id, messages[k].device) in messages;
          OwnIs(row, devices, messages[k].device);
        }
      }
    }
  }

  /** The claimed rows are distinct, carry their row's audience, and `held` has their attempts. */
  ghost predicate Claimed(s: State, rows: seq<ClaimedRow>, held: map<RowId, nat>) {
    && (forall i, j :: 0 <= i < j < |rows| ==> rows[i].id != rows[j].id)
    && (forall i :: 0 <= i < |rows| ==>
          && rows[i].id in s.rows && rows[i].id in held && held[rows[i].id] == rows[i].attempts
          && s.rows[rows[i].id].user == rows[i].user && s.rows[rows[i].id].target == rows[i].target)
    && (forall r :: r in held ==> exists i :: 0 <= i < |rows| && rows[i].id == r)
  }

  /** User and audience of each row are those of the table. */
  ghost predicate AsStored(s: State, rows: seq<ClaimedRow>) {
    forall i :: 0 <= i < |rows| ==>
      && rows[i].id in s.rows
      && s.rows[rows[i].id].user == rows[i].user && s.rows[rows[i].id].target == rows[i].target
  }

  /** The row has been written with the status its own messages call for. */
  ghost predicate WrittenRight(log: seq<Event>, from: nat, me: Instance, row: ClaimedRow, devices: seq<Versions.Device>,
                               messages: seq<Target>, answers: seq<Answer>)
    requires |messages| == |answers|
  {
    exists status :: Written(log, from, me, row.id, status) && EndsAs(row, devices, messages, answers, status)
  }

  ghost predicate AllWrittenRight(log: seq<Event>, from: nat, me: Instance, rows: seq<ClaimedRow>, devices: seq<Versions.Device>,
                                  messages: seq<Target>, answers: seq<Answer>) {
    |messages| == |answers| && forall i :: 0 <= i < |rows| ==> WrittenRight(log, from, me, rows[i], devices, messages, answers)
  }

  lemma VerdictsEndAs(log: seq<Event>, from: nat, me: Instance, rows: seq<ClaimedRow>, devices: seq<Versions.Device>, answers: seq<Answer>)
    requires |answers| == |FanOut(rows, devices)| && SentExactly(FanOut(rows, devices), rows, devices)
    requires forall i :: 0 <= i < |rows| ==> Written(log, from, me, rows[i].id, Verdict(rows[i], rows, devices, answers))
    ensures AllWrittenRight(log, from, me, rows, devices, FanOut(rows, devices), answers)
  {
    hide FanOut, Written, Verdict, EndsAs, SentExactly;
    var messages := FanOut(rows, devices);
    forall i | 0 <= i < |rows| ensures WrittenRight(log, from, me, rows[i], devices, messages, answers) {
      VerdictEndsAs(rows[i], rows, devices, answers);
      assert Written(log, from, me, rows[i].id, Verdict(rows[i], rows, devices, answers));
    }
  }

  lemma ClaimedKept(s: State, t: State, rows: seq<ClaimedRow>, held: map<RowId, nat>)
    requires RowsKeep(s, t) && Claimed(s, rows, held)
    ensures Claimed(t, rows, held)
  {
  }

  lemma ClaimedMore(s: State, rows: seq<ClaimedRow>, held: map<RowId, nat>, row: ClaimedRow)
    requires Claimed(s, rows, held) && row.id !in held
    requires row.id in s.rows && s.rows[row.id].user == row.user && s.rows[row.id].target == row.target
    ensures Claimed(s, rows + [row], held[row.id := row.attempts])
  {
    var more, now := rows + [row], held[row.id := row.attempts];
    assert more[|rows|] == row;
    forall r | r in now ensures exists i :: 0 <= i < |more| && more[i].id == r {
      if r in held && r != row.id {
        var i :| 0 <= i < |rows| && rows[i].id == r;
        assert more[i].id == r;
      }
    }
  }

  /** A row just claimed: in hand, not ticketed, its own copy of the attempts as it was read. */
  lemma ClaimHolds(s: State, me: Instance, r: RowId, held: map<RowId, nat>)
    requires Inv(s) && Enabled(s, Claim(me, r)) && Holds(s, me, held)
    ensures var t := Apply(s, Claim(me, r));
            r !in held && Holds(t, me, held[r := s.seen[(me, r)] + 1]) && t.ticketed == s.ticketed && r !in t.ticketed
  {
  }

  /** Which of the held rows have been ticketed. */
  ghost predicate TicketedAre(s: State, held: map<RowId, nat>, outcomes: map<RowId, Outcome>) {
    forall r :: r in held ==> (r in s.ticketed <==> r in outcomes && outcomes[r].tickets != [])
  }

  lemma TicketedKept(me: Instance, s: State, t: State, held: map<RowId, nat>, outcomes: map<RowId, Outcome>)
    requires LocalKeeps(me, s, t) && Holds(s, me, held) && TicketedAre(s, held, outcomes)
    ensures TicketedAre(t, held, outcomes)
  {
  }

  class Database {
    var st: State
    ghost var log: seq<Event>
    /** How many of the calls made through this object have failed. */
    ghost var failures: nat

    ghost predicate Valid()
      reads this
    {
      Legal(log) && st == Play(log)
    }

    constructor ()
      ensures Valid() && log == []
    {
      st := Empty;
      log, failures := [], 0;
    }

    /** Any number of steps by everyone else; callers know nothing else about it. */
    method Others(ghost me: Instance)
      requires Valid()
      modifies this`st, this`log
      ensures Valid() && old(log) <= log
      ensures forall i :: |old(log)| <= i < |log| ==> !Owns(me, log[i])
    {
    }

    method Yield(ghost me: Instance)
      requires Valid()
      modifies this`st, this`log
      ensures Valid() && Inv(st) && Progress(me, old(log), log) && Collects(me, old(log), log) && Sends(me, old(log), log)
      ensures RowsKeep(old(st), st) && LocalKeeps(me, old(st), st)
      ensures Quiet(me, old(log), log) ==> SameWaiting(old(st), st)
    {
      hide RowsKeep, LocalKeeps, Inv, Run, SameWaiting;
      Others(me);
      RunKeeps(me, old(log), log);
      EveryRunKeepsInv(log);
      if Quiet(me, old(log), log) {
        SweepsKeepWaiting(old(log), log);
      }
    }

    method Perform(e: Event)
      requires Valid() && Enabled(st, e)
      modifies this`st, this`log
      ensures Valid() && Inv(st) && log == old(log) + [e]
      ensures st == Apply(old(st), e) && RowsKeep(old(st), st)
    {
      hide RowsKeep, Inv, Run;
      log := log + [e];
      Extend(old(log), e);
      st := Apply(st, e);
      StepKeepsRows(old(st), e);
      EveryRunKeepsInv(log);
    }
  }

  class PushDispatchJob {
    const db: Database
    const me: Instance

    constructor (db: Database, me: Instance)
      ensures this.db == db && this.me == me
    {
      this.db := db;
      this.me := me;
    }

    /** One call that may fail. A failure ends the round, and with it what the dispatcher had in memory. */
    method Call() returns (ok: bool)
      requires db.Valid()
      modifies db
      ensures db.failures == old(db.failures) + if ok then 0 else 1
      ensures db.Valid() && Inv(db.st) && old(db.log) <= db.log && RowsKeep(old(db.st), db.st)
      ensures ok ==> Progress(me, old(db.log), db.log) && LocalKeeps(me, old(db.st), db.st)
      ensures ok ==> Collects(me, old(db.log), db.log) && Sends(me, old(db.log), db.log)
      ensures ok && Quiet(me, old(db.log), db.log) ==> SameWaiting(old(db.st), db.st)
      ensures !ok ==> Holds(db.st, me, map[])
    {
      db.Yield(me);
      ghost var s := db.st;
      ok := *;
      if !ok {
        db.failures := db.failures + 1;
        db.Perform(Crash(me));
        RowsKeepFurther(old(db.st), s, db.st);
      }
    }

    /** One bulk update: exactly the rows in SENDING for longer than the limit are failed. */
    method FailStaleSending()
      requires db.Valid() && Inv(db.st)
      modifies db`st, db`log
      ensures db.Valid() && Inv(db.st) && Progress(me, old(db.log), db.log) && Sends(me, old(db.log), db.log)
      ensures db.st == old(db.st).(rows := db.st.rows) && db.st.rows.Keys == old(db.st.rows.Keys)
      ensures forall r :: r in old(db.st.rows) ==>
                var row := old(db.st.rows[r]);
                db.st.rows[r] == if row.status == SENDING && row.updatedAt + STALE_SENDING_MS < old(db.st.now)
                                 then row.(status := FAILED, updatedAt := old(db.st.now)) else row
    {
      var left := db.st.rows.Keys;
      while left != {}
        invariant db.Valid() && Inv(db.st) && Progress(me, old(db.log), db.log) && Sends(me, old(db.log), db.log)
        invariant db.st == old(db.st).(rows := db.st.rows) && db.st.rows.Keys == old(db.st.rows.Keys) && left <= db.st.rows.Keys
        invariant forall r :: r in left ==> db.st.rows[r] == old(db.st.rows[r])
        invariant forall r :: r in old(db.st.rows) && r !in left ==>
                    var row := old(db.st.rows[r]);
                    db.st.rows[r] == if row.status == SENDING && row.updatedAt + STALE_SENDING_MS < old(db.st.now)
                                     then row.(status := FAILED, updatedAt := old(db.st.now)) else row
      {
        hide Inv, RowsKeep, Run;
        var r :| r in left;
        left := left - {r};
        if Enabled(db.st, Sweep(r)) {
          db.Perform(Sweep(r));
        }
      }
    }

    /** The oldest waiting rows, at most a batch of them, as one read. */
    method ReadCandidates() returns (candidates: seq<RowId>)
      requires db.Valid() && Inv(db.st)
      modifies db`st, db`log
      ensures db.Valid() && Inv(db.st) && Progress(me, old(db.log), db.log) && Collects(me, old(db.log), db.log)
      ensures db.st == old(db.st).(seen := db.st.seen) && |candidates| <= BATCH_SIZE
      ensures forall i, j :: 0 <= i < j < |candidates| ==> candidates[i] != candidates[j]
      ensures forall r :: r in candidates ==> r in db.st.rows && (me, r) in db.st.seen && db.st.rows[r].status == PENDING
      ensures |candidates| < BATCH_SIZE ==> forall r :: r in db.st.rows && db.st.rows[r].status == PENDING ==> r in candidates
      ensures OldestFirst(db.st.rows, candidates)
      ensures forall r :: r in db.st.rows && db.st.rows[r].status == PENDING && r !in candidates ==> NotOlder(db.st.rows, candidates, r)
    {
      var left := set r | r in db.st.rows && db.st.rows[r].status == PENDING;
      candidates := [];
      while left != {} && |candidates| < BATCH_SIZE
        invariant db.Valid() && Inv(db.st) && Progress(me, old(db.log), db.log) && Collects(me, old(db.log), db.log)
        invariant db.st == old(db.st).(seen := db.st.seen) && |candidates| <= BATCH_SIZE
        invariant forall i, j :: 0 <= i < j < |candidates| ==> candidates[i] != candidates[j]
        invariant forall r :: r in left ==> r in db.st.rows && db.st.rows[r].status == PENDING && r !in candidates
        invariant forall r :: r in db.st.rows && db.st.rows[r].status == PENDING ==> r in candidates || r in left
        invariant forall r :: r in candidates ==> r in db.st.rows && (me, r) in db.st.seen && db.st.rows[r].status == PENDING
        invariant OldestFirst(db.st.rows, candidates)
        invariant forall r :: r in left ==> NotOlder(db.st.rows, candidates, r)
      {
        hide Inv, RowsKeep, Run, OldestFirst, NotOlder, IsOldest;
        OldestExists(db.st.rows, left);
        var r :| r in left && IsOldest(db.st.rows, left, r);
        OldestNext(db.st.rows, candidates, left, r);
        left := left - {r};
        db.Perform(See(me, r));
        candidates := candidates + [r];
      }
    }

    /** Claims one row if it is still waiting; whoever else took it first keeps it. */
    method ClaimOne(r: RowId, rows: seq<ClaimedRow>, ghost held: map<RowId, nat>)
      returns (more: seq<ClaimedRow>, ghost now: map<RowId, nat>)
      requires db.Valid() && Inv(db.st) && r in db.st.rows && (me, r) in db.st.seen
      requires Holds(db.st, me, held) && Claimed(db.st, rows, held) && TicketedAre(db.st, held, map[])
      modifies db`st, db`log
      ensures db.Valid() && Inv(db.st) && Progress(me, old(db.log), db.log) && RowsKeep(old(db.st), db.st)
      ensures Collects(me, old(db.log), db.log)
      ensures Holds(db.st, me, now) && Claimed(db.st, more, now) && TicketedAre(db.st, now, map[])
      ensures forall q :: q != r && (me, q) in old(db.st.seen) ==> (me, q) in db.st.seen
      ensures more == rows || (|more| == |rows| + 1 && more[|rows|].id == r && more[..|rows|] == rows)
      ensures old(db.st.rows[r].status) == PENDING <==> more != rows
      ensures forall q :: q in old(db.st.rows) && q != r ==> q in db.st.rows && db.st.rows[q] == old(db.st.rows[q])
    {
      hide Inv, RowsKeep, Run;
      more, now := rows, held;
      if db.st.rows[r].status == PENDING {
        ghost var s := db.st;
        ClaimHolds(s, me, r, held);
        var row := ClaimedRow(r, db.st.rows[r].user, db.st.rows[r].target, db.st.seen[(me, r)] + 1);
        db.Perform(Claim(me, r));
        ClaimedKept(s, db.st, rows, held);
        ClaimedMore(db.st, rows, held, row);
        more, now := rows + [row], held[r := row.attempts];
      } else {
        SeeKeepsRows(me, db.st, db.st);
      }
    }

    /** Claims the candidates one by one, each in its own call. */
    method ClaimAll(candidates: seq<RowId>) returns (ok: bool, rows: seq<ClaimedRow>, ghost held: map<RowId, nat>)
      requires db.Valid() && Inv(db.st) && Holds(db.st, me, map[]) && Seen(me, db.st, candidates)
      requires forall i, j :: 0 <= i < j < |candidates| ==> candidates[i] != candidates[j]
      modifies db
      ensures db.failures == old(db.failures) + if ok then 0 else 1
      ensures db.Valid() && Inv(db.st) && old(db.log) <= db.log && RowsKeep(old(db.st), db.st)
      ensures !ok ==> Holds(db.st, me, map[])
      ensures ok ==> Progress(me, old(db.log), db.log) && Holds(db.st, me, held) && Claimed(db.st, rows, held)
      ensures ok ==> Collects(me, old(db.log), db.log)
      ensures ok ==> TicketedAre(db.st, held, map[]) && |rows| <= |candidates|
      ensures ok && Quiet(me, old(db.log), db.log) && Wait(old(db.st), candidates) ==> Are(rows, candidates)
    {
      hide Inv, RowsKeep, LocalKeeps, Run, Holds, Claimed, TicketedAre, Seen, Progress, Collects, Sends, Quiet, Wait, Are, SameWaiting;
      rows, held, ok := [], map[], true;
      NothingYet(me, db.st, db.log);
      NoneAre(candidates);
      assert candidates[0..] == candidates;
      for n := 0 to |candidates|
        invariant db.Valid() && Inv(db.st) && old(db.log) <= db.log && ok && db.failures == old(db.failures)
        invariant Progress(me, old(db.log), db.log) && Collects(me, old(db.log), db.log) && RowsKeep(old(db.st), db.st)
        invariant Holds(db.st, me, held) && Claimed(db.st, rows, held) && TicketedAre(db.st, held, map[])
        invariant |rows| <= n && Seen(me, db.st, candidates[n..])
        invariant Quiet(me, old(db.log), db.log) && Wait(old(db.st), candidates) ==>
                    Wait(db.st, candidates[n..]) && Are(rows, candidates[..n])
      {
        ghost var s, log := db.st, db.log;
        ok := Call();
        RowsKeepFurther(old(db.st), s, db.st);
        if !ok {
          return;
        }
        ProgressFurther(me, old(db.log), log, db.log);
        QuietSplits(me, old(db.log), log, db.log);
        WaitKept(s, db.st, candidates[n..]);
        HoldsKept(me, s, db.st, held);
        ClaimedKept(s, db.st, rows, held);
        TicketedKept(me, s, db.st, held, map[]);
        SeenKept(me, s, db.st, candidates[n..]);
        s, log := db.st, db.log;
        SeenFirst(me, s, candidates, n);
        ghost var before := rows;
        rows, held := ClaimOne(candidates[n], rows, held);
        ProgressFurther(me, old(db.log), log, db.log);
        QuietSplits(me, old(db.log), log, db.log);
        WaitRest(s, db.st, candidates, n, before, rows);
        RowsKeepFurther(old(db.st), s, db.st);
        SeenRest(me, s, db.st, candidates, n);
      }
      assert candidates[..|candidates|] == candidates;
    }

    /** The rows that were still waiting when each one's turn came; undisturbed, all that waited, up to a batch. */
    method ClaimBatch() returns (ok: bool, rows: seq<ClaimedRow>, ghost held: map<RowId, nat>)
      requires db.Valid() && Holds(db.st, me, map[])
      modifies db
      ensures db.failures == old(db.failures) + if ok then 0 else 1
      ensures db.Valid() && Inv(db.st) && old(db.log) <= db.log && RowsKeep(old(db.st), db.st)
      ensures !ok ==> Holds(db.st, me, map[])
      ensures ok ==> Progress(me, old(db.log), db.log) && Holds(db.st, me, held) && Claimed(db.st, rows, held)
      ensures ok ==> TicketedAre(db.st, held, map[]) && |rows| <= BATCH_SIZE
      ensures ok ==> ClaimsExactly(me, old(db.log), db.log, rows)
      ensures ok && Quiet(me, old(db.log), db.log) ==> AllClaimed(old(db.st), rows)
    {
      hide Inv, RowsKeep, LocalKeeps, Run, Holds, Claimed, TicketedAre, Progress;
      hide Collects, Sends, Quiet, Wait, Are, AllClaimed, SameWaiting, ClaimsExactly;
      rows, held := [], map[];
      ok := Call();
      if !ok {
        return;
      }
      HoldsKept(me, old(db.st), db.st, map[]);
      ghost var s, log := db.st, db.log;
      ghost var l0, read := log, s;
      var candidates := ReadCandidates();
      CandidatesWait(db.st, candidates);
      ProgressFurther(me, old(db.log), log, db.log);
      SeeKeepsRows(me, s, db.st);
      RowsKeepFurther(old(db.st), s, db.st);
      s, log := db.st, db.log;
      ok, rows, held := ClaimAll(candidates);
      QuietSplits(me, old(db.log), log, db.log);
      QuietSplits(me, old(db.log), l0, log);
      if Are(rows, candidates) {
        AllAreClaimed(s, candidates, rows);
        ReadKeepsWaiting(read, s);
        SameStatuses(read, s, rows);
        SameStatuses(old(db.st), read, rows);
      }
      RowsKeepFurther(old(db.st), s, db.st);
      if ok {
        ProgressFurther(me, old(db.log), log, db.log);
        BatchIsClaimed(me, old(db.log), db.log, rows, held);
      }
    }

    /** Plans one message per matching device, in order; a row that reaches no device is skipped at once. */
    method Plan(rows: seq<ClaimedRow>, devices: seq<Versions.Device>, ghost held: map<RowId, nat>)
      returns (ok: bool, targets: seq<Target>, outcomes: map<RowId, Outcome>, ghost open: map<RowId, nat>)
      requires db.Valid() && Inv(db.st) && Holds(db.st, me, held) && Claimed(db.st, rows, held) && TicketedAre(db.st, held, map[])
      modifies db
      ensures db.failures == old(db.failures) + if ok then 0 else 1
      ensures db.Valid() && Inv(db.st) && old(db.log) <= db.log && RowsKeep(old(db.st), db.st)
      ensures !ok ==> Holds(db.st, me, map[])
      ensures ok ==> Progress(me, old(db.log), db.log) && Holds(db.st, me, open) && Reached(rows, devices, held, open, |rows|)
      ensures ok ==> Sends(me, old(db.log), db.log)
      ensures ok ==> targets == FanOut(rows, devices) && TargetsIn(targets, open)
      ensures ok ==> outcomes == map r | r in open :: NOTHING
      ensures ok ==> TicketedAre(db.st, open, outcomes)
      ensures ok ==> Skipped(db.log, |old(db.log)|, me, rows, devices, |rows|)
      ensures ok ==> SentExactly(targets, rows, devices) && OthersSkipped(db.log, |old(db.log)|, me, rows, devices, open)
    {
      hide Inv, RowsKeep, LocalKeeps, Run, Holds, Claimed, TicketedAre, Progress, Collects, Sends, Reached, Skipped, TargetsIn, FanOut;
      hide SentExactly, OthersSkipped;
      ok, targets, outcomes, open := true, [], map[], held;
      PlanStarts(me, db.st, db.log, rows, devices, held);
      for n := 0 to |rows|
        invariant ok && db.Valid() && Inv(db.st) && old(db.log) <= db.log && db.failures == old(db.failures)
        invariant Progress(me, old(db.log), db.log) && Sends(me, old(db.log), db.log) && RowsKeep(old(db.st), db.st)
        invariant Holds(db.st, me, open) && Claimed(db.st, rows, held) && TicketedAre(db.st, open, map[])
        invariant Reached(rows, devices, held, open, n) && targets == FanOut(rows[..n], devices)
        invariant TargetsIn(targets, outcomes) && Planned(rows, open, outcomes, n)
        invariant Skipped(db.log, |old(db.log)|, me, rows, devices, n)
      {
        var row := rows[n];
        var own := Own(row, devices);
        ghost var before := db.log;
        PlanNext(db.st, rows, devices, held, open, outcomes, n);
        FanOutNext(rows, devices, n);
        if own == [] {
          ghost var s, log := db.st, db.log;
          ok := Call();
          RowsKeepFurther(old(db.st), s, db.st);
          if !ok {
            return;
          }
          ProgressFurther(me, old(db.log), log, db.log);
          HoldsKept(me, s, db.st, open);
          ClaimedKept(s, db.st, rows, held);
          TicketedKept(me, s, db.st, open, map[]);
          s, log := db.st, db.log;
          SkipIsAllowed(me, s, open, row.id);
          db.Perform(Finish(me, row.id, SKIPPED));
          FinishProgress(me, |old(db.log)|, log, row.id, SKIPPED);
          ProgressFurther(me, old(db.log), log, db.log);
          RowsKeepFurther(old(db.st), s, db.st);
          ClaimedKept(s, db.st, rows, held);
          SkippedMore(before, db.log, |old(db.log)|, me, rows, devices, n);
          open := open - {row.id};
        } else {
          SkippedMore(db.log, db.log, |old(db.log)|, me, rows, devices, n);
          TargetsMore(targets, row, own, outcomes);
          targets := targets + Messages(row, own);
          outcomes := outcomes[row.id := NOTHING];
        }
      }
      assert rows[..|rows|] == rows;
      PlanEnds(db.st, rows, devices, held, open, outcomes, targets);
      RowsAreDistinct(db.st, rows, held);
      FanOutReaches(rows, devices);
      SkipsTheOthers(db.log, |old(db.log)|, me, rows, devices, held, open);
    }

    /** The service's answer for a chunk, whatever it is; it may hold fewer or more tickets than messages. */
    method Ask(size: nat) returns (reply: Reply)
      ensures reply.size == size
    {
      if * {
        var tickets: seq<PushTicket> := *;
        reply := Tickets(size, tickets);
      } else {
        var status: Option<nat>, text: nat := *, *;
        reply := HttpError(size, status, text);
      }
    }

    method BookChunk(targets: seq<Target>, offset: nat, reply: Reply, ghost answers: seq<Answer>, ghost open: map<RowId, nat>,
                     before: map<RowId, Outcome>, unknown: set<nat>)
      returns (outcomes: map<RowId, Outcome>, notRegistered: set<nat>)
      requires db.Valid() && Inv(db.st) && Holds(db.st, me, open) && TicketedAre(db.st, open, before)
      requires offset + reply.size == |answers| <= |targets| && TargetsIn(targets, open)
      requires forall i :: 0 <= i < reply.size ==> answers[offset + i] == AnswerAt(reply, i)
      requires Booked(before, open.Keys, targets, answers, offset) && Unregistered(unknown, targets, answers, offset)
      modifies db`st, db`log
      ensures db.Valid() && Inv(db.st) && Progress(me, old(db.log), db.log) && Sends(me, old(db.log), db.log) && RowsKeep(old(db.st), db.st)
      ensures Holds(db.st, me, open) && TicketedAre(db.st, open, outcomes)
      ensures Booked(outcomes, open.Keys, targets, answers, |answers|) && Unregistered(notRegistered, targets, answers, |answers|)
    {
      hide Inv, RowsKeep, Run, Holds, TicketedAre, Unregistered, Book, TargetsIn, Answers;
      outcomes, notRegistered := before, unknown;
      SeeKeepsRows(me, db.st, db.st);
      for i := 0 to reply.size
        invariant db.Valid() && Inv(db.st) && Progress(me, old(db.log), db.log) && Sends(me, old(db.log), db.log) && RowsKeep(old(db.st), db.st)
        invariant Holds(db.st, me, open) && TicketedAre(db.st, open, outcomes)
        invariant Booked(outcomes, open.Keys, targets, answers, offset + i)
        invariant Unregistered(notRegistered, targets, answers, offset + i)
      {
        var target, answer := targets[offset + i], AnswerAt(reply, i);
        TargetIn(targets, open, offset + i);
        TicketedMore(me, db.st, open, outcomes, target, answer);
        if answer.Told? && answer.ticket.Accepted? {
          ghost var s := db.st;
          db.Perform(Ticket(me, target.row));
          RowsKeepFurther(old(db.st), s, db.st);
        }
        outcomes, notRegistered := BookMessage(open.Keys, outcomes, notRegistered, targets, answers, offset + i, answer);
      }
    }

    /** The next chunk, of any size, with its answers booked. */
    method SendChunk(targets: seq<Target>, offset: nat, ghost replies: seq<Reply>, ghost open: map<RowId, nat>,
                     before: map<RowId, Outcome>, unknown: set<nat>)
      returns (ok: bool, size: nat, outcomes: map<RowId, Outcome>, notRegistered: set<nat>, ghost more: seq<Reply>)
      requires db.Valid() && Inv(db.st) && Holds(db.st, me, open) && TicketedAre(db.st, open, before)
      requires |Answers(replies)| == offset < |targets| && TargetsIn(targets, open)
      requires Booked(before, open.Keys, targets, Answers(replies), offset) && Unregistered(unknown, targets, Answers(replies), offset)
      modifies db
      ensures db.failures == old(db.failures) + if ok then 0 else 1
      ensures db.Valid() && Inv(db.st) && old(db.log) <= db.log && RowsKeep(old(db.st), db.st)
      ensures !ok ==> Holds(db.st, me, map[])
      ensures ok ==> Progress(me, old(db.log), db.log) && Sends(me, old(db.log), db.log)
      ensures ok ==> Holds(db.st, me, open) && TicketedAre(db.st, open, outcomes)
      ensures ok ==> 1 <= size <= |targets| - offset && |Answers(more)| == offset + size
      ensures ok ==> Booked(outcomes, open.Keys, targets, Answers(more), offset + size)
      ensures ok ==> Unregistered(notRegistered, targets, Answers(more), offset + size)
    {
      hide Inv, RowsKeep, LocalKeeps, Run, Holds, TicketedAre, Progress, Collects, Sends, TargetsIn, Booked, Unregistered, Answers, AnswerAt;
      outcomes, notRegistered, more, size := before, unknown, replies, 0;
      ok := Call();
      if !ok {
        return;
      }
      HoldsKept(me, old(db.st), db.st, open);
      TicketedKept(me, old(db.st), db.st, open, outcomes);
      ghost var s, log := db.st, db.log;
      size :| 1 <= size <= |targets| - offset;
      var reply := Ask(size);
      AnswersNext(replies, reply);
      more := replies + [reply];
      BookedKept(outcomes, open.Keys, notRegistered, targets, Answers(replies), Answers(more), offset);
      outcomes, notRegistered := BookChunk(targets, offset, reply, Answers(more), open, outcomes, notRegistered);
      ProgressFurther(me, old(db.log), log, db.log);
      RowsKeepFurther(old(db.st), s, db.st);
    }

    /**
     Sends all messages chunk by chunk. For any order-preserving split and any chunks failing, each ticket
     and each error ends up with the row and the device whose message it answers.
     */
    method Exchange(targets: seq<Target>, start: map<RowId, Outcome>, ghost open: map<RowId, nat>)
      returns (ok: bool, outcomes: map<RowId, Outcome>, notRegistered: set<nat>, ghost replies: seq<Reply>)
      requires db.Valid() && Inv(db.st) && Holds(db.st, me, open) && TicketedAre(db.st, open, start)
      requires TargetsIn(targets, open) && start == map r | r in open :: NOTHING
      modifies db
      ensures db.failures == old(db.failures) + if ok then 0 else 1
      ensures db.Valid() && Inv(db.st) && old(db.log) <= db.log && RowsKeep(old(db.st), db.st)
      ensures !ok ==> Holds(db.st, me, map[])
      ensures ok ==> Progress(me, old(db.log), db.log) && Holds(db.st, me, open) && TicketedAre(db.st, open, outcomes)
      ensures ok ==> Sends(me, old(db.log), db.log) && |Answers(replies)| == |targets|
      ensures ok ==> Booked(outcomes, open.Keys, targets, Answers(replies), |targets|)
      ensures ok ==> Unregistered(notRegistered, targets, Answers(replies), |targets|)
    {
      hide Inv, RowsKeep, LocalKeeps, Run, Holds, TicketedAre, Progress, Collects, Sends, TargetsIn;
      ok, outcomes, notRegistered, replies := true, start, {}, [];
      var offset := 0;
      SeeKeepsRows(me, db.st, db.st);
      NothingYet(me, db.st, db.log);
      hide Booked, Unregistered, Book, AnswerAt;
      NothingBooked(start, open, targets);
      assert Answers([]) == [];
      hide Answers;
      while offset < |targets|
        invariant ok && db.Valid() && Inv(db.st) && old(db.log) <= db.log && db.failures == old(db.failures)
        invariant Progress(me, old(db.log), db.log) && Sends(me, old(db.log), db.log) && RowsKeep(old(db.st), db.st)
        invariant Holds(db.st, me, open) && TicketedAre(db.st, open, outcomes)
        invariant |Answers(replies)| == offset <= |targets|
        invariant Booked(outcomes, open.Keys, targets, Answers(replies), offset)
        invariant Unregistered(notRegistered, targets, Answers(replies), offset)
      {
        ghost var s, log := db.st, db.log;
        var size;
        ok, size, outcomes, notRegistered, replies := SendChunk(targets, offset, replies, open, outcomes, notRegistered);
        RowsKeepFurther(old(db.st), s, db.st);
        if !ok {
          return;
        }
        ProgressFurther(me, old(db.log), log, db.log);
        offset := offset + size;
      }
    }

    /** One final write per row still in hand; the last call decides sent, waiting again, or failed. */
    method FinishRows(rows: seq<ClaimedRow>, outcomes: map<RowId, Outcome>, ghost held: map<RowId, nat>, ghost open: map<RowId, nat>)
      returns (ok: bool)
      requires db.Valid() && Inv(db.st) && Claimed(db.st, rows, held) && Holds(db.st, me, open) && TicketedAre(db.st, open, outcomes)
      requires outcomes.Keys == open.Keys && forall r :: r in open ==> r in held && open[r] == held[r]
      modifies db
      ensures db.failures == old(db.failures) + if ok then 0 else 1
      ensures db.Valid() && Inv(db.st) && old(db.log) <= db.log && RowsKeep(old(db.st), db.st)
      ensures Holds(db.st, me, map[])
      ensures ok ==> Sends(me, old(db.log), db.log)
      ensures ok ==> Progress(me, old(db.log), db.log) && Ended(db.log, |old(db.log)|, me, rows, outcomes, |rows|)
    {
      hide Inv, RowsKeep, LocalKeeps, Run, Holds, Claimed, TicketedAre, Progress, Collects, Sends, Ended, Left, Written, Ending;
      ghost var left := open;
      ok := true;
      EndStarts(me, db.st, db.log, rows, held, open, outcomes);
      for n := 0 to |rows|
        invariant ok && db.Valid() && Inv(db.st) && old(db.log) <= db.log && db.failures == old(db.failures)
        invariant Progress(me, old(db.log), db.log) && Sends(me, old(db.log), db.log) && RowsKeep(old(db.st), db.st)
        invariant Holds(db.st, me, left) && TicketedAre(db.st, left, outcomes) && Left(rows, held, outcomes, left, n)
        invariant Ended(db.log, |old(db.log)|, me, rows, outcomes, n)
      {
        var row := rows[n];
        ghost var before := db.log;
        LeftNext(db.st, me, rows, held, outcomes, left, n);
        if row.id in outcomes {
          ghost var s, log := db.st, db.log;
          ok := Call();
          RowsKeepFurther(old(db.st), s, db.st);
          if !ok {
            return;
          }
          ProgressFurther(me, old(db.log), log, db.log);
          HoldsKept(me, s, db.st, left);
          TicketedKept(me, s, db.st, left, outcomes);
          s, log := db.st, db.log;
          var status := Ending(outcomes[row.id], row.attempts);
          EndIsAllowed(me, s, left, outcomes, row);
          db.Perform(Finish(me, row.id, status));
          FinishProgress(me, |old(db.log)|, log, row.id, status);
          ProgressFurther(me, old(db.log), log, db.log);
          RowsKeepFurther(old(db.st), s, db.st);
          left := left - {row.id};
        }
        EndedMore(before, db.log, |old(db.log)|, me, rows, outcomes, n);
      }
      LeftEnds(rows, held, outcomes, left);
    }

    /** What comes before sending: rows left in SENDING for too long are failed, and the batch is claimed. */
    method SweepAndClaim() returns (ok: bool, rows: seq<ClaimedRow>, ghost held: map<RowId, nat>)
      requires db.Valid() && Holds(db.st, me, map[])
      modifies db
      ensures db.failures == old(db.failures) + if ok then 0 else 1
      ensures db.Valid() && Inv(db.st) && old(db.log) <= db.log
      ensures !ok ==> Holds(db.st, me, map[])
      ensures ok ==> Progress(me, old(db.log), db.log) && Holds(db.st, me, held) && Claimed(db.st, rows, held)
      ensures ok ==> TicketedAre(db.st, held, map[]) && ClaimsExactly(me, old(db.log), db.log, rows)
      ensures ok && Quiet(me, old(db.log), db.log) ==> AllClaimed(old(db.st), rows)
    {
      hide Inv, RowsKeep, LocalKeeps, Run, Holds, Claimed, TicketedAre, Progress, Collects, Sends, ClaimsExactly, Quiet, SameWaiting, AllClaimed;
      rows, held := [], map[];
      ok := Call();
      if !ok {
        return;
      }
      HoldsKept(me, old(db.st), db.st, map[]);
      ghost var start, l0 := db.st, db.log;
      FailStaleSending();
      SweepKeeps(me, start, db.st);
      ProgressFurther(me, old(db.log), l0, db.log);
      ghost var swept, l1 := db.st, db.log;
      ok, rows, held := ClaimBatch();
      if !ok {
        return;
      }
      ProgressFurther(me, old(db.log), l1, db.log);
      StaleKeepsWaiting(start, swept, rows);
      SameStatuses(old(db.st), start, rows);
      NothingYet(me, db.st, db.log);
      RoundClaimsBatch(me, old(db.log), l1, db.log, db.log, rows);
      QuietSplits(me, old(db.log), l0, db.log);
      QuietSplits(me, l0, l1, db.log);
    }

    /**
     One round. If it completes, `rows` are exactly the rows it claimed, each once, and each has been written exactly
     once, with the status its own answers call for; undisturbed it claimed a full batch or all that waited. If it
     breaks off, nothing stays in the dispatcher's hands.
     */
    method Dispatch(devices: seq<Versions.Device>)
      returns (ok: bool, rows: seq<ClaimedRow>, notRegistered: set<nat>, ghost messages: seq<Target>, ghost replies: seq<Reply>)
      requires db.Valid() && Holds(db.st, me, map[])
      modifies db
      ensures db.failures == old(db.failures) + if ok then 0 else 1
      ensures db.Valid() && Inv(db.st) && old(db.log) <= db.log && Holds(db.st, me, map[])
      ensures ok ==> Progress(me, old(db.log), db.log) && |Answers(replies)| == |FanOut(rows, devices)|
      ensures ok ==> forall i :: 0 <= i < |rows| ==>
                Written(db.log, |old(db.log)|, me, rows[i].id, Verdict(rows[i], rows, devices, Answers(replies)))
      ensures ok ==> messages == FanOut(rows, devices) && SentExactly(messages, rows, devices) && AsStored(db.st, rows)
      ensures ok ==> AllWrittenRight(db.log, |old(db.log)|, me, rows, devices, messages, Answers(replies))
      ensures ok ==> Unregistered(notRegistered, messages, Answers(replies), |messages|)
      ensures ok ==> ClaimsExactly(me, old(db.log), db.log, rows)
      ensures ok && Quiet(me, old(db.log), db.log) ==> AllClaimed(old(db.st), rows)
      ensures ok ==> forall r :: ClaimsBy(db.log, me, r) - ClaimsBy(old(db.log), me, r) ==
                                 FinishesBy(db.log, me, r) - FinishesBy(old(db.log), me, r)
    {
      hide Inv, RowsKeep, LocalKeeps, Run, Holds, Claimed, TicketedAre, Progress, Reached, Skipped, Ended, TargetsIn, FanOut, Booked;
      hide SentExactly, OthersSkipped, AsStored, AllWrittenRight;
      hide Unregistered, Written, Verdict, ClaimsBy, FinishesBy, Answers, Collects, Sends, ClaimsExactly, Quiet, SameWaiting, AllClaimed;
      rows, notRegistered, messages, replies := [], {}, [], [];
      ghost var held, open;
      ok, rows, held := SweepAndClaim();
      if !ok {
        return;
      }
      ghost var l2 := db.log;
      var targets, outcomes;
      ghost var s := db.st;
      ok, targets, outcomes, open := Plan(rows, devices, held);
      ClaimedKept(s, db.st, rows, held);
      if !ok {
        return;
      }
      ProgressFurther(me, old(db.log), l2, db.log);
      messages := targets;
      ghost var l3 := db.log;
      s := db.st;
      ok, outcomes, notRegistered, replies := Exchange(targets, outcomes, open);
      ClaimedKept(s, db.st, rows, held);
      if !ok {
        return;
      }
      ProgressFurther(me, old(db.log), l3, db.log);
      ProgressFurther(me, l2, l3, db.log);
      if notRegistered != {} {
        ghost var before, at := db.log, db.st;
        ok := Call();
        if !ok {
          return;
        }
        ProgressFurther(me, old(db.log), before, db.log);
        ProgressFurther(me, l2, before, db.log);
        HoldsKept(me, at, db.st, open);
        TicketedKept(me, at, db.st, open, outcomes);
        ClaimedKept(at, db.st, rows, held);
      }
      ghost var l4, s4 := db.log, db.st;
      OutcomesAreOpen(rows, devices, held, open, outcomes, targets, Answers(replies));
      ok := FinishRows(rows, outcomes, held, open);
      if ok {
        ProgressFurther(me, old(db.log), l4, db.log);
        ProgressFurther(me, l2, l4, db.log);
        RoundClaimsBatch(me, old(db.log), old(db.log), l2, db.log, rows);
        QuietSplits(me, old(db.log), l2, db.log);
        AllWritten(old(db.log), l2, l3, l4, db.log, me, rows, devices, held, open, outcomes, Answers(replies));
        VerdictsEndAs(db.log, |old(db.log)|, me, rows, devices, Answers(replies));
        ClaimedKept(s4, db.st, rows, held);
        RowsAreDistinct(db.st, rows, held);
        RoundBalances(me, old(db.log), db.log);
      }
    }
  }

  // ----- What the plan keeps -----

  /** After the first `n` rows, what is still in hand is every row but those that reach no device. */
  ghost predicate Reached(rows: seq<ClaimedRow>, devices: seq<Versions.Device>, held: map<RowId, nat>, open: map<RowId, nat>, n: nat)
    requires n <= |rows|
  {
    && (forall r :: r in open ==> r in held && open[r] == held[r])
    && (forall i :: 0 <= i < |rows| ==> (rows[i].id in open <==> i >= n || Own(rows[i], devices) != []))
  }

  ghost predicate TargetsIn<T>(targets: seq<Target>, rows: map<RowId, T>) {
    forall t :: t in targets ==> t.row in rows
  }

  ghost predicate Planned(rows: seq<ClaimedRow>, open: map<RowId, nat>, outcomes: map<RowId, Outcome>, n: nat)
    requires n <= |rows|
  {
    && (forall i :: 0 <= i < n && rows[i].id in open ==> rows[i].id in outcomes)
    && (forall i :: n <= i < |rows| ==> rows[i].id !in outcomes)
    && (forall r :: r in outcomes ==> r in open && outcomes[r] == NOTHING)
  }

  ghost predicate Skipped(log: seq<Event>, from: nat, me: Instance, rows: seq<ClaimedRow>, devices: seq<Versions.Device>, n: nat)
    requires n <= |rows|
  {
    forall i :: 0 <= i < n && Own(rows[i], devices) == [] ==> Written(log, from, me, rows[i].id, SKIPPED)
  }

  /** A row that is for some device is still in hand; any other was skipped. */
  ghost predicate OthersSkipped(log: seq<Event>, from: nat, me: Instance, rows: seq<ClaimedRow>, devices: seq<Versions.Device>,
                                open: map<RowId, nat>) {
    forall i :: 0 <= i < |rows| ==>
      if exists d :: d in devices && IsFor(rows[i], d) then rows[i].id in open
      else rows[i].id !in open && Written(log, from, me, rows[i].id, SKIPPED)
  }

  lemma SkipsTheOthers(log: seq<Event>, from: nat, me: Instance, rows: seq<ClaimedRow>, devices: seq<Versions.Device>,
                       held: map<RowId, nat>, open: map<RowId, nat>)
    requires Reached(rows, devices, held, open, |rows|) && Skipped(log, from, me, rows, devices, |rows|)
    ensures OthersSkipped(log, from, me, rows, devices, open)
  {
    hide Own, IsFor;
    forall i | 0 <= i < |rows| ensures Own(rows[i], devices) == [] <==> forall d :: d in devices ==> !IsFor(rows[i], d) {
      NothingForOthers(rows[i], devices);
    }
  }

  lemma RowsAreDistinct(s: State, rows: seq<ClaimedRow>, held: map<RowId, nat>)
    requires Claimed(s, rows, held)
    ensures forall i, j :: 0 <= i < j < |rows| ==> rows[i].id != rows[j].id
    ensures AsStored(s, rows)
  {
  }

  lemma PlanStarts(me: Instance, s: State, log: seq<Event>, rows: seq<ClaimedRow>, devices: seq<Versions.Device>, held: map<RowId, nat>)
    requires Claimed(s, rows, held)
    ensures RowsKeep(s, s) && Progress(me, log, log) && Sends(me, log, log) && Reached(rows, devices, held, held, 0)
    ensures Planned(rows, held, map[], 0) && Skipped(log, |log|, me, rows, devices, 0)
    ensures TargetsIn<Outcome>([], map[]) && FanOut(rows[..0], devices) == []
  {
  }

  lemma PlanNext(s: State, rows: seq<ClaimedRow>, devices: seq<Versions.Device>, held: map<RowId, nat>,
                 open: map<RowId, nat>, outcomes: map<RowId, Outcome>, n: nat)
    requires n < |rows| && Claimed(s, rows, held) && Reached(rows, devices, held, open, n) && Planned(rows, open, outcomes, n)
    ensures rows[n].id in open
    ensures Own(rows[n], devices) == [] ==> Reached(rows, devices, held, open - {rows[n].id}, n + 1)
    ensures Own(rows[n], devices) == [] ==> Planned(rows, open - {rows[n].id}, outcomes, n + 1)
    ensures Own(rows[n], devices) != [] ==> Reached(rows, devices, held, open, n + 1)
    ensures Own(rows[n], devices) != [] ==> Planned(rows, open, outcomes[rows[n].id := NOTHING], n + 1)
  {
    hide Own;
  }

  lemma FanOutNext(rows: seq<ClaimedRow>, devices: seq<Versions.Device>, n: nat)
    requires n < |rows|
    ensures FanOut(rows[..n + 1], devices) == FanOut(rows[..n], devices) + Messages(rows[n], Own(rows[n], devices))
    ensures Own(rows[n], devices) == [] ==> FanOut(rows[..n + 1], devices) == FanOut(rows[..n], devices)
  {
    assert rows[..n + 1][..n] == rows[..n];
  }

  lemma TargetsMore(targets: seq<Target>, row: ClaimedRow, own: seq<nat>, outcomes: map<RowId, Outcome>)
    requires TargetsIn(targets, outcomes)
    ensures TargetsIn(targets + Messages(row, own), outcomes[row.id := NOTHING])
  {
  }

  lemma PlanEnds(s: State, rows: seq<ClaimedRow>, devices: seq<Versions.Device>, held: map<RowId, nat>,
                 open: map<RowId, nat>, outcomes: map<RowId, Outcome>, targets: seq<Target>)
    requires Claimed(s, rows, held) && Reached(rows, devices, held, open, |rows|) && Planned(rows, open, outcomes, |rows|)
    requires TargetsIn(targets, outcomes) && TicketedAre(s, open, map[])
    ensures outcomes == (map r | r in open :: NOTHING) && TargetsIn(targets, open) && TicketedAre(s, open, outcomes)
  {
  }

  lemma SkipIsAllowed(me: Instance, s: State, open: map<RowId, nat>, r: RowId)
    requires Inv(s) && Holds(s, me, open) && TicketedAre(s, open, map[]) && r in open
    ensures Enabled(s, Finish(me, r, SKIPPED))
    ensures Holds(Apply(s, Finish(me, r, SKIPPED)), me, open - {r})
    ensures TicketedAre(Apply(s, Finish(me, r, SKIPPED)), open - {r}, map[])
  {
  }

  lemma FinishProgress(me: Instance, from: nat, log: seq<Event>, r: RowId, status: Status)
    requires from <= |log|
    ensures Progress(me, log, log + [Finish(me, r, status)]) && Sends(me, log, log + [Finish(me, r, status)])
    ensures Written(log + [Finish(me, r, status)], from, me, r, status)
  {
    assert (log + [Finish(me, r, status)])[|log|] == Finish(me, r, status);
  }

  lemma WrittenKept(log: seq<Event>, more: seq<Event>, from: nat, me: Instance, r: RowId, status: Status)
    requires log <= more && Written(log, from, me, r, status)
    ensures Written(more, from, me, r, status)
  {
  }

  lemma SkippedMore(log: seq<Event>, more: seq<Event>, from: nat, me: Instance, rows: seq<ClaimedRow>, devices: seq<Versions.Device>, n: nat)
    requires n < |rows| && log <= more && Skipped(log, from, me, rows, devices, n)
    requires Own(rows[n], devices) == [] ==> Written(more, from, me, rows[n].id, SKIPPED)
    ensures Skipped(more, from, me, rows, devices, n + 1)
  {
  }

  lemma TicketedMore(me: Instance, s: State, open: map<RowId, nat>, outcomes: map<RowId, Outcome>, target: Target, answer: Answer)
    requires Holds(s, me, open) && TicketedAre(s, open, outcomes) && outcomes.Keys == open.Keys && target.row in open
    ensures var o := outcomes[target.row := BookOne(outcomes[target.row], target.device, answer)];
            if answer.Told? && answer.ticket.Accepted?
            then && Enabled(s, Ticket(me, target.row)) && Holds(Apply(s, Ticket(me, target.row)), me, open)
                 && TicketedAre(Apply(s, Ticket(me, target.row)), open, o)
            else TicketedAre(s, open, o)
  {
  }

  lemma TargetIn(targets: seq<Target>, open: map<RowId, nat>, k: nat)
    requires k < |targets| && TargetsIn(targets, open)
    ensures targets[k].row in open
  {
  }

  lemma NothingBooked(start: map<RowId, Outcome>, open: map<RowId, nat>, targets: seq<Target>)
    requires start == map r | r in open :: NOTHING
    ensures Booked(start, open.Keys, targets, [], 0) && Unregistered({}, targets, [], 0)
  {
  }

  lemma AnswersNext(replies: seq<Reply>, reply: Reply)
    ensures Answers(replies) <= Answers(replies + [reply]) && |Answers(replies + [reply])| == |Answers(replies)| + reply.size
    ensures forall i :: 0 <= i < reply.size ==> Answers(replies + [reply])[|Answers(replies)| + i] == AnswerAt(reply, i)
  {
    assert (replies + [reply])[..|replies|] == replies;
  }

  // ----- What the final writes keep -----

  ghost predicate Left(rows: seq<ClaimedRow>, held: map<RowId, nat>, outcomes: map<RowId, Outcome>, left: map<RowId, nat>, n: nat)
    requires n <= |rows|
  {
    && (forall r :: r in left ==> r in held && left[r] == held[r] && r in outcomes)
    && (forall r :: r in held ==> exists i :: 0 <= i < |rows| && rows[i].id == r)
    && (forall i, j :: 0 <= i < j < |rows| ==> rows[i].id != rows[j].id)
    && (forall i :: 0 <= i < |rows| ==> rows[i].id in held && held[rows[i].id] == rows[i].attempts)
    && (forall i :: 0 <= i < |rows| ==> (rows[i].id in left <==> i >= n && rows[i].id in outcomes))
  }

  ghost predicate Ended(log: seq<Event>, from: nat, me: Instance, rows: seq<ClaimedRow>, outcomes: map<RowId, Outcome>, n: nat)
    requires n <= |rows|
  {
    forall i :: 0 <= i < n && rows[i].id in outcomes ==>
      Written(log, from, me, rows[i].id, Ending(outcomes[rows[i].id], rows[i].attempts))
  }

  lemma EndStarts(me: Instance, s: State, log: seq<Event>, rows: seq<ClaimedRow>, held: map<RowId, nat>,
                  open: map<RowId, nat>, outcomes: map<RowId, Outcome>)
    requires Claimed(s, rows, held) && outcomes.Keys == open.Keys && forall r :: r in open ==> r in held && open[r] == held[r]
    ensures RowsKeep(s, s) && Progress(me, log, log) && Sends(me, log, log) && Left(rows, held, outcomes, open, 0)
    ensures Ended(log, |log|, me, rows, outcomes, 0)
  {
  }

  lemma LeftNext(s: State, me: Instance, rows: seq<ClaimedRow>, held: map<RowId, nat>, outcomes: map<RowId, Outcome>,
                 left: map<RowId, nat>, n: nat)
    requires n < |rows| && Left(rows, held, outcomes, left, n)
    ensures rows[n].id in outcomes ==> rows[n].id in left && left[rows[n].id] == rows[n].attempts
    ensures Left(rows, held, outcomes, if rows[n].id in outcomes then left - {rows[n].id} else left, n + 1)
  {
  }

  lemma LeftEnds(rows: seq<ClaimedRow>, held: map<RowId, nat>, outcomes: map<RowId, Outcome>, left: map<RowId, nat>)
    requires Left(rows, held, outcomes, left, |rows|)
    ensures left == map[]
  {
  }

  lemma EndIsAllowed(me: Instance, s: State, left: map<RowId, nat>, outcomes: map<RowId, Outcome>, row: ClaimedRow)
    requires Inv(s) && Holds(s, me, left) && TicketedAre(s, left, outcomes)
    requires row.id in left && left[row.id] == row.attempts && row.id in outcomes
    ensures var e := Finish(me, row.id, Ending(outcomes[row.id], row.attempts));
            Enabled(s, e) && Holds(Apply(s, e), me, left - {row.id}) && TicketedAre(Apply(s, e), left - {row.id}, outcomes)
  {
  }

  lemma EndedMore(log: seq<Event>, more: seq<Event>, from: nat, me: Instance, rows: seq<ClaimedRow>, outcomes: map<RowId, Outcome>, n: nat)
    requires n < |rows| && log <= more && Ended(log, from, me, rows, outcomes, n)
    requires rows[n].id in outcomes ==> Written(more, from, me, rows[n].id, Ending(outcomes[rows[n].id], rows[n].attempts))
    ensures Ended(more, from, me, rows, outcomes, n + 1)
  {
  }

  lemma SweepKeeps(me: Instance, s: State, t: State)
    requires t == s.(rows := t.rows) && t.rows.Keys == s.rows.Keys && Holds(s, me, map[])
    ensures Holds(t, me, map[])
  {
  }

  lemma OutcomesAreOpen(rows: seq<ClaimedRow>, devices: seq<Versions.Device>, held: map<RowId, nat>, open: map<RowId, nat>,
                        outcomes: map<RowId, Outcome>, targets: seq<Target>, answers: seq<Answer>)
    requires Reached(rows, devices, held, open, |rows|) && |targets| == |answers|
    requires Booked(outcomes, open.Keys, targets, answers, |targets|)
    ensures outcomes.Keys == open.Keys && forall r :: r in open ==> r in held && open[r] == held[r]
  {
  }

  /** A row that reaches no device was skipped by the plan; any other got the status its answers call for. */
  lemma AllWritten(start: seq<Event>, planFrom: seq<Event>, planned: seq<Event>, sent: seq<Event>, log: seq<Event>, me: Instance,
                   rows: seq<ClaimedRow>, devices: seq<Versions.Device>, held: map<RowId, nat>, open: map<RowId, nat>,
                   outcomes: map<RowId, Outcome>, answers: seq<Answer>)
    requires start <= planFrom <= planned <= sent <= log && |answers| == |FanOut(rows, devices)|
    requires Reached(rows, devices, held, open, |rows|) && Booked(outcomes, open.Keys, FanOut(rows, devices), answers, |answers|)
    requires Skipped(planned, |planFrom|, me, rows, devices, |rows|) && Ended(log, |sent|, me, rows, outcomes, |rows|)
    ensures forall i :: 0 <= i < |rows| ==> Written(log, |start|, me, rows[i].id, Verdict(rows[i], rows, devices, answers))
  {
    hide FanOut, Own, Ending;
    assert FanOut(rows, devices)[..|answers|] == FanOut(rows, devices) && answers[..|answers|] == answers;
    forall i | 0 <= i < |rows| ensures Written(log, |start|, me, rows[i].id, Verdict(rows[i], rows, devices, answers)) {
      if Own(rows[i], devices) == [] {
        WrittenKept(planned, log, |planFrom|, me, rows[i].id, SKIPPED);
      } else {
        assert rows[i].id in outcomes;
      }
    }
  }

  lemma RoundBalances(me: Instance, log: seq<Event>, more: seq<Event>)
    requires Progress(me, log, more) && Legal(log) && Legal(more)
    requires Holds(Play(log), me, map[]) && Holds(Play(more), me, map[])
    ensures forall r :: ClaimsBy(more, me, r) - ClaimsBy(log, me, r) == FinishesBy(more, me, r) - FinishesBy(log, me, r)
  {
    forall r ensures ClaimsBy(more, me, r) - ClaimsBy(log, me, r) == FinishesBy(more, me, r) - FinishesBy(log, me, r) {
      OneFinalWritePerClaim(log, more, me, r);
    }
  }

  // ----- What an undisturbed batch claims -----

  ghost predicate Wait(s: State, rows: seq<RowId>) {
    forall r :: r in rows ==> r in s.rows && s.rows[r].status == PENDING
  }

  ghost predicate Are(rows: seq<ClaimedRow>, ids: seq<RowId>) {
    |rows| == |ids| && forall k :: 0 <= k < |ids| ==> rows[k].id == ids[k]
  }

  /** A full batch, or every row that waits. */
  ghost predicate AllClaimed(s: State, rows: seq<ClaimedRow>) {
    |rows| == BATCH_SIZE
    || forall r :: r in s.rows && s.rows[r].status == PENDING ==> exists k :: 0 <= k < |rows| && rows[k].id == r
  }

  lemma NoneAre(ids: seq<RowId>)
    ensures Are([], ids[..0])
  {
  }

  lemma CandidatesWait(s: State, ids: seq<RowId>)
    requires forall r :: r in ids ==> r in s.rows && s.rows[r].status == PENDING
    ensures Wait(s, ids)
  {
  }

  lemma WaitRest(s: State, t: State, ids: seq<RowId>, n: nat, before: seq<ClaimedRow>, after: seq<ClaimedRow>)
    requires n < |ids| && ids[n] in s.rows && forall i, j :: 0 <= i < j < |ids| ==> ids[i] != ids[j]
    requires forall q :: q in s.rows && q != ids[n] ==> q in t.rows && t.rows[q] == s.rows[q]
    requires after == before || (|after| == |before| + 1 && after[|before|].id == ids[n] && after[..|before|] == before)
    requires s.rows[ids[n]].status == PENDING ==> after != before
    ensures Wait(s, ids[n..]) && Are(before, ids[..n]) ==> Wait(t, ids[n + 1..]) && Are(after, ids[..n + 1])
  {
    if Wait(s, ids[n..]) && Are(before, ids[..n]) {
      assert ids[n..][0] == ids[n];
      forall r | r in ids[n + 1..] ensures r != ids[n] && r in ids[n..] {
        var i :| n < i < |ids| && ids[i] == r;
        assert ids[n..][i - n] == r;
      }
      forall k | 0 <= k < n ensures after[k].id == ids[k] {
        assert after[k] == before[k] && ids[..n][k] == ids[k];
      }
    }
  }

  lemma AllAreClaimed(s: State, ids: seq<RowId>, rows: seq<ClaimedRow>)
    requires Are(rows, ids) && |ids| <= BATCH_SIZE
    requires |ids| < BATCH_SIZE ==> forall r :: r in s.rows && s.rows[r].status == PENDING ==> r in ids
    ensures AllClaimed(s, rows)
  {
    if |ids| < BATCH_SIZE {
      forall r | r in s.rows && s.rows[r].status == PENDING ensures exists k :: 0 <= k < |rows| && rows[k].id == r {
        var k :| 0 <= k < |ids| && ids[k] == r;
        assert rows[k].id == r;
      }
    }
  }

  lemma SameStatuses(s: State, t: State, rows: seq<ClaimedRow>)
    ensures SameWaiting(s, t) && AllClaimed(t, rows) ==> AllClaimed(s, rows)
  {
  }

  lemma ReadKeepsWaiting(s: State, t: State)
    requires t.rows == s.rows
    ensures SameWaiting(s, t)
  {
  }

  lemma StaleKeepsWaiting(s: State, t: State, rows: seq<ClaimedRow>)
    requires t.rows.Keys == s.rows.Keys
    requires forall r :: r in s.rows ==> t.rows[r] == s.rows[r] || (s.rows[r].status == SENDING && t.rows[r].status == FAILED)
    ensures AllClaimed(t, rows) ==> AllClaimed(s, rows)
  {
  }

  lemma WaitKept(s: State, t: State, rows: seq<RowId>)
    ensures SameWaiting(s, t) && Wait(s, rows) ==> Wait(t, rows)
  {
  }

  lemma SeeKeepsRows(me: Instance, s: State, t: State)
    requires t == s.(seen := t.seen)
    ensures RowsKeep(s, t) && (Holds(s, me, map[]) ==> Holds(t, me, map[]))
  {
  }

  lemma NothingYet(me: Instance, s: State, log: seq<Event>)
    ensures RowsKeep(s, s) && Claimed(s, [], map[]) && TicketedAre(s, map[], map[]) && Progress(me, log, log)
    ensures Collects(me, log, log) && Sends(me, log, log)
  {
  }

  lemma SeenFirst(me: Instance, s: State, rows: seq<RowId>, n: nat)
    requires n < |rows| && Seen(me, s, rows[n..])
    ensures rows[n] in s.rows && (me, rows[n]) in s.seen
  {
  }

  lemma ProgressFurther(me: Instance, a: seq<Event>, b: seq<Event>, c: seq<Event>)
    requires Progress(me, a, b) && Progress(me, b, c)
    ensures a <= b <= c && Progress(me, a, c)
    ensures Collects(me, a, b) && Collects(me, b, c) ==> Collects(me, a, c)
    ensures Sends(me, a, b) && Sends(me, b, c) ==> Sends(me, a, c)
  {
  }

  ghost predicate Seen(me: Instance, s: State, rows: seq<RowId>) {
    forall r :: r in rows ==> r in s.rows && (me, r) in s.seen
  }

  lemma SeenKept(me: Instance, s: State, t: State, rows: seq<RowId>)
    requires RowsKeep(s, t) && LocalKeeps(me, s, t) && Seen(me, s, rows)
    ensures Seen(me, t, rows)
  {
  }

  lemma SeenRest(me: Instance, s: State, t: State, rows: seq<RowId>, n: nat)
    requires n < |rows| && RowsKeep(s, t) && Seen(me, s, rows[n..])
    requires forall i, j :: 0 <= i < j < |rows| ==> rows[i] != rows[j]
    requires forall q :: q != rows[n] && (me, q) in s.seen ==> (me, q) in t.seen
    ensures Seen(me, t, rows[n + 1..])
  {
  }
}
