/**
 The push outbox shared by any number of dispatchers (src/jobs/push-dispatch.job.ts).

 A dispatcher reads candidates, claims each by a compare-and-set, sends, and writes the row's final
 status without looking at it again; it may die after any step. A row that stays in SENDING for too
 long is failed by whoever sweeps. `attempts` is the column, a `Hold` is the dispatcher's own copy.
 */
module PushOutbox {
  import opened Common
  import Versions

  type RowId = nat
  type Instance = nat

  datatype Status = PENDING | SENDING | SENT | FAILED | SKIPPED

  const MAX_ATTEMPTS := 3
  const STALE_SENDING_MS := 300_000

  /** `target` is the audience of a broadcast; an ordinary event goes to all devices of its user. */
  datatype Row = Row(user: nat, target: Option<Versions.Target>, createdAt: nat, status: Status, attempts: nat, updatedAt: nat)

  /** `seen` and `holds` are the dispatchers' memory; `ticketed` is history: rows that got an ok ticket. */
  datatype State = State(rows: map<RowId, Row>, now: nat, seen: map<(Instance, RowId), nat>,
                         holds: map<(Instance, RowId), nat>, ticketed: set<RowId>)

  datatype Event =
    | Insert(row: RowId, user: nat, target: Option<Versions.Target>, enabled: bool)
    | Tick(now: nat)
    | Sweep(row: RowId)
    | See(who: Instance, row: RowId)
    | Claim(who: Instance, row: RowId)
    | Ticket(who: Instance, row: RowId)
    | Finish(who: Instance, row: RowId, status: Status)
    | Crash(who: Instance)

  predicate Enabled(s: State, e: Event) {
    match e
    case Insert(r, _, _, _) => r !in s.rows
    case Tick(now) => s.now <= now
    case Sweep(r) => r in s.rows && s.rows[r].status == SENDING && s.rows[r].updatedAt + STALE_SENDING_MS < s.now
    case See(i, r) => r in s.rows && s.rows[r].status == PENDING
    case Claim(i, r) => r in s.rows && s.rows[r].status == PENDING && (i, r) in s.seen
    case Ticket(i, r) => (i, r) in s.holds
    case Finish(i, r, status) =>
      && (i, r) in s.holds && r in s.rows
      && (r in s.ticketed <==> status == SENT)
      && (status == PENDING ==> s.holds[(i, r)] < MAX_ATTEMPTS)
      && status != SENDING
    case Crash(_) => true
  }

  function Apply(s: State, e: Event): State
    requires Enabled(s, e)
  {
    match e
    case Insert(r, user, target, enabled) =>
      s.(rows := s.rows[r := Row(user, target, s.now, if enabled then PENDING else SKIPPED, 0, s.now)])
    case Tick(now) => s.(now := now)
    case Sweep(r) => s.(rows := s.rows[r := s.rows[r].(status := FAILED, updatedAt := s.now)])
    case See(i, r) => s.(seen := s.seen[(i, r) := s.rows[r].attempts])
    case Claim(i, r) =>
      s.(rows := s.rows[r := s.rows[r].(status := SENDING, attempts := s.rows[r].attempts + 1, updatedAt := s.now)],
         holds := s.holds[(i, r) := s.seen[(i, r)] + 1],
         seen := s.seen - {(i, r)})
    case Ticket(_, r) => s.(ticketed := s.ticketed + {r})
    case Finish(i, r, status) =>
      s.(rows := s.rows[r := s.rows[r].(status := status, updatedAt := s.now)], holds := s.holds - {(i, r)})
    case Crash(i) =>
      s.(seen := map p | p in s.seen && p.0 != i :: s.seen[p], holds := map p | p in s.holds && p.0 != i :: s.holds[p])
  }

  ghost predicate Inv(s: State) {
    && (forall p :: p in s.holds ==> p.1 in s.rows && s.rows[p.1].status in {SENDING, FAILED})
    && (forall p, q :: p in s.holds && q in s.holds && p.1 == q.1 ==> p == q)
    && (forall r :: r in s.ticketed ==> r in s.rows && s.rows[r].status in {SENDING, FAILED, SENT})
  }

  const Empty := State(map[], 0, map[], map[], {})

  lemma StepKeepsInv(s: State, e: Event)
    requires Inv(s) && Enabled(s, e)
    ensures Inv(Apply(s, e))
  {
  }

  /** The state after the steps of `log`, in order; none if some step was not allowed when it came. */
  function Run(log: seq<Event>): Option<State> {
    if log == [] then Some(Empty)
    else
      var before, e := Run(log[..|log| - 1]), log[|log| - 1];
      if before.Some? && Enabled(before.value, e) then Some(Apply(before.value, e)) else None
  }

  predicate Legal(log: seq<Event>) {
    Run(log).Some?
  }

  function Play(log: seq<Event>): State
    requires Legal(log)
  {
    Run(log).value
  }

  lemma {:induction false} EveryRunKeepsInv(log: seq<Event>)
    requires Legal(log)
    ensures Inv(Play(log))
  {
    if log != [] {
      EveryRunKeepsInv(log[..|log| - 1]);
      StepKeepsInv(Play(log[..|log| - 1]), log[|log| - 1]);
    }
  }

  lemma Extend(log: seq<Event>, e: Event)
    requires Legal(log) && Enabled(Play(log), e)
    ensures Legal(log + [e]) && Play(log + [e]) == Apply(Play(log), e)
  {
  }

  /**
   Exclusivity, for any number of dispatchers and crashes: a row waiting to be sent is held by nobody,
   and no row is held by two dispatchers.
   */
  lemma HeldByOneDispatcher(log: seq<Event>, i: Instance, j: Instance, r: RowId)
    requires Legal(log) && (i, r) in Play(log).holds
    ensures r in Play(log).rows && Play(log).rows[r].status != PENDING
    ensures (j, r) in Play(log).holds ==> j == i
  {
    EveryRunKeepsInv(log);
  }

  /** A row that got an ok ticket is never waiting again, at any later point: it is not sent a second time. */
  lemma {:induction false} TicketedIsNeverPending(log: seq<Event>, more: seq<Event>, r: RowId)
    requires log <= more && Legal(more)
    ensures Legal(log)
    ensures r in Play(log).ticketed ==> r in Play(more).ticketed && r in Play(more).rows && Play(more).rows[r].status != PENDING
    decreases |more|
  {
    EveryRunKeepsInv(more);
    if |log| < |more| {
      TicketedIsNeverPending(log, more[..|more| - 1], r);
    } else {
      assert log == more;
    }
  }

  // ----- How often a row is claimed -----

  /** Every dispatcher of the run is one of `who`. */
  ghost predicate OnlyThese(log: seq<Event>, who: set<Instance>) {
    forall k :: 0 <= k < |log| && IsDispatch(log[k]) ==> log[k].who in who
  }

  predicate IsDispatch(e: Event) {
    e.See? || e.Claim? || e.Ticket? || e.Finish?
  }

  /** The dispatchers whose copy of `attempts` is so low that they would put the row back after their claim. */
  function Low(s: State, who: set<Instance>, r: RowId): set<Instance> {
    set i | i in who && (i, r) in s.seen && s.seen[(i, r)] + 1 < MAX_ATTEMPTS
  }

  /** The row waits, or its holder may put it back. */
  ghost predicate CanReturn(s: State, r: RowId) {
    r in s.rows && (s.rows[r].status == PENDING || exists i :: (i, r) in s.holds && s.holds[(i, r)] < MAX_ATTEMPTS)
  }

  /** Near the limit every low copy left is good for one more claim, and no new one can be had. */
  ghost predicate Bounded(s: State, who: set<Instance>, r: RowId) {
    && (forall p :: p in s.seen || p in s.holds ==> p.0 in who)
    && (r in s.rows ==> s.rows[r].attempts < MAX_ATTEMPTS + |who|)
    && (CanReturn(s, r) ==> s.rows[r].attempts + 1 < MAX_ATTEMPTS || s.rows[r].attempts + |Low(s, who, r)| + 2 <= MAX_ATTEMPTS + |who|)
  }

  lemma Fewer(a: set<Instance>, b: set<Instance>)
    requires a <= b
    ensures |a| <= |b|
  {
    if a != b {
      var i :| i in b && i !in a;
      Fewer(a, b - {i});
    }
  }

  lemma LowAfterClaim(s: State, who: set<Instance>, i: Instance, r: RowId)
    requires Enabled(s, Claim(i, r)) && i in who
    ensures var low, after := Low(s, who, r), Low(Apply(s, Claim(i, r)), who, r);
            && |after| == |low| - (if s.seen[(i, r)] + 1 < MAX_ATTEMPTS then 1 else 0)
            && |after| < |who|
  {
    var low, after := Low(s, who, r), Low(Apply(s, Claim(i, r)), who, r);
    assert after == low - {i};
    Fewer(after, who - {i});
  }

  lemma LowShrinks(s: State, e: Event, who: set<Instance>, r: RowId)
    requires Enabled(s, e) && !e.Claim?
    requires e.See? && e.row == r ==> s.rows[r].attempts + 1 >= MAX_ATTEMPTS
    ensures |Low(Apply(s, e), who, r)| <= |Low(s, who, r)|
  {
    Fewer(Low(Apply(s, e), who, r), Low(s, who, r));
  }

  lemma OtherRow(s: State, i: Instance, q: RowId, who: set<Instance>, r: RowId)
    requires Enabled(s, Claim(i, q)) && q != r
    ensures Low(Apply(s, Claim(i, q)), who, r) == Low(s, who, r)
    ensures CanReturn(Apply(s, Claim(i, q)), r) ==> CanReturn(s, r)
  {
  }

  lemma ReturnsBefore(s: State, e: Event, r: RowId)
    requires Inv(s) && Enabled(s, e) && !e.Claim? && r in s.rows && CanReturn(Apply(s, e), r)
    ensures CanReturn(s, r) && Apply(s, e).rows[r].attempts == s.rows[r].attempts
  {
    if e.Finish? && e.row == r {
      assert (e.who, r) in s.holds;
    } else if Apply(s, e).rows[r].status != PENDING {
      var i :| (i, r) in Apply(s, e).holds && Apply(s, e).holds[(i, r)] < MAX_ATTEMPTS;
      assert (i, r) in s.holds;
    }
  }

  lemma StepStaysBounded(s: State, e: Event, who: set<Instance>, r: RowId)
    requires Inv(s) && Enabled(s, e) && Bounded(s, who, r) && (IsDispatch(e) ==> e.who in who)
    ensures Bounded(Apply(s, e), who, r)
  {
    var t := Apply(s, e);
    if e.Claim? {
      ClaimStaysBounded(s, e.who, e.row, who, r);
    } else {
      hide Low;
      if r in s.rows && CanReturn(t, r) {
        ReturnsBefore(s, e, r);
        if s.rows[r].attempts + 1 >= MAX_ATTEMPTS {
          LowShrinks(s, e, who, r);
        }
      }
    }
  }

  lemma ClaimStaysBounded(s: State, i: Instance, q: RowId, who: set<Instance>, r: RowId)
    requires Inv(s) && Enabled(s, Claim(i, q)) && Bounded(s, who, r) && i in who
    ensures Bounded(Apply(s, Claim(i, q)), who, r)
  {
    var t := Apply(s, Claim(i, q));
    hide Low;
    if q == r {
      LowAfterClaim(s, who, i, r);
      assert CanReturn(s, r);
      if CanReturn(t, r) {
        var j :| (j, r) in t.holds && t.holds[(j, r)] < MAX_ATTEMPTS;
        assert j == i;
      }
    } else {
      OtherRow(s, i, q, who, r);
    }
  }

  lemma {:induction false} StaysBounded(log: seq<Event>, who: set<Instance>, r: RowId)
    requires Legal(log) && OnlyThese(log, who)
    ensures Bounded(Play(log), who, r)
  {
    if log != [] {
      var before, e := log[..|log| - 1], log[|log| - 1];
      StaysBounded(before, who, r);
      EveryRunKeepsInv(before);
      StepStaysBounded(Play(before), e, who, r);
    }
  }

  function Claims(log: seq<Event>, r: RowId): nat {
    if log == [] then 0
    else
      var e := log[|log| - 1];
      Claims(log[..|log| - 1], r) + if e.Claim? && e.row == r then 1 else 0
  }

  lemma {:induction false} AttemptsCountClaims(log: seq<Event>, r: RowId)
    requires Legal(log)
    ensures Claims(log, r) == if r in Play(log).rows then Play(log).rows[r].attempts else 0
  {
    if log != [] {
      EveryRunKeepsInv(log[..|log| - 1]);
      AttemptsCountClaims(log[..|log| - 1], r);
    }
  }

  /**
   Whatever N dispatchers meet and however often they restart, a row is claimed at most MAX_ATTEMPTS + N - 1 times:
   the copy of `attempts` that decides a retry may be older than the claim, but each dispatcher has at most one.
   */
  lemma ClaimsAreBounded(log: seq<Event>, who: set<Instance>, r: RowId)
    requires Legal(log) && OnlyThese(log, who)
    ensures Claims(log, r) < MAX_ATTEMPTS + |who|
  {
    StaysBounded(log, who, r);
    AttemptsCountClaims(log, r);
  }

  /** With a single dispatcher the column is the bound it is meant to be. */
  lemma OneDispatcherRetriesAreBounded(log: seq<Event>, i: Instance, r: RowId)
    requires Legal(log) && OnlyThese(log, {i})
    ensures Claims(log, r) <= MAX_ATTEMPTS
  {
    ClaimsAreBounded(log, {i}, r);
  }

  // ----- The bound is reached -----

  /** A single row, waiting after `attempts` claims, held by nobody. */
  ghost predicate Waits(s: State, attempts: nat) {
    && s.rows == map[0 := Row(0, None, 0, PENDING, attempts, 0)] && s.now == 0 && s.holds == map[] && s.ticketed == {}
  }

  lemma Step(log: seq<Event>, e: Event, n: nat) returns (more: seq<Event>)
    requires Legal(log) && Enabled(Play(log), e) && OnlyThese(log, Upto(n)) && (IsDispatch(e) ==> e.who < n)
    ensures more == log + [e] && Legal(more) && Play(more) == Apply(Play(log), e) && OnlyThese(more, Upto(n))
  {
    more := log + [e];
    Extend(log, e);
  }

  /** The first n dispatchers. */
  function Upto(n: nat): (who: set<Instance>)
    ensures |who| == n && forall i: nat :: i in who <==> i < n
  {
    if n == 0 then {} else Upto(n - 1) + {n - 1}
  }

  /** `i` claims with the low copy it has, fails, and puts the row back. */
  lemma ClaimAndReturn(log: seq<Event>, i: Instance, attempts: nat, n: nat) returns (more: seq<Event>)
    requires Legal(log) && OnlyThese(log, Upto(n)) && i < n && Waits(Play(log), attempts)
    requires (i, 0) in Play(log).seen && Play(log).seen[(i, 0)] + 1 < MAX_ATTEMPTS
    ensures Legal(more) && OnlyThese(more, Upto(n)) && Waits(Play(more), attempts + 1)
    ensures Play(more).seen == Play(log).seen - {(i, 0)}
  {
    hide Run, OnlyThese, Legal, Play;
    more := Step(log, Claim(i, 0), n);
    more := Step(more, Finish(i, 0, PENDING), n);
  }

  lemma EverybodyReads(n: nat) returns (log: seq<Event>)
    ensures Legal(log) && OnlyThese(log, Upto(n)) && Waits(Play(log), 0)
    ensures forall i :: 0 <= i < n ==> (i, 0) in Play(log).seen && Play(log).seen[(i, 0)] == 0
  {
    assert Legal([]) && Play([]) == Empty;
    hide Run, OnlyThese, Legal, Play;
    assert OnlyThese([], Upto(n)) by {
      NobodyYet(n);
    }
    log := Step([], Insert(0, 0, None, true), n);
    for k := 0 to n
      invariant Legal(log) && OnlyThese(log, Upto(n)) && Waits(Play(log), 0)
      invariant forall i :: 0 <= i < k ==> (i, 0) in Play(log).seen && Play(log).seen[(i, 0)] == 0
    {
      log := Step(log, See(k, 0), n);
    }
  }

  lemma NobodyYet(n: nat)
    ensures OnlyThese([], Upto(n))
  {
  }

  /**
   For every number of dispatchers there is a run that claims a row that often: all read it at first, each claims it
   once with that first copy, and one of them twice more.
   */
  lemma BoundIsReached(n: nat) returns (log: seq<Event>)
    requires n > 0
    ensures Legal(log) && OnlyThese(log, Upto(n)) && |Upto(n)| == n
    ensures Claims(log, 0) == MAX_ATTEMPTS + n - 1
  {
    hide Run, OnlyThese, Legal, Play, Claims;
    log := EverybodyReads(n);
    log := ClaimAndReturn(log, 0, 0, n);
    log := Step(log, See(0, 0), n);
    for k := 1 to n
      invariant Legal(log) && OnlyThese(log, Upto(n)) && Waits(Play(log), k)
      invariant (0, 0) in Play(log).seen && Play(log).seen[(0, 0)] == 1
      invariant forall i :: k <= i < n ==> (i, 0) in Play(log).seen && Play(log).seen[(i, 0)] == 0
    {
      log := ClaimAndReturn(log, k, k, n);
    }
    log := ClaimAndReturn(log, 0, n, n);
    log := Step(log, See(0, 0), n);
    log := Step(log, Claim(0, 0), n);
    AttemptsCountClaims(log, 0);
  }
}
