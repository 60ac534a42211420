/**
 Reading the vault balances with a bounded pool of workers (src/account-deletion/eligibility.service.ts).

 Between two awaits the workers run one at a time, in any order. `Event` lists those turns: a worker
 starts, a balance read answers, and a worker stores the answer and takes its next index.
 */
module VaultReads {
  /** What a balance read yields: whole units, nothing usable, or "not now". */
  datatype Reading = Balance(amount: real) | Unreadable | Transient

  datatype Worker = Fresh | Reading(index: nat) | Returned(index: nat, reading: Reading) | Done

  /** `answers` is history: what the vault service answered, for the vaults that were really read. */
  datatype Pool = Pool(n: nat, next: nat, throttled: bool, workers: seq<Worker>, results: map<nat, Reading>,
                       started: seq<nat>, answers: map<nat, Reading>)

  datatype Event = Start(worker: nat) | Respond(worker: nat, reading: Reading) | Store(worker: nat)

  function Min(a: nat, b: nat): nat {
    if a < b then a else b
  }

  function Open(n: nat, limit: nat): Pool {
    Pool(n, 0, false, seq(Min(limit, n), _ => Fresh), map[], [], map[])
  }

  predicate Enabled(p: Pool, e: Event) {
    && e.worker < |p.workers|
    && match e
       case Start(w) => p.workers[w].Fresh?
       case Respond(w, _) => p.workers[w].Reading?
       case Store(w) => p.workers[w].Returned?
  }

  /** The worker takes the next index; once a read was throttled the call answers without reading. */
  function Take(p: Pool, w: nat): Pool
    requires w < |p.workers|
  {
    var q := p.(next := p.next + 1);
    if p.next >= p.n then q.(workers := p.workers[w := Done])
    else if p.throttled then q.(workers := p.workers[w := Returned(p.next, Transient)])
    else q.(workers := p.workers[w := Reading(p.next)], started := p.started + [p.next])
  }

  function Apply(p: Pool, e: Event): Pool
    requires Enabled(p, e)
  {
    match e
    case Start(w) => Take(p, w)
    case Respond(w, r) =>
      var i := p.workers[w].index;
      p.(workers := p.workers[w := Returned(i, r)], throttled := p.throttled || r.Transient?, answers := p.answers[i := r])
    case Store(w) =>
      Take(p.(results := p.results[p.workers[w].index := p.workers[w].reading]), w)
  }

  predicate Holds(w: Worker, i: nat) {
    (w.Reading? || w.Returned?) && w.index == i
  }

  predicate Known(p: Pool, i: nat, r: Reading) {
    if i in p.answers then r == p.answers[i] else r == Transient && p.throttled
  }

  predicate Busy(w: Worker) {
    w.Reading? || w.Returned?
  }

  ghost predicate Held(p: Pool, i: nat) {
    exists a :: 0 <= a < |p.workers| && Holds(p.workers[a], i)
  }

  /** Each index below `next` is with exactly one worker or already answered, never both. */
  ghost predicate TakenOnce(p: Pool) {
    && (forall a, b :: 0 <= a < b < |p.workers| && Busy(p.workers[a]) && Busy(p.workers[b]) ==>
          p.workers[a].index != p.workers[b].index)
    && (forall a :: 0 <= a < |p.workers| && Busy(p.workers[a]) ==>
          p.workers[a].index < p.n && p.workers[a].index < p.next && p.workers[a].index !in p.results)
    && (forall i: nat :: i < p.next && i < p.n ==> i in p.results || Held(p, i))
    && (forall i :: i in p.results ==> i < p.next && i < p.n)
    && (forall a :: 0 <= a < |p.workers| && p.workers[a].Done? ==> p.n <= p.next)
  }

  /** Stored and pending readings are the service's answers, or stand for a read that was skipped. */
  ghost predicate Truthful(p: Pool) {
    && (forall i :: i in p.results ==> Known(p, i, p.results[i]))
    && (forall a :: 0 <= a < |p.workers| && p.workers[a].Returned? ==> Known(p, p.workers[a].index, p.workers[a].reading))
    && (forall a :: 0 <= a < |p.workers| && p.workers[a].Reading? ==> p.workers[a].index !in p.answers)
    && (forall i :: i in p.answers ==> i < p.next && i < p.n)
    && (p.throttled <==> exists i :: i in p.answers && p.answers[i].Transient?)
  }

  ghost predicate StartedOnce(p: Pool) {
    && (forall j :: 0 <= j < |p.started| ==> p.started[j] < p.next && p.started[j] < p.n)
    && (forall j, k :: 0 <= j < k < |p.started| ==> p.started[j] != p.started[k])
  }

  ghost predicate Inv(p: Pool) {
    TakenOnce(p) && Truthful(p) && StartedOnce(p)
  }

  lemma OpenIsGood(n: nat, limit: nat)
    ensures Inv(Open(n, limit))
  {
  }

  lemma TakeIsOnce(p: Pool, w: nat)
    requires w < |p.workers| && TakenOnce(p.(workers := p.workers[w := Fresh]))
    ensures TakenOnce(Take(p, w))
  {
    var f, q := p.(workers := p.workers[w := Fresh]), Take(p, w);
    assert forall a :: 0 <= a < |q.workers| && a != w ==> q.workers[a] == f.workers[a];
    forall i: nat | i < q.next && i < q.n ensures i in q.results || Held(q, i) {
      if i < p.next && i !in p.results {
        var a :| 0 <= a < |f.workers| && Holds(f.workers[a], i);
        assert Holds(q.workers[a], i);
      } else if i == p.next {
        assert Holds(q.workers[w], i);
      }
    }
  }

  lemma TakeKeepsInv(p: Pool, w: nat)
    requires w < |p.workers| && Inv(p.(workers := p.workers[w := Fresh]))
    ensures Inv(Take(p, w))
  {
    TakeIsOnce(p, w);
    TakeIsTruthful(p, w);
    TakeStartsOnce(p, w);
  }

  lemma TakeIsTruthful(p: Pool, w: nat)
    requires w < |p.workers| && Truthful(p.(workers := p.workers[w := Fresh]))
    ensures Truthful(Take(p, w))
  {
    var f, q := p.(workers := p.workers[w := Fresh]), Take(p, w);
    assert forall a :: 0 <= a < |q.workers| && a != w ==> q.workers[a] == f.workers[a];
  }

  lemma TakeStartsOnce(p: Pool, w: nat)
    requires w < |p.workers| && StartedOnce(p)
    ensures StartedOnce(Take(p, w))
  {
  }

  lemma RespondIsOnce(p: Pool, w: nat, r: Reading)
    requires TakenOnce(p) && Enabled(p, Respond(w, r))
    ensures TakenOnce(Apply(p, Respond(w, r)))
  {
    var q := Apply(p, Respond(w, r));
    assert forall a :: 0 <= a < |q.workers| && a != w ==> q.workers[a] == p.workers[a];
    forall i: nat | i < q.next && i < q.n ensures i in q.results || Held(q, i) {
      if i !in p.results {
        var a :| 0 <= a < |p.workers| && Holds(p.workers[a], i);
        assert Holds(q.workers[a], i);
      }
    }
  }

  lemma RespondKeepsInv(p: Pool, w: nat, r: Reading)
    requires Inv(p) && Enabled(p, Respond(w, r))
    ensures Inv(Apply(p, Respond(w, r)))
  {
    var q := Apply(p, Respond(w, r));
    RespondIsOnce(p, w, r);
    var mine := p.workers[w].index;
    assert mine !in p.answers && mine < p.next && mine < p.n && mine !in p.results;
    assert forall a :: 0 <= a < |p.workers| && a != w && Busy(p.workers[a]) ==> p.workers[a].index != mine;
    hide TakenOnce;
    assert forall a :: 0 <= a < |q.workers| && a != w ==> q.workers[a] == p.workers[a];
    if q.throttled {
      var i :| if r.Transient? then i == mine else i in p.answers && p.answers[i].Transient?;
      assert i in q.answers && q.answers[i].Transient?;
    }
  }

  lemma StoreKeepsInv(p: Pool, w: nat)
    requires Inv(p) && Enabled(p, Store(w))
    ensures Inv(Apply(p, Store(w)))
  {
    var q := p.(results := p.results[p.workers[w].index := p.workers[w].reading]);
    var f := q.(workers := q.workers[w := Fresh]);
    assert forall a :: 0 <= a < |f.workers| && a != w ==> f.workers[a] == p.workers[a];
    forall i: nat | i < f.next && i < f.n ensures i in f.results || Held(f, i) {
      if i !in f.results {
        var a :| 0 <= a < |p.workers| && Holds(p.workers[a], i);
        assert Holds(f.workers[a], i);
      }
    }
    TakeKeepsInv(q, w);
  }

  lemma StepKeepsInv(p: Pool, e: Event)
    requires Inv(p) && Enabled(p, e)
    ensures Inv(Apply(p, e))
  {
    hide Inv, Apply;
    match e
    case Start(w) =>
      StartIsTake(p, w);
    case Respond(w, r) =>
      RespondKeepsInv(p, w, r);
    case Store(w) =>
      StoreKeepsInv(p, w);
  }

  lemma StartIsTake(p: Pool, w: nat)
    requires Inv(p) && Enabled(p, Start(w))
    ensures Inv(Apply(p, Start(w)))
  {
    assert p.workers[w := Fresh] == p.workers;
    TakeKeepsInv(p, w);
  }

  // ----- Runs -----

  ghost predicate Legal(p: Pool, log: seq<Event>)
    decreases |log|
  {
    log != [] ==> Enabled(p, log[0]) && Legal(Apply(p, log[0]), log[1..])
  }

  function Play(p: Pool, log: seq<Event>): Pool
    requires Legal(p, log)
    decreases |log|
  {
    if log == [] then p else Play(Apply(p, log[0]), log[1..])
  }

  function Weight(w: Worker): nat {
    match w case Fresh => 3 case Reading(_) => 2 case Returned(_, _) => 1 case Done => 0
  }

  function WorkersWeight(workers: seq<Worker>): nat {
    if workers == [] then 0 else Weight(workers[0]) + WorkersWeight(workers[1..])
  }

  /** The turns that are still to come, at most. */
  function Remaining(p: Pool): nat {
    WorkersWeight(p.workers) + if p.next < p.n then 2 * (p.n - p.next) else 0
  }

  lemma {:induction false} WeightOfUpdate(workers: seq<Worker>, w: nat, worker: Worker)
    requires w < |workers|
    ensures WorkersWeight(workers[w := worker]) + Weight(workers[w]) == WorkersWeight(workers) + Weight(worker)
  {
    if w == 0 {
      assert workers[0 := worker][1..] == workers[1..];
    } else {
      assert workers[w := worker][1..] == workers[1..][w - 1 := worker];
      WeightOfUpdate(workers[1..], w - 1, worker);
    }
  }

  lemma StepProgresses(p: Pool, e: Event)
    requires Enabled(p, e)
    ensures Remaining(Apply(p, e)) < Remaining(p)
  {
    var q := Apply(p, e);
    WeightOfUpdate(p.workers, e.worker, q.workers[e.worker]);
    assert q.workers == p.workers[e.worker := q.workers[e.worker]];
  }

  lemma {:induction false} RunKeepsInv(p: Pool, log: seq<Event>)
    requires Inv(p) && Legal(p, log)
    ensures Inv(Play(p, log)) && |log| + Remaining(Play(p, log)) <= Remaining(p)
    ensures Play(p, log).n == p.n && |Play(p, log).workers| == |p.workers|
    decreases |log|
  {
    if log != [] {
      StepKeepsInv(p, log[0]);
      StepProgresses(p, log[0]);
      RunKeepsInv(Apply(p, log[0]), log[1..]);
    }
  }

  /** Once a throttled answer was seen, no later turn starts another balance read. */
  lemma {:induction false} ThrottledStartsNothing(p: Pool, log: seq<Event>)
    requires Legal(p, log) && p.throttled
    ensures Play(p, log).throttled && Play(p, log).started == p.started
    decreases |log|
  {
    if log != [] {
      ThrottledStartsNothing(Apply(p, log[0]), log[1..]);
    }
  }

  predicate Finished(p: Pool) {
    forall a :: 0 <= a < |p.workers| ==> p.workers[a].Done?
  }

  lemma {:induction false} FreshWeight(k: nat)
    ensures WorkersWeight(seq(k, _ => Fresh)) == 3 * k
  {
    if k > 0 {
      assert seq(k, _ => Fresh)[1..] == seq(k - 1, _ => Fresh);
      FreshWeight(k - 1);
    }
  }

  /**
   The pool, for every order of turns and every limit >= 1: a run has at most 2n + 3 min(limit, n)
   turns, it is never stuck before all workers are done, no index is requested twice, and when all
   are done every index has its reading - the service's own answer for it, whatever the order.
   */
  lemma PoolReadsEachVaultOnce(n: nat, limit: nat, log: seq<Event>)
    requires limit >= 1 && Legal(Open(n, limit), log)
    ensures var p := Play(Open(n, limit), log);
            && |log| <= 2 * n + 3 * |p.workers|
            && |p.workers| == (if limit <= n then limit else n)
            && StartedOnce(p)
            && (!Finished(p) ==> exists e :: Enabled(p, e))
            && (Finished(p) ==> forall i: nat :: i in p.results <==> i < n)
            && (Finished(p) ==> forall i: nat :: i < n ==> Known(p, i, p.results[i]))
            && (Finished(p) && !p.throttled ==> forall i: nat :: i < n ==> i in p.answers && p.results[i] == p.answers[i])
  {
    var start := Open(n, limit);
    OpenIsGood(n, limit);
    FreshWeight(Min(limit, n));
    RunKeepsInv(start, log);
    var p := Play(start, log);
    if !Finished(p) {
      var w :| 0 <= w < |p.workers| && !p.workers[w].Done?;
      var e := if p.workers[w].Fresh? then Start(w) else if p.workers[w].Reading? then Respond(w, Unreadable) else Store(w);
      assert Enabled(p, e);
    } else {
      if n > 0 {
        assert p.workers[0].Done?;
      }
      forall i: nat | i < n
        ensures i in p.results && Known(p, i, p.results[i])
        ensures !p.throttled ==> i in p.answers && p.results[i] == p.answers[i]
      {
      }
    }
  }

  // ----- The answer of the check -----

  datatype Verdict = TryAgain | Blockers(blockers: seq<VaultBlocker>, residuals: seq<(nat, real)>, lost: real)
  datatype VaultBlocker = BalanceUnknown(vault: nat) | VaultBalance(vault: nat, amount: real)

  ghost function BlockersOf(readings: seq<Reading>, dust: real): seq<VaultBlocker> {
    if readings == [] then []
    else
      var i, last := |readings| - 1, readings[|readings| - 1];
      BlockersOf(readings[..i], dust) +
      match last
      case Balance(amount) => if amount > dust then [VaultBalance(i, amount)] else []
      case _ => [BalanceUnknown(i)]
  }

  ghost function ResidualsOf(readings: seq<Reading>, dust: real): seq<(nat, real)> {
    if readings == [] then []
    else
      var i, last := |readings| - 1, readings[|readings| - 1];
      ResidualsOf(readings[..i], dust) +
      if last.Balance? && 0.0 < last.amount <= dust then [(i, last.amount)] else []
  }

  ghost function Sum(residuals: seq<(nat, real)>): real {
    if residuals == [] then 0.0 else Sum(residuals[..|residuals| - 1]) + residuals[|residuals| - 1].1
  }

  lemma JudgeNext(readings: seq<Reading>, i: nat, dust: real)
    requires i < |readings|
    ensures readings[i] in readings
    ensures BlockersOf(readings[..i + 1], dust) ==
            BlockersOf(readings[..i], dust) +
            if !readings[i].Balance? then [BalanceUnknown(i)]
            else if readings[i].amount > dust then [VaultBalance(i, readings[i].amount)] else []
    ensures ResidualsOf(readings[..i + 1], dust) ==
            ResidualsOf(readings[..i], dust) +
            if readings[i].Balance? && 0.0 < readings[i].amount <= dust then [(i, readings[i].amount)] else []
  {
    assert readings[..i + 1][..i] == readings[..i];
  }

  lemma SumNext(residuals: seq<(nat, real)>, last: (nat, real))
    ensures Sum(residuals + [last]) == Sum(residuals) + last.1
  {
    assert (residuals + [last])[..|residuals|] == residuals;
  }

  /** A throttled reading ends the check in "try again", never in blockers; otherwise each vault is judged in order. */
  method JudgeReadings(readings: seq<Reading>, dust: real) returns (verdict: Verdict)
    ensures verdict.TryAgain? <==> Transient in readings
    ensures verdict.Blockers? ==>
              && verdict.blockers == BlockersOf(readings, dust)
              && verdict.residuals == ResidualsOf(readings, dust)
              && verdict.lost == Sum(verdict.residuals)
    ensures verdict.Blockers? && verdict.blockers == [] ==>
              forall i :: 0 <= i < |readings| ==> readings[i].Balance? && readings[i].amount <= dust
  {
    if Transient in readings {
      return TryAgain;
    }
    var blockers: seq<VaultBlocker> := [];
    var residuals: seq<(nat, real)> := [];
    var lost := 0.0;
    hide Sum;
    EmptySum();
    for i := 0 to |readings|
      invariant blockers == BlockersOf(readings[..i], dust) && residuals == ResidualsOf(readings[..i], dust)
      invariant lost == Sum(residuals)
    {
      JudgeNext(readings, i, dust);
      hide BlockersOf, ResidualsOf;
      if readings[i].Unreadable? {
        blockers := blockers + [BalanceUnknown(i)];
        continue;
      }
      var underlying := readings[i].amount;
      if underlying > dust {
        blockers := blockers + [VaultBalance(i, underlying)];
        continue;
      }
      if underlying > 0.0 {
        SumNext(residuals, (i, underlying));
        residuals := residuals + [(i, underlying)];
        lost := lost + underlying;
      }
    }
    assert readings[..|readings|] == readings;
    verdict := Blockers(blockers, residuals, lost);
    UnblockedIsDust(readings, dust);
  }

  lemma EmptySum()
    ensures Sum([]) == 0.0
  {
  }

  /** No blocker means that every vault was read, and holds dust at most. */
  lemma {:induction false} UnblockedIsDust(readings: seq<Reading>, dust: real)
    ensures BlockersOf(readings, dust) == [] ==>
              forall i :: 0 <= i < |readings| ==> readings[i].Balance? && readings[i].amount <= dust
  {
    if readings != [] {
      UnblockedIsDust(readings[..|readings| - 1], dust);
    }
  }

  /** The finished pool decides the check: it is "try again" exactly when some vault answered "not now". */
  lemma ThrottledExactlyWhenTransient(n: nat, limit: nat, log: seq<Event>)
    requires limit >= 1 && Legal(Open(n, limit), log) && Finished(Play(Open(n, limit), log))
    ensures var p := Play(Open(n, limit), log);
            (exists i :: i in p.results && p.results[i].Transient?) <==> (exists i :: i in p.answers && p.answers[i].Transient?)
  {
    PoolReadsEachVaultOnce(n, limit, log);
    OpenIsGood(n, limit);
    RunKeepsInv(Open(n, limit), log);
    var p := Play(Open(n, limit), log);
    if i :| i in p.answers && p.answers[i].Transient? {
      assert p.results[i] == p.answers[i];
    }
  }
}
