/** The eligibility service as the code runs it: one call at a time, with any steps by others in between. */
module VaultEligibility {
  import opened Common
  import opened VaultPolicies

  predicate HasCall(e: Event) {
    e.Upsert? || e.SeePolicy? || e.SeeProfile? || e.Persist? || e.Drop?
  }

  /** The steps nobody but the call `me` takes. */
  predicate Owns(me: CallId, e: Event) {
    HasCall(e) && e.call == me
  }

  ghost predicate LocalKeeps(me: CallId, s: State, t: State) {
    (me in s.evaluations <==> me in t.evaluations) && (me in s.evaluations ==> t.evaluations[me] == s.evaluations[me])
  }

  lemma StepKeepsLocal(me: CallId, s: State, e: Event)
    requires Enabled(s, e) && !Owns(me, e)
    ensures LocalKeeps(me, s, Apply(s, e))
  {
  }

  lemma {:induction false} RunKeeps(me: CallId, log: seq<Event>, more: seq<Event>)
    requires log <= more && Legal(more) && forall k :: |log| <= k < |more| ==> !Owns(me, more[k])
    ensures Legal(log) && LocalKeeps(me, Play(log), Play(more))
    decreases |more|
  {
    if |log| < |more| {
      hide Apply, Enabled;
      RunKeeps(me, log, more[..|more| - 1]);
      StepKeepsLocal(me, Play(more[..|more| - 1]), more[|more| - 1]);
    } else {
      assert log == more;
    }
  }

  /** The call itself wrote no policy and no unlock. */
  ghost predicate OnlyReads(me: CallId, log: seq<Event>, more: seq<Event>) {
    log <= more && forall k :: |log| <= k < |more| && Owns(me, more[k]) ==> !more[k].Persist? && !more[k].Upsert?
  }

  /** Only the call itself acted. */
  ghost predicate Alone(me: CallId, log: seq<Event>, more: seq<Event>) {
    log <= more && forall k :: |log| <= k < |more| ==> Owns(me, more[k])
  }

  lemma AloneFrom(me: CallId, a: seq<Event>, b: seq<Event>, c: seq<Event>)
    requires a <= b <= c
    ensures Alone(me, a, c) ==> Alone(me, a, b) && Alone(me, b, c)
  {
  }

  class Database {
    const vaults: set<Vault>
    const publishedModules: set<ModuleId>
    var st: State
    ghost var log: seq<Event>
    /** How many of the calls made through this object have failed. */
    ghost var failures: nat

    ghost predicate Valid()
      reads this
    {
      Legal(log) && st == Play(log)
    }

    constructor (vaults: set<Vault>, publishedModules: set<ModuleId>)
      ensures Valid() && this.vaults == vaults && this.publishedModules == publishedModules && log == []
    {
      this.vaults, this.publishedModules := vaults, publishedModules;
      st := Empty;
      log, failures := [], 0;
    }

    /** Any number of steps by everyone else; callers know nothing else about it. */
    method Others(ghost me: CallId)
      requires Valid()
      modifies this`st, this`log
      ensures Valid() && old(log) <= log && forall k :: |old(log)| <= k < |log| ==> !Owns(me, log[k])
    {
    }

    /** One call of `me`: others act first, and it may fail. */
    method Call(ghost me: CallId) returns (ok: bool)
      requires Valid()
      modifies this
      ensures Valid() && Inv(st) && OnlyReads(me, old(log), log) && Grows(old(st), st) && LocalKeeps(me, old(st), st)
      ensures old(log) <= log && (Alone(me, old(log), log) ==> st == old(st))
      ensures failures == old(failures) + if ok then 0 else 1
    {
      hide Run, Inv, Grows, LocalKeeps;
      Others(me);
      if |old(log)| < |log| {
        assert !Owns(me, log[|old(log)|]);
      } else {
        assert log == old(log);
      }
      RunKeeps(me, old(log), log);
      NothingIsTakenBack(old(log), log);
      EveryRunKeepsInv(log);
      ok := *;
      if !ok {
        failures := failures + 1;
      }
    }

    method Perform(e: Event)
      requires Valid() && Enabled(st, e)
      modifies this`st, this`log
      ensures Valid() && Inv(st) && log == old(log) + [e] && st == Apply(old(st), e) && Grows(old(st), st)
    {
      hide Run, Inv, Grows, Apply, Enabled;
      log := log + [e];
      Extend(old(log), e);
      st := Apply(st, e);
      StepGrows(old(st), e);
      EveryRunKeepsInv(log);
    }
  }

  datatype UpsertError = VaultNotFound | InvalidModules(missing: set<ModuleId>) | PublishedIsImmutable | UpsertBroken

  datatype EvaluateError = UserNotFound | EvaluateBroken

  datatype Eligibility = Eligibility(eligible: bool, newlyUnlocked: bool, verdict: Verdict)

  class VaultEligibilityService {
    const db: Database

    constructor (db: Database)
      ensures this.db == db
    {
      this.db := db;
    }

    /** The filter over the candidates, and one row for each who qualifies. */
    method MaterializePolicyUnlocks(s: State, vault: Vault, version: int, minimumLevel: int, required: set<ModuleId>)
      returns (unlocks: map<(User, Vault), Unlock>)
      ensures unlocks == Unlocked(s, vault, version, Qualified(s, vault, minimumLevel, required))
    {
      var candidates := set u | u in s.users && s.users[u].mode == Some(LITE) && s.users[u].level.Some?
                                && s.users[u].level.value >= minimumLevel && (u, vault) !in s.unlocks;
      unlocks := s.unlocks;
      var left := candidates;
      while left != {}
        invariant left <= candidates
        invariant forall p :: p in unlocks <==>
                    p in s.unlocks || (p.1 == vault && p.0 in candidates - left && required <= s.users[p.0].completed)
        invariant forall p :: p in s.unlocks ==> unlocks[p] == s.unlocks[p]
        invariant forall p :: p in unlocks && p !in s.unlocks ==> unlocks[p] == Unlock(version, LevelOf(s.users[p.0]))
      {
        var u :| u in left;
        left := left - {u};
        var completed := s.users[u].completed * required;
        if forall m :: m in required ==> m in completed {
          unlocks := unlocks[(u, vault) := Unlock(version, LevelOf(s.users[u]))];
        }
      }
    }

    /**
     Writing a policy. What is published stays as it is: the same request again is answered with it, any
     other is refused; nothing is written on an error. `before` are the rows when the write was decided, and no
     others follow it. Without a failed call each answer is given exactly for its reason.
     */
    method UpsertPolicy(me: CallId, vault: Vault, version: int, minimumLevel: int, keys: seq<ModuleId>, publish: bool)
      returns (r: Result<Policy, UpsertError>, ghost before: State)
      requires db.Valid()
      modifies db
      ensures db.Valid() && Inv(db.st) && Grows(old(db.st), db.st) && old(db.log) <= db.log
      ensures Inv(before) && Grows(old(db.st), before) && (Alone(me, old(db.log), db.log) ==> before == old(db.st))
      ensures r.Err? ==> OnlyReads(me, old(db.log), db.log) && db.st == before
      ensures r.Ok? ==> UpsertEffect(before, db.st, vault, version, minimumLevel, (set k | k in keys), publish)
      ensures db.failures == old(db.failures) ==>
                && (r == Err(VaultNotFound) <==> vault !in db.vaults)
                && (r.Err? && r.error.InvalidModules? <==> vault in db.vaults && exists k :: k in keys && k !in db.publishedModules)
                && (r == Err(PublishedIsImmutable) <==>
                      && vault in db.vaults && (forall k :: k in keys ==> k in db.publishedModules)
                      && IsPublished(before, (vault, version))
                      && !(&& publish && before.policies[(vault, version)].minimumLevel == minimumLevel
                           && before.policies[(vault, version)].required == set k | k in keys))
      ensures r == Err(UpsertBroken) ==> db.failures > old(db.failures)
      ensures r == Err(VaultNotFound) ==> vault !in db.vaults
      ensures r.Err? && r.error.InvalidModules? ==>
                r.error.missing == (set k | k in keys && k !in db.publishedModules) && r.error.missing != {}
      ensures r == Err(PublishedIsImmutable) ==>
                && IsPublished(db.st, (vault, version))
                && var p := db.st.policies[(vault, version)];
                   !(publish && p.minimumLevel == minimumLevel && p.required == set k | k in keys)
      ensures r.Ok? ==>
                && (vault, version) in db.st.policies && r.value == db.st.policies[(vault, version)]
                && r.value.minimumLevel == minimumLevel && r.value.required == (set k | k in keys) && r.value.published == publish
    {
      hide Run, Inv, Grows, LocalKeeps, UpsertEffect, Alone, Apply;
      var unique := set k | k in keys;
      var ok := db.Call(me);
      before := db.st;
      if !ok {
        return Err(UpsertBroken), before;
      }
      if vault !in db.vaults {
        return Err(VaultNotFound), before;
      }
      var modules := set k | k in unique && k in db.publishedModules;
      CountDecides(modules, unique);
      if |modules| != |unique| {
        var missing := set k | k in keys && k !in db.publishedModules;
        ghost var key :| key in unique && key !in modules;
        assert key in missing;
        return Err(InvalidModules(missing)), before;
      }
      assert forall k :: k in keys ==> k in unique;
      ghost var s, log := db.st, db.log;
      ok := db.Call(me);
      GrowsFurther(old(db.st), s, db.st);
      AloneFrom(me, old(db.log), log, db.log);
      before := db.st;
      if !ok {
        return Err(UpsertBroken), before;
      }
      var key := (vault, version);
      UpsertHasItsEffect(before, me, vault, version, minimumLevel, modules, publish);
      if key in db.st.policies && db.st.policies[key].published {
        var existing := db.st.policies[key];
        if publish && existing.minimumLevel == minimumLevel && existing.required == unique {
          RepeatHasNoEffect(before, vault, version, minimumLevel, unique, publish);
          return Ok(existing), before;
        }
        return Err(PublishedIsImmutable), before;
      }
      ghost var read := db.log;
      var unlocks := MaterializePolicyUnlocks(db.st, vault, version, minimumLevel, modules);
      UpsertMaterializes(before, me, vault, version, minimumLevel, modules, publish);
      db.Perform(Upsert(me, vault, version, minimumLevel, modules, publish));
      assert publish ==> db.st.unlocks == unlocks;
      GrowsFurther(old(db.st), before, db.st);
      AloneFrom(me, old(db.log), read, db.log);
      EffectWrites(before, db.st, vault, version, minimumLevel, modules, publish);
      return Ok(db.st.policies[key]), before;
    }

    /**
     One user and one vault. Told eligible by a policy, the user meets a published policy of the vault, and
     if it was to be persisted the unlock is there; told not eligible, the user had no unlock (or is deleted), did
     not meet the policy that was read, and nothing was written. If nobody else acts, the answer is that of the
     specified evaluation of the rows, and no row but this unlock is changed.
     */
    method Evaluate(me: CallId, u: User, vault: Vault, usdc: bool, persist: bool) returns (r: Result<Eligibility, EvaluateError>)
      requires db.Valid() && me !in db.st.evaluations
      modifies db
      ensures db.Valid() && Inv(db.st) && Grows(old(db.st), db.st) && me !in db.st.evaluations
      ensures old(db.log) <= db.log
      ensures db.failures >= old(db.failures) && (r == Err(EvaluateBroken) ==> db.failures > old(db.failures))
      ensures r == Err(UserNotFound) ==> u !in db.st.users
      ensures r.Err? || !persist || !r.value.eligible ==> OnlyReads(me, old(db.log), db.log)
      ensures r.Ok? ==> u in db.st.users && Sound(db.st, u, vault, usdc, r.value, persist)
      ensures r.Ok? && !r.value.eligible && (u, vault) in old(db.st).unlocks ==> u in db.st.gone
      ensures r.Ok? && Alone(me, old(db.log), db.log) ==>
                AnswersFor(old(db.st), u, vault, usdc, r.value) && Untouched(old(db.st), db.st, u, {vault})
    {
      hide Run, Inv, Grows, LocalKeeps, OnlyReads, Sound, Alone, AnswersFor, Untouched;
      var ok := db.Call(me);
      Rests(me, old(db.st), db.st, u);
      UntouchedSelf(db.st, u, {vault});
      if !ok {
        return Err(EvaluateBroken);
      }
      if u !in db.st.users {
        return Err(UserNotFound);
      }
      AnswersAtOnce(db.st, u, vault, usdc);
      if db.st.users[u].mode != Some(LITE) {
        BypassIsSound(db.st, u, vault, usdc, persist);
        return Ok(Eligibility(true, false, ProBypass));
      }
      if usdc {
        OpenIsSound(db.st, u, vault, persist);
        return Ok(Eligibility(true, false, UsdcOpen));
      }
      ghost var s, log := db.st, db.log;
      ok := db.Call(me);
      Rests(me, s, db.st, u);
      GrowsFurther(old(db.st), s, db.st);
      ReadsFurther(me, old(db.log), log, db.log);
      AloneFrom(me, old(db.log), log, db.log);
      if !ok {
        return Err(EvaluateBroken);
      }
      if (u, vault) in db.st.unlocks {
        UnlockIsSound(db.st, u, vault, usdc, persist);
        return Ok(Eligibility(true, false, PersistedUnlock(db.st.unlocks[(u, vault)])));
      }
      UnlockLost(old(db.st), db.st, u, vault);
      ghost var first := log;
      s, log := db.st, db.log;
      r := EvaluatePolicy(me, u, vault, usdc, persist);
      GoneStays(s, db.st, u);
      GrowsFurther(old(db.st), s, db.st);
      AloneFrom(me, old(db.log), log, db.log);
      AloneFrom(me, old(db.log), first, log);
      if r.Err? || !persist || !r.value.eligible {
        ReadsFurther(me, old(db.log), log, db.log);
      }
    }

    /** The active policy, then the level and the modules, then the unlock if it is met and wanted. */
    method EvaluatePolicy(me: CallId, u: User, vault: Vault, usdc: bool, persist: bool) returns (r: Result<Eligibility, EvaluateError>)
      requires db.Valid() && Inv(db.st) && me !in db.st.evaluations && u in db.st.users && !usdc
      modifies db
      ensures db.Valid() && Inv(db.st) && Grows(old(db.st), db.st) && me !in db.st.evaluations
      ensures old(db.log) <= db.log
      ensures db.failures >= old(db.failures) && (r.Err? ==> r.error == EvaluateBroken && db.failures > old(db.failures))
      ensures r.Err? || !persist || !r.value.eligible ==> OnlyReads(me, old(db.log), db.log)
      ensures r.Ok? ==> u in db.st.users && Sound(db.st, u, vault, usdc, r.value, persist)
      ensures r.Ok? && Alone(me, old(db.log), db.log) ==>
                PolicyAnswersFor(old(db.st), u, vault, r.value) && Untouched(old(db.st), db.st, u, {vault})
    {
      hide Run, Inv, Grows, LocalKeeps, OnlyReads, Sound, Alone, PolicyAnswersFor, Untouched;
      var ok := db.Call(me);
      Rests(me, old(db.st), db.st, u);
      UntouchedSelf(db.st, u, {vault});
      if !ok {
        return Err(EvaluateBroken);
      }
      var active := ActiveOf(db.st, vault);
      if active == {} {
        NoPolicyIsSound(db.st, u, vault, usdc, persist);
        NoPolicyAnswers(db.st, u, vault);
        return Ok(Eligibility(false, false, NoPolicy));
      }
      var key :| key in active;
      ghost var read, first := db.st, db.log;
      ok := ReadProfile(me, u, key);
      GrowsFurther(old(db.st), read, db.st);
      ReadsFurther(me, old(db.log), first, db.log);
      if !ok {
        return Err(EvaluateBroken);
      }
      ghost var s, log := db.st, db.log;
      r := Conclude(me, u, vault, usdc, persist, key);
      GrowsFurther(old(db.st), s, db.st);
      AloneFrom(me, old(db.log), log, db.log);
      AloneFrom(me, old(db.log), first, log);
      if r.Ok? {
        PolicyAnswers(read, s, db.st, u, vault, key, r.value);
      }
      if r.Err? || !persist || !r.value.eligible {
        ReadsFurther(me, old(db.log), log, db.log);
      }
    }

    /** The reads behind a policy that was found: the user's level and the modules. */
    method ReadProfile(me: CallId, u: User, key: PolicyKey) returns (ok: bool)
      requires db.Valid() && Inv(db.st) && me !in db.st.evaluations && u in db.st.users && IsActive(db.st, key)
      modifies db
      ensures db.Valid() && Inv(db.st) && Grows(old(db.st), db.st) && OnlyReads(me, old(db.log), db.log) && old(db.log) <= db.log
      ensures db.failures == old(db.failures) + if ok then 0 else 1
      ensures u in db.st.users && (me in db.st.evaluations <==> ok)
      ensures ok ==> db.st.evaluations[me] == SawProfile(u, key, LevelOf(db.st.users[u]), db.st.users[u].completed)
      ensures ok && Alone(me, old(db.log), db.log) ==> db.st == old(db.st).(evaluations := db.st.evaluations)
    {
      hide Run, Inv, Grows, LocalKeeps, OnlyReads, Alone;
      db.Perform(SeePolicy(me, u, key));
      ReadNothing(me, old(db.log));
      ReadStep(me, old(db.log), old(db.log), SeePolicy(me, u, key));
      ghost var s, log := db.st, db.log;
      ok := db.Call(me);
      Rests(me, s, db.st, u);
      GrowsFurther(old(db.st), s, db.st);
      ReadsFurther(me, old(db.log), log, db.log);
      ghost var t, read := db.st, db.log;
      PolicyIsThere(t, me);
      var e := if ok then SeeProfile(me) else Drop(me);
      db.Perform(e);
      ReadStep(me, old(db.log), read, e);
      GrowsFurther(old(db.st), t, db.st);
      AloneFrom(me, old(db.log), log, db.log);
      AloneFrom(me, log, read, db.log);
    }

    method Conclude(me: CallId, u: User, vault: Vault, usdc: bool, persist: bool, key: PolicyKey) returns (r: Result<Eligibility, EvaluateError>)
      requires db.Valid() && Inv(db.st) && u in db.st.users && !usdc && key.0 == vault
      requires me in db.st.evaluations
      requires db.st.evaluations[me] == SawProfile(u, key, LevelOf(db.st.users[u]), db.st.users[u].completed)
      modifies db
      ensures db.Valid() && Inv(db.st) && Grows(old(db.st), db.st) && me !in db.st.evaluations
      ensures old(db.log) <= db.log
      ensures db.failures >= old(db.failures) && (r.Err? ==> r.error == EvaluateBroken && db.failures > old(db.failures))
      ensures r.Err? || !persist || !r.value.eligible ==> OnlyReads(me, old(db.log), db.log)
      ensures r.Ok? ==> u in db.st.users && Sound(db.st, u, vault, usdc, r.value, persist)
      ensures r.Ok? ==> Judged(old(db.st), u, key, r.value)
      ensures r.Ok? && Alone(me, old(db.log), db.log) ==> Untouched(old(db.st), db.st, u, {vault})
    {
      hide Run, Inv, Grows, LocalKeeps, OnlyReads, Sound, Alone, Untouched;
      PolicyIsThere(db.st, me);
      var seen := db.st.evaluations[me];
      var policy := db.st.policies[key];
      var missing := policy.required - seen.completed;
      var eligible := seen.level >= policy.minimumLevel && missing == {};
      NoneMissing(policy.required, seen.completed);
      ghost var s, log := db.st, db.log;
      if eligible && persist {
        var ok := db.Call(me);
        Rests(me, s, db.st, u);
        SamePolicy(s, db.st, key);
        ghost var t, l := db.st, db.log;
        if !ok {
          db.Perform(Drop(me));
          ReadStep(me, log, l, Drop(me));
          GrowsFurther(s, t, db.st);
          return Err(EvaluateBroken);
        }
        db.Perform(Persist(me));
        PersistTouches(t, me, u, vault);
        AloneFrom(me, log, l, db.log);
        GrowsFurther(s, t, db.st);
        PersistIsSound(s, t, me, u, vault, key);
        return Ok(Eligibility(true, true, ByPolicy(key, seen.level, missing)));
      }
      ReadNothing(me, log);
      DropTouches(s, me, u, vault);
      db.Perform(Drop(me));
      ReadStep(me, log, log, Drop(me));
      ReadIsSound(s, me, u, vault, persist, key, eligible, missing);
      return Ok(Eligibility(eligible, false, ByPolicy(key, seen.level, missing)));
    }

    /** The first policy of each vault in the list. */
    method FirstOfEachVault(listed: seq<PolicyKey>) returns (policies: seq<PolicyKey>)
      ensures DistinctVaults(policies) && VaultsOf(policies) == VaultsOf(listed)
      ensures DistinctVaults(listed) ==> policies == listed
    {
      hide DistinctVaults;
      policies := [];
      var seenVaults: set<Vault> := {};
      DistinctIn([]);
      for n := 0 to |listed|
        invariant DistinctVaults(policies) && seenVaults == VaultsOf(policies) == VaultsOf(listed[..n])
        invariant DistinctVaults(listed) ==> policies == listed[..n]
      {
        assert listed[..n + 1] == listed[..n] + [listed[n]];
        VaultsMore(listed[..n], listed[n]);
        DistinctAt(listed, n);
        if listed[n].0 !in seenVaults {
          DistinctMore(policies, listed[n]);
          VaultsMore(policies, listed[n]);
          policies := policies + [listed[n]];
          seenVaults := seenVaults + {listed[n].0};
        }
      }
      assert listed[..|listed|] == listed;
    }

    /** All active policies, in some order; there are no two of one vault. */
    method ListActive() returns (listed: seq<PolicyKey>)
      requires db.Valid() && Inv(db.st)
      ensures forall k :: k in listed <==> k in db.st.policies && db.st.policies[k].active && db.st.policies[k].published
      ensures DistinctVaults(listed)
    {
      var left := set k | k in db.st.policies && db.st.policies[k].active && db.st.policies[k].published;
      listed := [];
      while left != {}
        invariant forall k :: k in left || k in listed <==> k in db.st.policies && db.st.policies[k].active && db.st.policies[k].published
        invariant forall k :: k in left ==> k !in listed
        invariant forall i, j :: 0 <= i < j < |listed| ==> listed[i].0 != listed[j].0
      {
        var k :| k in left;
        left := left - {k};
        forall i | 0 <= i < |listed| ensures listed[i].0 != k.0 {
          assert listed[i] in listed;
        }
        listed := listed + [k];
      }
    }

    /**
     A complete refresh evaluates every vault that has an active policy, one after another, each on rows as they are
     between the first read and the end (`seen`). If nobody else acts, each answer is that of the specified evaluation
     of the rows read first, and who is eligible for a vault by its policy has its unlock afterwards.
     */
    method RefreshUnlocksForUser(me: CallId, u: User, openVaults: set<Vault>)
      returns (r: Result<map<Vault, Eligibility>, EvaluateError>, ghost read: State, ghost seen: map<Vault, State>)
      requires db.Valid() && me !in db.st.evaluations
      modifies db
      ensures db.Valid() && Inv(db.st) && Grows(old(db.st), read) && Grows(read, db.st) && me !in db.st.evaluations
      ensures old(db.log) <= db.log
      ensures r == Err(EvaluateBroken) ==> db.failures > old(db.failures)
      ensures r == Err(UserNotFound) ==> u !in read.users
      ensures r.Ok? ==> u in read.users && r.value.Keys == if read.users[u].mode == Some(LITE) then ActiveVaults(read) else {}
      ensures r.Ok? ==> Evaluated(read, db.st, u, openVaults, r.value, seen)
      ensures r.Ok? ==> forall v :: v in r.value && r.value[v].newlyUnlocked ==> (u, v) in db.st.unlocks || u in db.st.gone
      ensures r.Ok? && Alone(me, old(db.log), db.log) ==>
                && read == old(db.st) && AllAnswered(read, u, openVaults, r.value)
                && (u !in read.gone ==> forall v :: v in r.value && v !in openVaults && Eligible(read, u, v, false) ==> (u, v) in db.st.unlocks)
    {
      hide Run, Inv, Grows, LocalKeeps, OnlyReads, Sound, VaultsOf;
      hide DistinctVaults, ActiveVaults, Alone, Untouched, Evaluated, AllAnswered, AnswersFor;
      var ok := db.Call(me);
      Rests(me, old(db.st), db.st, u);
      read, seen := db.st, map[];
      ghost var first := db.log;
      GrowsNothing(read);
      NoneEvaluated(read, db.st, u, openVaults);
      if !ok {
        return Err(EvaluateBroken), read, seen;
      }
      if u !in db.st.users {
        return Err(UserNotFound), read, seen;
      }
      if db.st.users[u].mode != Some(LITE) {
        return Ok(map[]), read, seen;
      }
      var listed := ListActive();
      var policies := FirstOfEachVault(listed);
      ActiveAreListed(read, listed);
      var results: map<Vault, Eligibility> := map[];
      assert VaultsOf(policies[..0]) == {} by {
        NoVaults(policies);
      }
      UntouchedSelf(read, u, results.Keys);
      for n := 0 to |policies|
        invariant db.Valid() && Inv(db.st) && Grows(read, db.st) && me !in db.st.evaluations && u in db.st.users
        invariant db.failures >= old(db.failures) && old(db.log) <= first <= db.log
        invariant results.Keys == VaultsOf(policies[..n])
        invariant Evaluated(read, db.st, u, openVaults, results, seen)
        invariant forall v :: v in results && results[v].newlyUnlocked ==> (u, v) in db.st.unlocks || u in db.st.gone
        invariant Alone(me, first, db.log) ==>
                    Untouched(read, db.st, u, results.Keys) && AllAnswered(read, u, openVaults, results) && AllHeld(db.st, u, results)
      {
        ghost var s, log := db.st, db.log;
        var vault := policies[n].0;
        var one := Evaluate(me, u, vault, vault in openVaults, true);
        EvaluatedFurther(read, s, db.st, u, openVaults, results, seen);
        GrowsFurther(read, s, db.st);
        UnlocksRest(s, db.st, u);
        if one.Err? {
          return Err(one.error), read, seen;
        }
        NewIsThere(db.st, u, vault, vault in openVaults, one.value);
        assert policies[..n + 1] == policies[..n] + [policies[n]];
        VaultsMore(policies[..n], policies[n]);
        DistinctAt(policies, n);
        AloneFrom(me, first, log, db.log);
        if Alone(me, first, db.log) {
          AnswerOfRead(read, s, db.st, u, vault, vault in openVaults, results.Keys, one.value);
          HeldFurther(s, db.st, u, vault, openVaults, results, one.value);
          AnsweredMore(read, u, openVaults, results, vault, one.value);
        }
        EvaluatedMore(read, db.st, u, openVaults, results, seen, vault, one.value);
        results, seen := results[vault := one.value], seen[vault := db.st];
      }
      assert policies[..|policies|] == policies;
      AloneFrom(me, old(db.log), first, db.log);
      if Alone(me, first, db.log) && u !in read.gone {
        HeldByTheEligible(read, db.st, u, openVaults, results);
      }
      return Ok(results), read, seen;
    }
  }

  lemma RepeatHasNoEffect(s: State, vault: Vault, version: int, minimumLevel: int, required: set<ModuleId>, publish: bool)
    requires IsPublished(s, (vault, version))
    ensures UpsertEffect(s, s, vault, version, minimumLevel, required, publish)
  {
  }

  lemma EffectWrites(s: State, t: State, vault: Vault, version: int, minimumLevel: int, required: set<ModuleId>, publish: bool)
    requires !IsPublished(s, (vault, version)) && UpsertEffect(s, t, vault, version, minimumLevel, required, publish)
    ensures (vault, version) in t.policies && t.policies[(vault, version)] == Policy(minimumLevel, required, publish, publish)
  {
  }

  lemma UpsertMaterializes(s: State, me: CallId, vault: Vault, version: int, minimumLevel: int, required: set<ModuleId>, publish: bool)
    requires !IsPublished(s, (vault, version))
    ensures publish ==> Apply(s, Upsert(me, vault, version, minimumLevel, required, publish)).unlocks ==
                        Unlocked(s, vault, version, Qualified(s, vault, minimumLevel, required))
  {
  }

  // ----- The answers and the specified evaluation -----

  /** The answer is that of the specified evaluation of the rows `s`. */
  ghost predicate AnswersFor(s: State, u: User, vault: Vault, usdc: bool, r: Eligibility) {
    u in s.users && r.verdict == Evaluate(s, u, vault, usdc) && (r.eligible <==> Eligible(s, u, vault, usdc))
  }

  ghost predicate PolicyAnswersFor(s: State, u: User, vault: Vault, r: Eligibility) {
    u in s.users && r.verdict == ByItsPolicy(s, u, vault) && (r.eligible <==> IsEligible(s, ByItsPolicy(s, u, vault)))
  }

  /** What is concluded from a policy that was read and the profile that was read after it. */
  ghost predicate Judged(s: State, u: User, key: PolicyKey, r: Eligibility) {
    && u in s.users && key in s.policies
    && r.verdict == ByPolicy(key, LevelOf(s.users[u]), s.policies[key].required - s.users[u].completed)
    && (r.eligible <==> IsEligible(s, r.verdict))
  }

  /** No row has changed but unlocks of the user for these vaults. */
  ghost predicate Untouched(s: State, t: State, u: User, vaults: set<Vault>) {
    && t.policies == s.policies && t.users == s.users && t.gone == s.gone
    && forall p: (User, Vault) :: !(p.0 == u && p.1 in vaults) ==>
         (p in s.unlocks <==> p in t.unlocks) && (p in s.unlocks ==> t.unlocks[p] == s.unlocks[p])
  }

  lemma UntouchedSelf(s: State, u: User, vaults: set<Vault>)
    ensures Untouched(s, s, u, vaults)
  {
  }

  lemma PersistTouches(s: State, me: CallId, u: User, vault: Vault)
    requires Enabled(s, Persist(me)) && s.evaluations[me].user == u && s.evaluations[me].policy.0 == vault
    ensures Untouched(s, Apply(s, Persist(me)), u, {vault})
  {
  }

  lemma DropTouches(s: State, me: CallId, u: User, vault: Vault)
    ensures Untouched(s, Apply(s, Drop(me)), u, {vault})
  {
  }

  /** The evaluations that need no policy. */
  lemma AnswersAtOnce(s: State, u: User, vault: Vault, usdc: bool)
    requires u in s.users
    ensures s.users[u].mode != Some(LITE) ==> AnswersFor(s, u, vault, usdc, Eligibility(true, false, ProBypass))
    ensures s.users[u].mode == Some(LITE) && usdc ==> AnswersFor(s, u, vault, usdc, Eligibility(true, false, UsdcOpen))
    ensures s.users[u].mode == Some(LITE) && !usdc && (u, vault) in s.unlocks ==>
              AnswersFor(s, u, vault, usdc, Eligibility(true, false, PersistedUnlock(s.unlocks[(u, vault)])))
    ensures s.users[u].mode == Some(LITE) && !usdc && (u, vault) !in s.unlocks ==>
              forall r :: PolicyAnswersFor(s, u, vault, r) ==> AnswersFor(s, u, vault, usdc, r)
  {
  }

  lemma NoPolicyAnswers(s: State, u: User, vault: Vault)
    requires u in s.users && ActiveOf(s, vault) == {}
    ensures PolicyAnswersFor(s, u, vault, Eligibility(false, false, NoPolicy))
  {
    ActiveIsListed(s, vault);
  }

  /** Undisturbed, the policy that was found is the active one, and what was read after it is of the same rows. */
  lemma PolicyAnswers(read: State, s: State, t: State, u: User, vault: Vault, key: PolicyKey, r: Eligibility)
    requires Inv(read) && key in ActiveOf(read, vault) && Judged(s, u, key, r)
    ensures s == read.(evaluations := s.evaluations) ==> PolicyAnswersFor(read, u, vault, r)
    ensures s == read.(evaluations := s.evaluations) && Untouched(s, t, u, {vault}) ==> Untouched(read, t, u, {vault})
  {
    var version := key.1;
    assert IsActive(read, (vault, version));
  }

  lemma UnlockLost(s: State, t: State, u: User, vault: Vault)
    requires Grows(s, t) && (u, vault) !in t.unlocks
    ensures (u, vault) in s.unlocks ==> u in t.gone
  {
  }

  lemma GoneStays(s: State, t: State, u: User)
    requires Grows(s, t)
    ensures u in s.gone ==> u in t.gone
  {
  }

  // ----- The answers of a refresh -----

  /** Each answer holds of the rows as they were at some moment between the first read and now. */
  ghost predicate Evaluated(read: State, now: State, u: User, openVaults: set<Vault>, results: map<Vault, Eligibility>, seen: map<Vault, State>) {
    forall v :: v in results ==>
      v in seen && Grows(read, seen[v]) && Grows(seen[v], now) && u in seen[v].users && Sound(seen[v], u, v, v in openVaults, results[v], true)
  }

  ghost predicate AllAnswered(s: State, u: User, openVaults: set<Vault>, results: map<Vault, Eligibility>) {
    forall v :: v in results ==> AnswersFor(s, u, v, v in openVaults, results[v])
  }

  /** Whoever was told eligible by a policy or by an unlock has the unlock. */
  ghost predicate AllHeld(s: State, u: User, results: map<Vault, Eligibility>) {
    forall v :: v in results && results[v].eligible && (results[v].verdict.ByPolicy? || results[v].verdict.PersistedUnlock?) ==>
      (u, v) in s.unlocks || u in s.gone
  }

  lemma NoneEvaluated(read: State, now: State, u: User, openVaults: set<Vault>)
    ensures Evaluated(read, now, u, openVaults, map[], map[]) && AllAnswered(read, u, openVaults, map[])
  {
  }

  lemma EvaluatedFurther(read: State, s: State, t: State, u: User, openVaults: set<Vault>, results: map<Vault, Eligibility>, seen: map<Vault, State>)
    requires Grows(s, t) && Evaluated(read, s, u, openVaults, results, seen)
    ensures Evaluated(read, t, u, openVaults, results, seen)
  {
    hide Grows, Sound;
    forall v | v in results ensures Grows(seen[v], t) {
      GrowsFurther(seen[v], s, t);
    }
  }

  lemma EvaluatedMore(read: State, t: State, u: User, openVaults: set<Vault>, results: map<Vault, Eligibility>, seen: map<Vault, State>,
                      vault: Vault, one: Eligibility)
    requires Grows(read, t) && Evaluated(read, t, u, openVaults, results, seen)
    requires u in t.users && Sound(t, u, vault, vault in openVaults, one, true)
    ensures Evaluated(read, t, u, openVaults, results[vault := one], seen[vault := t])
  {
    hide Grows, Sound;
    GrowsNothing(t);
  }

  /** After other vaults' unlocks only, the evaluation of a vault is what it was. */
  lemma AnswerOfRead(read: State, s: State, t: State, u: User, vault: Vault, usdc: bool, done: set<Vault>, r: Eligibility)
    requires Inv(read) && Inv(s) && u in read.users && Untouched(read, s, u, done) && vault !in done
    requires AnswersFor(s, u, vault, usdc, r) && Untouched(s, t, u, {vault})
    ensures AnswersFor(read, u, vault, usdc, r) && Untouched(read, t, u, done + {vault})
  {
    if HasActive(read, vault) {
      var version :| IsActive(read, (vault, version));
      assert IsActive(s, (vault, version));
      assert ActivePolicy(read, vault) == ActivePolicy(s, vault);
    }
  }

  lemma AnsweredMore(s: State, u: User, openVaults: set<Vault>, results: map<Vault, Eligibility>, vault: Vault, one: Eligibility)
    requires AllAnswered(s, u, openVaults, results) && AnswersFor(s, u, vault, vault in openVaults, one)
    ensures AllAnswered(s, u, openVaults, results[vault := one])
  {
  }

  lemma HeldFurther(s: State, t: State, u: User, vault: Vault, openVaults: set<Vault>, results: map<Vault, Eligibility>, one: Eligibility)
    requires AllHeld(s, u, results) && Grows(s, t) && u in t.users && Sound(t, u, vault, vault in openVaults, one, true)
    ensures AllHeld(t, u, results[vault := one])
  {
  }

  lemma HeldByTheEligible(read: State, t: State, u: User, openVaults: set<Vault>, results: map<Vault, Eligibility>)
    requires AllAnswered(read, u, openVaults, results) && AllHeld(t, u, results) && u !in read.gone && u in read.users
    requires read.users[u].mode == Some(LITE) && Untouched(read, t, u, results.Keys)
    ensures forall v :: v in results && v !in openVaults && Eligible(read, u, v, false) ==> (u, v) in t.unlocks
  {
    forall v | v in results && v !in openVaults && Eligible(read, u, v, false) ensures (u, v) in t.unlocks {
      assert AnswersFor(read, u, v, false, results[v]);
    }
  }

  predicate DistinctVaults(keys: seq<PolicyKey>) {
    forall i, j :: 0 <= i < j < |keys| ==> keys[i].0 != keys[j].0
  }

  function VaultsOf(keys: seq<PolicyKey>): set<Vault> {
    set k | k in keys :: k.0
  }

  lemma DistinctIn(keys: seq<PolicyKey>)
    requires keys == []
    ensures DistinctVaults(keys)
  {
  }

  lemma VaultsMore(keys: seq<PolicyKey>, k: PolicyKey)
    ensures VaultsOf(keys + [k]) == VaultsOf(keys) + {k.0}
  {
  }

  lemma DistinctMore(keys: seq<PolicyKey>, k: PolicyKey)
    requires DistinctVaults(keys) && k.0 !in VaultsOf(keys)
    ensures DistinctVaults(keys + [k])
  {
  }

  lemma DistinctAt(keys: seq<PolicyKey>, n: nat)
    requires n < |keys|
    ensures DistinctVaults(keys) ==> keys[n].0 !in VaultsOf(keys[..n])
  {
  }

  ghost function ActiveVaults(s: State): set<Vault> {
    set k | k in s.policies && s.policies[k].active && s.policies[k].published :: k.0
  }

  lemma NoVaults(keys: seq<PolicyKey>)
    ensures VaultsOf(keys[..0]) == {}
  {
  }

  lemma ActiveAreListed(s: State, listed: seq<PolicyKey>)
    requires forall k :: k in listed <==> k in s.policies && s.policies[k].active && s.policies[k].published
    ensures VaultsOf(listed) == ActiveVaults(s)
  {
  }

  lemma UnlocksRest(s: State, t: State, u: User)
    requires Grows(s, t)
    ensures u in s.users ==> u in t.users
    ensures u in s.gone ==> u in t.gone
    ensures forall v :: (u, v) in s.unlocks ==> (u, v) in t.unlocks || u in t.gone
  {
  }

  lemma NewIsThere(s: State, u: User, vault: Vault, usdc: bool, r: Eligibility)
    requires u in s.users && Sound(s, u, vault, usdc, r, true)
    ensures r.newlyUnlocked ==> (u, vault) in s.unlocks
  {
  }

  /** What an answer says about the rows at the moment it is given. */
  ghost predicate Sound(s: State, u: User, vault: Vault, usdc: bool, r: Eligibility, persist: bool)
    requires u in s.users
  {
    match r.verdict
    case ProBypass => r.eligible && !r.newlyUnlocked && s.users[u].mode != Some(LITE)
    case UsdcOpen => r.eligible && !r.newlyUnlocked && usdc
    case PersistedUnlock(unlock) => r.eligible && !r.newlyUnlocked && (u, vault) in s.unlocks && s.unlocks[(u, vault)] == unlock
    case NoPolicy => !r.eligible && !r.newlyUnlocked && !HasActive(s, vault)
    case ByPolicy(key, level, missing) =>
      && key.0 == vault && IsPublished(s, key) && (r.newlyUnlocked <==> r.eligible && persist)
      && (r.eligible ==>
            && missing == {}
            && (u !in s.gone ==> Meets(LevelOf(s.users[u]), s.users[u].completed, s.policies[key].minimumLevel, s.policies[key].required)))
      && (!r.eligible ==>
            && level == LevelOf(s.users[u]) && missing == s.policies[key].required - s.users[u].completed
            && !Meets(level, s.users[u].completed, s.policies[key].minimumLevel, s.policies[key].required))
      && (r.newlyUnlocked ==> (u, vault) in s.unlocks)
  }

  lemma Rests(me: CallId, s: State, t: State, u: User)
    requires LocalKeeps(me, s, t) && Grows(s, t)
    ensures me in s.evaluations <==> me in t.evaluations
    ensures me in s.evaluations ==> t.evaluations[me] == s.evaluations[me]
    ensures u in s.users ==> u in t.users
  {
  }

  lemma ReadNothing(me: CallId, log: seq<Event>)
    ensures OnlyReads(me, log, log)
  {
  }

  lemma ReadsFurther(me: CallId, a: seq<Event>, b: seq<Event>, c: seq<Event>)
    requires OnlyReads(me, a, b) && OnlyReads(me, b, c)
    ensures OnlyReads(me, a, c)
  {
  }

  lemma ReadStep(me: CallId, a: seq<Event>, b: seq<Event>, e: Event)
    requires OnlyReads(me, a, b) && !e.Persist? && !e.Upsert?
    ensures OnlyReads(me, a, b + [e])
  {
  }

  lemma PolicyIsThere(s: State, me: CallId)
    requires Inv(s) && me in s.evaluations
    ensures s.evaluations[me].user in s.users && IsPublished(s, s.evaluations[me].policy)
  {
  }

  lemma SamePolicy(s: State, t: State, key: PolicyKey)
    requires Grows(s, t) && IsPublished(s, key)
    ensures IsPublished(t, key) && t.policies[key].minimumLevel == s.policies[key].minimumLevel && t.policies[key].required == s.policies[key].required
  {
  }

  lemma NoneMissing(required: set<ModuleId>, completed: set<ModuleId>)
    ensures required - completed == {} <==> required <= completed
  {
    forall m | m in required && m !in completed ensures m in required - completed {
    }
  }

  lemma BypassIsSound(s: State, u: User, vault: Vault, usdc: bool, persist: bool)
    requires u in s.users && s.users[u].mode != Some(LITE)
    ensures Sound(s, u, vault, usdc, Eligibility(true, false, ProBypass), persist)
  {
  }

  lemma OpenIsSound(s: State, u: User, vault: Vault, persist: bool)
    requires u in s.users
    ensures Sound(s, u, vault, true, Eligibility(true, false, UsdcOpen), persist)
  {
  }

  lemma UnlockIsSound(s: State, u: User, vault: Vault, usdc: bool, persist: bool)
    requires u in s.users && (u, vault) in s.unlocks
    ensures Sound(s, u, vault, usdc, Eligibility(true, false, PersistedUnlock(s.unlocks[(u, vault)])), persist)
  {
  }

  lemma NoPolicyIsSound(s: State, u: User, vault: Vault, usdc: bool, persist: bool)
    requires u in s.users && ActiveOf(s, vault) == {}
    ensures Sound(s, u, vault, usdc, Eligibility(false, false, NoPolicy), persist)
  {
    ActiveIsListed(s, vault);
  }

  function ActiveOf(s: State, vault: Vault): set<PolicyKey> {
    set k | k in s.policies && k.0 == vault && s.policies[k].active && s.policies[k].published
  }

  lemma ActiveIsListed(s: State, vault: Vault)
    ensures HasActive(s, vault) ==> ActiveOf(s, vault) != {}
  {
    if HasActive(s, vault) {
      var version :| IsActive(s, (vault, version));
      assert (vault, version) in ActiveOf(s, vault);
    }
  }

  lemma PersistIsSound(s: State, t: State, me: CallId, u: User, vault: Vault, key: PolicyKey)
    requires Inv(t) && me in t.evaluations && Enabled(t, Persist(me)) && key.0 == vault && u in t.users
    requires t.evaluations[me].SawProfile? && t.evaluations[me].user == u && t.evaluations[me].policy == key
    ensures var e := t.evaluations[me];
            && u in Apply(t, Persist(me)).users
            && Sound(Apply(t, Persist(me)), u, vault, false, Eligibility(true, true, ByPolicy(key, e.level, {})), true)
  {
  }

  lemma ReadIsSound(s: State, me: CallId, u: User, vault: Vault, persist: bool, key: PolicyKey, eligible: bool, missing: set<ModuleId>)
    requires u in s.users && key.0 == vault && IsPublished(s, key) && (eligible ==> !persist)
    requires missing == s.policies[key].required - s.users[u].completed
    requires eligible <==> LevelOf(s.users[u]) >= s.policies[key].minimumLevel && missing == {}
    ensures Sound(Apply(s, Drop(me)), u, vault, false, Eligibility(eligible, false, ByPolicy(key, LevelOf(s.users[u]), missing)), persist)
  {
    NoneMissing(s.policies[key].required, s.users[u].completed);
  }
}
