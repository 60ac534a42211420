/**
 Education policies and vault unlocks (src/vault-eligibility/vault-eligibility.service.ts). Publishing a
 policy is one transaction under the vault's lock and unlocks everybody who qualifies; evaluating a
 single user reads row by row, so policies and progress may change between its reads.
 */
module VaultPolicies {
  import opened Common

  type User = nat
  type Vault = nat
  type ModuleId = nat
  type CallId = nat

  datatype Mode = LITE | PRO

  datatype Policy = Policy(minimumLevel: int, required: set<ModuleId>, active: bool, published: bool)
  datatype Unlock = Unlock(version: int, levelAtUnlock: int)

  /** A user as both sides read it: a mode that may be unset, an XP account that may be missing. */
  datatype Profile = Profile(mode: Option<Mode>, level: Option<int>, completed: set<ModuleId>)

  type PolicyKey = (Vault, int)

  /** An evaluation under way: the policy it read, then the level and the modules it read. */
  datatype Evaluation = SawPolicy(user: User, policy: PolicyKey) | SawProfile(user: User, policy: PolicyKey, level: int, completed: set<ModuleId>)

  datatype State = State(policies: map<PolicyKey, Policy>, unlocks: map<(User, Vault), Unlock>, users: map<User, Profile>,
                         evaluations: map<CallId, Evaluation>, gone: set<User>)

  datatype Event =
    | Upsert(call: CallId, vault: Vault, version: int, minimumLevel: int, required: set<ModuleId>, publish: bool)
    | Join(user: User)
    | Choose(user: User, mode: Mode)
    | Progress(user: User, level: int, completed: set<ModuleId>)
    | SeePolicy(call: CallId, user: User, policy: PolicyKey)
    | SeeProfile(call: CallId)
    | Persist(call: CallId)
    | Drop(call: CallId)
    | Scrub(user: User)

  function LevelOf(p: Profile): int {
    if p.level.Some? then p.level.value else 0
  }

  predicate IsPublished(s: State, key: PolicyKey) {
    key in s.policies && s.policies[key].published
  }

  predicate IsActive(s: State, key: PolicyKey) {
    key in s.policies && s.policies[key].active && s.policies[key].published
  }

  predicate Meets(level: int, completed: set<ModuleId>, minimumLevel: int, required: set<ModuleId>) {
    level >= minimumLevel && required <= completed
  }

  predicate Enabled(s: State, e: Event) {
    match e
    case Upsert(_, _, _, _, _, _) => true
    case Join(u) => u !in s.users
    case Choose(u, _) => u in s.users
    case Progress(u, level, completed) =>
      u in s.users && LevelOf(s.users[u]) <= level && 0 <= level && s.users[u].completed <= completed
    case SeePolicy(c, u, key) => c !in s.evaluations && u in s.users && IsActive(s, key)
    case SeeProfile(c) => c in s.evaluations && s.evaluations[c].SawPolicy? && s.evaluations[c].user in s.users
    case Persist(c) =>
      && c in s.evaluations && s.evaluations[c].SawProfile? && s.evaluations[c].policy in s.policies
      && var e := s.evaluations[c];
         Meets(e.level, e.completed, s.policies[e.policy].minimumLevel, s.policies[e.policy].required)
    case Drop(_) => true
    case Scrub(u) => u in s.users
  }

  // ----- Publishing -----

  /** Who a publication unlocks: Lite users with an account that meet it and have no unlock yet. */
  function Qualified(s: State, vault: Vault, minimumLevel: int, required: set<ModuleId>): set<User> {
    set u | u in s.users && s.users[u].mode == Some(LITE) && s.users[u].level.Some?
            && Meets(s.users[u].level.value, s.users[u].completed, minimumLevel, required) && (u, vault) !in s.unlocks
  }

  function Written(s: State, key: PolicyKey, policy: Policy): map<PolicyKey, Policy> {
    map k | k in s.policies.Keys + {key} ::
      if k == key then policy else if policy.published && k.0 == key.0 then s.policies[k].(active := false) else s.policies[k]
  }

  function Unlocked(s: State, vault: Vault, version: int, users: set<User>): map<(User, Vault), Unlock>
    requires users <= s.users.Keys
  {
    map p | p in s.unlocks.Keys + (set u | u in users :: (u, vault)) ::
      if p in s.unlocks then s.unlocks[p] else Unlock(version, if p.0 in s.users then LevelOf(s.users[p.0]) else 0)
  }

  /** A published policy is left as it is, whether the call is a harmless retry or a refused change. */
  function AfterUpsert(s: State, vault: Vault, version: int, minimumLevel: int, required: set<ModuleId>, publish: bool): State {
    if IsPublished(s, (vault, version)) then s
    else
      s.(policies := Written(s, (vault, version), Policy(minimumLevel, required, publish, publish)),
         unlocks := if publish then Unlocked(s, vault, version, Qualified(s, vault, minimumLevel, required)) else s.unlocks)
  }

  /** A deleted account loses its unlocks, its XP account, its modules and its mode; the user's row stays. */
  function Scrubbed(s: State, u: User): State {
    s.(unlocks := map p | p in s.unlocks && p.0 != u :: s.unlocks[p], users := s.users[u := Profile(None, None, {})],
       gone := s.gone + {u})
  }

  function Apply(s: State, e: Event): State
    requires Enabled(s, e)
  {
    match e
    case Upsert(_, vault, version, minimumLevel, required, publish) => AfterUpsert(s, vault, version, minimumLevel, required, publish)
    case Join(u) => s.(users := s.users[u := Profile(None, None, {})])
    case Choose(u, mode) => s.(users := s.users[u := s.users[u].(mode := Some(mode))])
    case Progress(u, level, completed) => s.(users := s.users[u := s.users[u].(level := Some(level), completed := completed)])
    case SeePolicy(c, u, key) => s.(evaluations := s.evaluations[c := SawPolicy(u, key)])
    case SeeProfile(c) =>
      var e := s.evaluations[c];
      s.(evaluations := s.evaluations[c := SawProfile(e.user, e.policy, LevelOf(s.users[e.user]), s.users[e.user].completed)])
    case Persist(c) =>
      var e := s.evaluations[c];
      var p := (e.user, e.policy.0);
      s.(unlocks := if p in s.unlocks then s.unlocks else s.unlocks[p := Unlock(e.policy.1, e.level)], evaluations := s.evaluations - {c})
    case Drop(c) => s.(evaluations := s.evaluations - {c})
    case Scrub(u) => Scrubbed(s, u)
  }

  // ----- The invariant -----

  ghost predicate OneActive(s: State) {
    && (forall k :: k in s.policies && s.policies[k].active ==> s.policies[k].published)
    && (forall k, l :: k in s.policies && l in s.policies && k.0 == l.0 && s.policies[k].active && s.policies[l].active ==> k == l)
  }

  /** An unlock rests on a published policy of its vault that its user met, and still meets unless deleted since. */
  ghost predicate Justified(s: State, p: (User, Vault))
    requires p in s.unlocks
  {
    var key := (p.1, s.unlocks[p].version);
    && p.0 in s.users && IsPublished(s, key) && s.policies[key].minimumLevel <= s.unlocks[p].levelAtUnlock
    && (p.0 !in s.gone ==>
          && Meets(LevelOf(s.users[p.0]), s.users[p.0].completed, s.policies[key].minimumLevel, s.policies[key].required)
          && s.unlocks[p].levelAtUnlock <= LevelOf(s.users[p.0]))
  }

  ghost predicate EvaluationOk(s: State, c: CallId)
    requires c in s.evaluations
  {
    var e := s.evaluations[c];
    && e.user in s.users && IsPublished(s, e.policy)
    && (e.SawProfile? && e.user !in s.gone ==> e.level <= LevelOf(s.users[e.user]) && e.completed <= s.users[e.user].completed)
  }

  ghost predicate Inv(s: State) {
    && OneActive(s)
    && (forall p :: p in s.unlocks ==> Justified(s, p))
    && (forall c :: c in s.evaluations ==> EvaluationOk(s, c))
  }

  /** What no step undoes for those who are not deleted: unlock rows, published policies, levels and completions. */
  ghost predicate Grows(s: State, t: State) {
    && s.gone <= t.gone
    && (forall p :: p in s.unlocks && p.0 !in t.gone ==> p in t.unlocks && t.unlocks[p] == s.unlocks[p])
    && (forall k :: IsPublished(s, k) ==>
          IsPublished(t, k) && t.policies[k].minimumLevel == s.policies[k].minimumLevel && t.policies[k].required == s.policies[k].required)
    && (forall u :: u in s.users ==>
          && u in t.users
          && (u !in t.gone ==> LevelOf(s.users[u]) <= LevelOf(t.users[u]) && s.users[u].completed <= t.users[u].completed))
  }

  lemma StepGrows(s: State, e: Event)
    requires Enabled(s, e)
    ensures Grows(s, Apply(s, e))
  {
  }

  lemma StepKeepsOneActive(s: State, e: Event)
    requires OneActive(s) && Enabled(s, e)
    ensures OneActive(Apply(s, e))
  {
  }

  lemma JustifiedGrows(s: State, t: State, p: (User, Vault))
    requires Grows(s, t) && p in s.unlocks && p.0 !in t.gone && Justified(s, p)
    ensures p in t.unlocks && Justified(t, p)
  {
  }

  lemma StepJustifies(s: State, e: Event, p: (User, Vault))
    requires Inv(s) && Enabled(s, e) && p in Apply(s, e).unlocks
    ensures Justified(Apply(s, e), p)
  {
    StepGrows(s, e);
    if p in s.unlocks {
      if p.0 !in Apply(s, e).gone {
        JustifiedGrows(s, Apply(s, e), p);
      }
    } else if e.Persist? {
      assert EvaluationOk(s, e.call);
    }
  }

  lemma StepKeepsInv(s: State, e: Event)
    requires Inv(s) && Enabled(s, e)
    ensures Inv(Apply(s, e))
  {
    var t := Apply(s, e);
    StepGrows(s, e);
    StepKeepsOneActive(s, e);
    forall p | p in t.unlocks ensures Justified(t, p) {
      StepJustifies(s, e, p);
    }
    forall c | c in t.evaluations ensures EvaluationOk(t, c) {
      assert c in s.evaluations ==> EvaluationOk(s, c);
    }
  }

  const Empty := State(map[], map[], map[], map[], {})

  /** The state after the steps of `log`, in order; none if some step was not allowed when it came. */
  function Run(log: seq<Event>): Option<State> {
    if log == [] then Some(Empty)
    else
      var before, e := Run(log[..|log| - 1]), log[|log| - 1];
      if before.Some? && Enabled(before.value, e) then Some(Apply(before.value, e)) else None
  }

  predicate Legal(log: seq<Event>) {
    Run(log).Some?
  }

  function Play(log: seq<Event>): State
    requires Legal(log)
  {
    Run(log).value
  }

  lemma {:induction false} EveryRunKeepsInv(log: seq<Event>)
    requires Legal(log)
    ensures Inv(Play(log))
  {
    hide Inv, Enabled, Apply;
    if log != [] {
      EveryRunKeepsInv(log[..|log| - 1]);
      StepKeepsInv(Play(log[..|log| - 1]), log[|log| - 1]);
    } else {
      EmptyIsFine();
    }
  }

  lemma EmptyIsFine()
    ensures Inv(Empty)
  {
  }

  lemma GrowsFurther(s: State, t: State, u: State)
    requires Grows(s, t) && Grows(t, u)
    ensures Grows(s, u)
  {
  }

  /** Over any run: only a deleted account's unlock rows are removed, none is rewritten, published policies never change. */
  lemma {:induction false} NothingIsTakenBack(log: seq<Event>, more: seq<Event>)
    requires log <= more && Legal(more)
    ensures Legal(log) && Grows(Play(log), Play(more))
    decreases |more|
  {
    hide Grows, Enabled, Apply;
    if |log| < |more| {
      var before := more[..|more| - 1];
      NothingIsTakenBack(log, before);
      StepGrows(Play(before), more[|more| - 1]);
      GrowsFurther(Play(log), Play(before), Play(more));
    } else {
      assert log == more;
      GrowsNothing(Play(log));
    }
  }

  lemma GrowsNothing(s: State)
    ensures Grows(s, s)
  {
  }

  lemma Extend(log: seq<Event>, e: Event)
    requires Legal(log) && Enabled(Play(log), e)
    ensures Legal(log + [e]) && Play(log + [e]) == Apply(Play(log), e)
  {
  }

  // ----- The evaluation of one user, on one state -----

  datatype Verdict = ProBypass | UsdcOpen | PersistedUnlock(unlock: Unlock) | NoPolicy | ByPolicy(key: PolicyKey, level: int, missing: set<ModuleId>)

  ghost predicate HasActive(s: State, vault: Vault) {
    exists version :: IsActive(s, (vault, version))
  }

  /** The published active policy of the vault with the highest version; there is at most one. */
  ghost function ActivePolicy(s: State, vault: Vault): PolicyKey
    requires HasActive(s, vault)
  {
    var version :| IsActive(s, (vault, version));
    (vault, version)
  }

  ghost function Evaluate(s: State, u: User, vault: Vault, usdc: bool): Verdict
    requires u in s.users
  {
    var profile := s.users[u];
    if profile.mode != Some(LITE) then ProBypass
    else if usdc then UsdcOpen
    else if (u, vault) in s.unlocks then PersistedUnlock(s.unlocks[(u, vault)])
    else ByItsPolicy(s, u, vault)
  }

  ghost function ByItsPolicy(s: State, u: User, vault: Vault): Verdict
    requires u in s.users
  {
    if !HasActive(s, vault) then NoPolicy
    else
      var key := ActivePolicy(s, vault);
      ByPolicy(key, LevelOf(s.users[u]), s.policies[key].required - s.users[u].completed)
  }

  ghost predicate IsEligible(s: State, verdict: Verdict) {
    match verdict
    case NoPolicy => false
    case ByPolicy(key, level, missing) => key in s.policies && level >= s.policies[key].minimumLevel && missing == {}
    case _ => true
  }

  ghost predicate Eligible(s: State, u: User, vault: Vault, usdc: bool)
    requires u in s.users
  {
    IsEligible(s, Evaluate(s, u, vault, usdc))
  }

  /**
   Who is eligible, by the rows alone: anybody outside Lite mode or for a USDC vault, whoever holds the unlock, and whoever
   meets the vault's active policy in level and modules, where no account counts as level 0.
   */
  lemma EligibleExactly(log: seq<Event>, u: User, vault: Vault, usdc: bool)
    requires Legal(log) && u in Play(log).users
    ensures var s := Play(log);
            Eligible(s, u, vault, usdc) <==>
              || s.users[u].mode != Some(LITE)
              || usdc
              || (u, vault) in s.unlocks
              || exists v: int :: (vault, v) in s.policies && s.policies[(vault, v)].active
                   && s.policies[(vault, v)].minimumLevel <= (if s.users[u].level == None then 0 else s.users[u].level.value)
                   && s.policies[(vault, v)].required <= s.users[u].completed
  {
    EveryRunKeepsInv(log);
    var s := Play(log);
    hide Run, Legal, Play;
    assert forall v: int :: (vault, v) in s.policies && s.policies[(vault, v)].active ==> IsActive(s, (vault, v));
    if HasActive(s, vault) {
      var key := ActivePolicy(s, vault);
      var required, completed := s.policies[key].required, s.users[u].completed;
      assert key == (vault, key.1) && IsActive(s, key);
      assert required - completed == {} <==> required <= completed by {
        assert forall m :: m in required && m !in completed ==> m in required - completed;
      }
    }
  }

  /** Who has been granted a vault in Lite mode stays eligible for it, whatever is published later, until deleted. */
  lemma GrantedStaysEligible(log: seq<Event>, more: seq<Event>, u: User, vault: Vault, usdc: bool)
    requires log <= more && Legal(more)
    ensures Legal(log)
    ensures (u, vault) in Play(log).unlocks ==>
              u in Play(more).users && (u !in Play(more).gone ==> Eligible(Play(more), u, vault, usdc))
  {
    NothingIsTakenBack(log, more);
    EveryRunKeepsInv(log);
    EveryRunKeepsInv(more);
    if (u, vault) in Play(log).unlocks {
      assert Justified(Play(log), (u, vault));
      assert u !in Play(more).gone ==> Justified(Play(more), (u, vault));
    }
  }

  /**
   What writing a policy does, row by row. A published one is not touched, nor is anything else then. Otherwise the
   policy is as requested; publishing takes `active` from the vault's other versions and from nothing else; and it
   unlocks the vault for exactly the Lite users without an unlock whose XP account and modules meet it.
   */
  ghost predicate UpsertEffect(s: State, t: State, vault: Vault, version: int, minimumLevel: int, required: set<ModuleId>, publish: bool) {
    if (vault, version) in s.policies && s.policies[(vault, version)].published then t == s
    else
      && t.users == s.users && t.gone == s.gone && t.evaluations == s.evaluations
      && (forall k: PolicyKey :: k != (vault, version) ==> (k in t.policies <==> k in s.policies))
      && (forall k :: k in s.policies && k.0 != vault ==> t.policies[k] == s.policies[k])
      && (forall k :: k in s.policies && k.0 == vault && k.1 != version ==>
            t.policies[k] == Policy(s.policies[k].minimumLevel, s.policies[k].required, s.policies[k].active && !publish, s.policies[k].published))
      && (vault, version) in t.policies && t.policies[(vault, version)] == Policy(minimumLevel, required, publish, publish)
      && (forall p :: p in s.unlocks ==> p in t.unlocks && t.unlocks[p] == s.unlocks[p])
      && (forall p :: p !in s.unlocks ==>
            (p in t.unlocks <==>
               && publish && p.1 == vault && p.0 in s.users && s.users[p.0].mode == Some(LITE) && s.users[p.0].level.Some?
               && s.users[p.0].level.value >= minimumLevel && forall m :: m in required ==> m in s.users[p.0].completed))
      && (forall p :: p in t.unlocks && p !in s.unlocks ==>
            p.0 in s.users && s.users[p.0].level.Some? && t.unlocks[p] == Unlock(version, s.users[p.0].level.value))
  }

  lemma UpsertHasItsEffect(s: State, call: CallId, vault: Vault, version: int, minimumLevel: int, required: set<ModuleId>, publish: bool)
    ensures UpsertEffect(s, Apply(s, Upsert(call, vault, version, minimumLevel, required, publish)), vault, version, minimumLevel, required, publish)
  {
  }

  /**
   Writing a policy leaves the other vaults as they are: what they ask for, and what the evaluation by policy says of
   anybody. In its own vault exactly the new version is active after a publication.
   */
  lemma UpsertSparesOtherVaults(s: State, call: CallId, vault: Vault, version: int, minimumLevel: int, required: set<ModuleId>,
                                publish: bool, other: Vault, u: User)
    requires Inv(s) && u in s.users
    ensures var t := Apply(s, Upsert(call, vault, version, minimumLevel, required, publish));
            && u in t.users
            && (other != vault ==> (HasActive(t, other) <==> HasActive(s, other)) && ByItsPolicy(t, u, other) == ByItsPolicy(s, u, other))
            && (publish && !IsPublished(s, (vault, version)) ==>
                  forall v: int :: (vault, v) in t.policies && t.policies[(vault, v)].active <==> v == version)
  {
    var e := Upsert(call, vault, version, minimumLevel, required, publish);
    var t := Apply(s, e);
    StepKeepsInv(s, e);
    UpsertHasItsEffect(s, call, vault, version, minimumLevel, required, publish);
    hide Apply, AfterUpsert;
    if other != vault {
      assert forall v: int :: IsActive(t, (other, v)) <==> IsActive(s, (other, v));
      if HasActive(s, other) {
        var v :| IsActive(s, (other, v));
        assert IsActive(t, (other, v));
        assert ActivePolicy(s, other) == ActivePolicy(t, other) == (other, v);
      }
    }
  }

  /** A publication touches the unlocks of nobody else: other vaults, PRO users, users who do not meet it. */
  lemma PublishUnlocksNobodyElse(s: State, vault: Vault, version: int, minimumLevel: int, required: set<ModuleId>, p: (User, Vault))
    requires p !in s.unlocks
    ensures p in AfterUpsert(s, vault, version, minimumLevel, required, true).unlocks ==>
              && p.1 == vault && p.0 in s.users && s.users[p.0].mode == Some(LITE) && s.users[p.0].level.Some?
              && Meets(LevelOf(s.users[p.0]), s.users[p.0].completed, minimumLevel, required)
  {
  }

  /**
   The bulk form and the single evaluation agree: after a publication, a Lite user is unlocked exactly if
   the evaluation finds the user eligible, but for those who have no XP account and would need none. Nobody else is.
   */
  lemma PublishUnlocksTheEligible(s: State, vault: Vault, version: int, minimumLevel: int, required: set<ModuleId>, u: User)
    requires Inv(s) && !IsPublished(s, (vault, version)) && u in s.users && s.users[u].mode == Some(LITE)
    ensures var t := Apply(s, Upsert(0, vault, version, minimumLevel, required, true));
            && u in t.users && IsActive(t, (vault, version))
            && ((u, vault) in t.unlocks ==> Eligible(t, u, vault, false))
            && (Eligible(t, u, vault, false) ==>
                  ((u, vault) in t.unlocks <==> s.users[u].level.Some? || (u, vault) in s.unlocks))
            && forall p :: p in t.unlocks && p !in s.unlocks ==>
                 && p.1 == vault && p.0 in s.users && s.users[p.0].mode == Some(LITE)
                 && Meets(LevelOf(s.users[p.0]), s.users[p.0].completed, minimumLevel, required)
  {
    var e := Upsert(0, vault, version, minimumLevel, required, true);
    var t := Apply(s, e);
    StepKeepsInv(s, e);
    assert IsActive(t, (vault, version));
    assert HasActive(t, vault);
    assert ActivePolicy(t, vault) == (vault, version);
    assert required - s.users[u].completed == {} ==> required <= s.users[u].completed by {
      forall m | m in required && m !in s.users[u].completed ensures m in required - s.users[u].completed {
      }
    }
    forall p | p in t.unlocks && p !in s.unlocks
      ensures && p.1 == vault && p.0 in s.users && s.users[p.0].mode == Some(LITE)
              && Meets(LevelOf(s.users[p.0]), s.users[p.0].completed, minimumLevel, required)
    {
      PublishUnlocksNobodyElse(s, vault, version, minimumLevel, required, p);
    }
    if (u, vault) !in s.unlocks && s.users[u].level.Some? && Eligible(t, u, vault, false) {
      assert u in Qualified(s, vault, minimumLevel, required);
    }
  }

  /**
   The exception is real: a policy without a minimum level and without modules is published, and a Lite user who
   never earned a point is eligible for the vault by evaluation and has no unlock.
   */
  lemma NoAccountIsPassedOver(u: User, vault: Vault, version: int)
    ensures var log := [Join(u), Choose(u, LITE), Upsert(0, vault, version, 0, {}, true)];
            && Legal(log) && u in Play(log).users && Play(log).users[u].mode == Some(LITE)
            && Eligible(Play(log), u, vault, false) && (u, vault) !in Play(log).unlocks
  {
    var first, second := [Join(u)], [Join(u), Choose(u, LITE)];
    var log := second + [Upsert(0, vault, version, 0, {}, true)];
    assert Legal([]) && Play([]) == Empty;
    Extend([], Join(u));
    assert [] + [Join(u)] == first;
    Extend(first, Choose(u, LITE));
    assert first + [Choose(u, LITE)] == second;
    Extend(second, Upsert(0, vault, version, 0, {}, true));
    assert log == [Join(u), Choose(u, LITE), Upsert(0, vault, version, 0, {}, true)];
    EveryRunKeepsInv(second);
    PublishUnlocksTheEligible(Play(second), vault, version, 0, {}, u);
    assert IsActive(Play(log), (vault, version));
    EveryRunKeepsInv(log);
    assert ActivePolicy(Play(log), vault) == (vault, version);
  }

  /** At most one policy of a vault is active, and an active one is published, in every reachable state. */
  lemma OneActivePolicy(log: seq<Event>, k: PolicyKey, l: PolicyKey)
    requires Legal(log) && k in Play(log).policies && Play(log).policies[k].active
    ensures Play(log).policies[k].published
    ensures l in Play(log).policies && Play(log).policies[l].active && l.0 == k.0 ==> l == k
  {
    EveryRunKeepsInv(log);
  }
}
