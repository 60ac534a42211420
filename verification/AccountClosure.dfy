/**
 Closing a user's Stellar account (src/wallets/stellar.service.ts, `buildAccountClosureXdr`).

 The builder emits a program for the network: pay every balance to the Treasury, remove every trust
 line, merge the account. The network below executes it operation by operation, all or nothing.
 Amounts are counted in units of 10^-7.
 */
module AccountClosure {
  import opened Common

  type Address = nat
  datatype Asset = Asset(code: nat, issuer: Address)

  // ----- The network -----

  /** `poolUses` counts the liquidity pools that need the line; liabilities belong to open offers. */
  datatype Line = Line(balance: nat, limit: nat, buying: nat, selling: nat, poolUses: nat)
  datatype LineId = Credit(asset: Asset) | PoolShares(pool: nat)

  /** `entries` are subentries other than trust lines; `room` is how much XLM can still arrive. */
  datatype Account = Account(native: nat, room: nat, lines: map<LineId, Line>, entries: nat, sponsoring: nat)

  type Ledger = map<Address, Account>

  datatype Operation =
    | Payment(source: Address, destination: Address, asset: Asset, amount: nat)
    | RemoveTrust(source: Address, asset: Asset)
    | AccountMerge(source: Address, destination: Address)

  predicate CanSend(net: Ledger, from: Address, asset: Asset, amount: nat) {
    && from in net && Credit(asset) in net[from].lines
    && amount + net[from].lines[Credit(asset)].selling <= net[from].lines[Credit(asset)].balance
  }

  predicate CanReceive(net: Ledger, to: Address, asset: Asset, amount: nat) {
    && to in net && Credit(asset) in net[to].lines
    && var line := net[to].lines[Credit(asset)];
    && line.balance + amount + line.buying <= line.limit
  }

  function WithBalance(net: Ledger, who: Address, asset: Asset, balance: nat): Ledger
    requires who in net && Credit(asset) in net[who].lines
  {
    var account := net[who];
    net[who := account.(lines := account.lines[Credit(asset) := account.lines[Credit(asset)].(balance := balance)])]
  }

  function Balance(net: Ledger, who: Address, asset: Asset): nat {
    if who in net && Credit(asset) in net[who].lines then net[who].lines[Credit(asset)].balance else 0
  }

  function Execute(net: Ledger, op: Operation): Option<Ledger> {
    match op
    case Payment(from, to, asset, amount) =>
      if amount == 0 || from == to || !CanSend(net, from, asset, amount) || !CanReceive(net, to, asset, amount) then None
      else
        var paid := WithBalance(net, from, asset, Balance(net, from, asset) - amount);
        Some(WithBalance(paid, to, asset, Balance(net, to, asset) + amount))
    case RemoveTrust(who, asset) =>
      if who !in net || Credit(asset) !in net[who].lines then None
      else
        var line := net[who].lines[Credit(asset)];
        if line.balance != 0 || line.buying != 0 || line.poolUses != 0 then None
        else Some(net[who := net[who].(lines := net[who].lines - {Credit(asset)})])
    case AccountMerge(from, to) =>
      if from == to || from !in net || to !in net then None
      else if net[from].lines != map[] || net[from].entries != 0 || net[from].sponsoring != 0 then None
      else if net[to].room < net[from].native then None
      else
        var merged := net[to].(native := net[to].native + net[from].native, room := net[to].room - net[from].native);
        Some(net[to := merged] - {from})
  }

  /** A transaction is all or nothing: the first failing operation rejects it. */
  function Run(net: Ledger, ops: seq<Operation>): Option<Ledger> {
    if ops == [] then Some(net)
    else match Execute(net, ops[0])
         case None => None
         case Some(next) => Run(next, ops[1..])
  }

  lemma {:induction false} RunAppend(net: Ledger, first: seq<Operation>, second: seq<Operation>)
    ensures Run(net, first + second) ==
            match Run(net, first) case None => None case Some(mid) => Run(mid, second)
  {
    if first == [] {
      assert first + second == second;
    } else {
      assert (first + second)[1..] == first[1..] + second;
      var next := Execute(net, first[0]);
      if next.Some? {
        RunAppend(next.value, first[1..], second);
      }
    }
  }

  // ----- The builder -----

  /** One entry of the balances Horizon lists for an account. */
  datatype Listed = ListedNative(native: nat) | ListedCredit(asset: Asset, balance: nat, buying: nat) | ListedPool(pool: nat, shares: nat)

  datatype Sweep = Sweep(asset: Asset, amount: nat)

  datatype Closure = Closure(ops: seq<Operation>, sweeps: seq<Sweep>)

  datatype ClosureError = OpenOrderBuying(asset: Asset)

  /** The trust lines the closure removes: the credit lines, in the order listed. */
  function LinesOf(listed: seq<Listed>): seq<Asset> {
    if listed == [] then []
    else LinesOf(listed[..|listed| - 1]) + match listed[|listed| - 1] case ListedCredit(asset, _, _) => [asset] case _ => []
  }

  function SweepsOf(listed: seq<Listed>): seq<Sweep> {
    if listed == [] then []
    else
      SweepsOf(listed[..|listed| - 1]) +
      match listed[|listed| - 1]
      case ListedCredit(asset, balance, _) => if balance > 0 then [Sweep(asset, balance)] else []
      case _ => []
  }

  predicate HasOpenOrder(entry: Listed) {
    entry.ListedCredit? && entry.buying > 0
  }

  function Payments(user: Address, treasury: Address, sweeps: seq<Sweep>): seq<Operation> {
    seq(|sweeps|, i requires 0 <= i < |sweeps| => Payment(user, treasury, sweeps[i].asset, sweeps[i].amount))
  }

  function Removals(user: Address, assets: seq<Asset>): seq<Operation> {
    seq(|assets|, i requires 0 <= i < |assets| => RemoveTrust(user, assets[i]))
  }

  /** Sweeps first, then the lines, then the merge: neither step works before the one it follows. */
  function Program(user: Address, treasury: Address, listed: seq<Listed>): seq<Operation> {
    Payments(user, treasury, SweepsOf(listed)) + Removals(user, LinesOf(listed)) + [AccountMerge(user, treasury)]
  }

  method BuildAccountClosure(user: Address, treasury: Address, balances: seq<Listed>) returns (r: Result<Closure, ClosureError>)
    ensures r.Ok? <==> forall i :: 0 <= i < |balances| ==> !HasOpenOrder(balances[i])
    ensures r.Ok? ==> r.value == Closure(Program(user, treasury, balances), SweepsOf(balances))
    ensures r.Err? ==> exists i :: 0 <= i < |balances| && HasOpenOrder(balances[i]) && r.error == OpenOrderBuying(balances[i].asset)
  {
    var sweeps: seq<Sweep> := [];
    var trustlinesToRemove: seq<Asset> := [];
    for i := 0 to |balances|
      invariant forall k :: 0 <= k < i ==> !HasOpenOrder(balances[k])
      invariant sweeps == SweepsOf(balances[..i]) && trustlinesToRemove == LinesOf(balances[..i])
    {
      assert balances[..i + 1][..i] == balances[..i];
      var line := balances[i];
      if line.ListedCredit? {
        if line.buying > 0 {
          return Err(OpenOrderBuying(line.asset));
        }
        trustlinesToRemove := trustlinesToRemove + [line.asset];
        if line.balance > 0 {
          sweeps := sweeps + [Sweep(line.asset, line.balance)];
        }
      }
    }
    assert balances[..|balances|] == balances;
    var ops: seq<Operation> := [];
    for i := 0 to |sweeps|
      invariant ops == Payments(user, treasury, sweeps)[..i]
    {
      ops := ops + [Payment(user, treasury, sweeps[i].asset, sweeps[i].amount)];
    }
    var paid := |ops|;
    for i := 0 to |trustlinesToRemove|
      invariant ops == Payments(user, treasury, sweeps) + Removals(user, trustlinesToRemove)[..i]
    {
      ops := ops + [RemoveTrust(user, trustlinesToRemove[i])];
    }
    ops := ops + [AccountMerge(user, treasury)];
    r := Ok(Closure(ops, sweeps));
  }

  // ----- What the program does -----

  /** Horizon lists each trust line of the account once, and its native balance. */
  ghost predicate Lists(account: Account, listed: seq<Listed>) {
    && (forall i, j :: 0 <= i < j < |listed| && listed[i].ListedCredit? && listed[j].ListedCredit? ==>
          listed[i].asset != listed[j].asset)
    && (forall i :: 0 <= i < |listed| && listed[i].ListedCredit? ==>
          && Credit(listed[i].asset) in account.lines
          && account.lines[Credit(listed[i].asset)].balance == listed[i].balance
          && account.lines[Credit(listed[i].asset)].buying == listed[i].buying)
    && (forall id :: id in account.lines ==>
          exists i :: 0 <= i < |listed| && if id.Credit? then listed[i].ListedCredit? && listed[i].asset == id.asset
                                            else listed[i].ListedPool? && listed[i].pool == id.pool)
  }

  ghost predicate DistinctAssets(sweeps: seq<Sweep>) {
    forall i, j :: 0 <= i < j < |sweeps| ==> sweeps[i].asset != sweeps[j].asset
  }

  ghost predicate Sweepable(net: Ledger, user: Address, treasury: Address, sweep: Sweep) {
    && sweep.amount > 0 && user != treasury
    && CanSend(net, user, sweep.asset, sweep.amount) && CanReceive(net, treasury, sweep.asset, sweep.amount)
  }

  /** How much of the asset the sweeps move in all. */
  function Total(sweeps: seq<Sweep>, id: LineId): nat {
    if sweeps == [] then 0
    else (if Credit(sweeps[0].asset) == id then sweeps[0].amount else 0) + Total(sweeps[1..], id)
  }

  function Debit(account: Account, sweeps: seq<Sweep>): Account {
    account.(lines := map id | id in account.lines ::
      account.lines[id].(balance := if Total(sweeps, id) <= account.lines[id].balance
                                    then account.lines[id].balance - Total(sweeps, id) else 0))
  }

  function Grant(account: Account, sweeps: seq<Sweep>): Account {
    account.(lines := map id | id in account.lines ::
      account.lines[id].(balance := account.lines[id].balance + Total(sweeps, id)))
  }

  /** The ledger after the sweeps: nothing differs but those balances of the user and the Treasury. */
  function Swept(net: Ledger, user: Address, treasury: Address, sweeps: seq<Sweep>): Ledger
    requires user in net && treasury in net
  {
    net[user := Debit(net[user], sweeps)][treasury := Grant(net[treasury], sweeps)]
  }

  lemma FirstSweep(net: Ledger, user: Address, treasury: Address, sweeps: seq<Sweep>)
    requires sweeps != [] && user in net && treasury in net && Sweepable(net, user, treasury, sweeps[0])
    ensures var next := Execute(net, Payment(user, treasury, sweeps[0].asset, sweeps[0].amount));
            && next.Some? && next.value.Keys == net.Keys
            && next.value[user] == Debit(net[user], sweeps[..1])
            && next.value[treasury] == Grant(net[treasury], sweeps[..1])
            && forall who :: who in net && who != user && who != treasury ==> next.value[who] == net[who]
  {
    var asset, amount := sweeps[0].asset, sweeps[0].amount;
    var next := Execute(net, Payment(user, treasury, asset, amount)).value;
    assert forall id :: Total(sweeps[..1], id) == if id == Credit(asset) then amount else 0;
    assert next[user].lines == Debit(net[user], sweeps[..1]).lines;
    assert next[treasury].lines == Grant(net[treasury], sweeps[..1]).lines;
  }

  lemma FirstSweepable(net: Ledger, user: Address, treasury: Address, sweep: Sweep)
    requires user != treasury
    ensures Execute(net, Payment(user, treasury, sweep.asset, sweep.amount)).Some? <==> Sweepable(net, user, treasury, sweep)
  {
  }

  lemma PaymentsFirst(net: Ledger, user: Address, treasury: Address, sweeps: seq<Sweep>)
    requires sweeps != []
    ensures var first := Execute(net, Payment(user, treasury, sweeps[0].asset, sweeps[0].amount));
            Run(net, Payments(user, treasury, sweeps)) ==
            if first.None? then None else Run(first.value, Payments(user, treasury, sweeps[1..]))
  {
    assert Payments(user, treasury, sweeps)[1..] == Payments(user, treasury, sweeps[1..]);
  }

  lemma TotalSplits(sweeps: seq<Sweep>, id: LineId)
    requires sweeps != []
    ensures Total(sweeps, id) == Total(sweeps[..1], id) + Total(sweeps[1..], id)
  {
  }

  lemma DebitRest(account: Account, sweeps: seq<Sweep>)
    requires sweeps != []
    requires forall id :: id in account.lines ==> Total(sweeps, id) <= account.lines[id].balance
    ensures Debit(Debit(account, sweeps[..1]), sweeps[1..]) == Debit(account, sweeps)
  {
    forall id ensures Total(sweeps, id) == Total(sweeps[..1], id) + Total(sweeps[1..], id) {
      TotalSplits(sweeps, id);
    }
    hide Total;
    var twice, once := Debit(Debit(account, sweeps[..1]), sweeps[1..]).lines, Debit(account, sweeps).lines;
    assert twice.Keys == once.Keys;
    forall id | id in once ensures twice[id] == once[id] {
      assert Total(sweeps, id) <= account.lines[id].balance;
    }
    assert twice == once;
  }

  lemma GrantRest(account: Account, sweeps: seq<Sweep>)
    requires sweeps != []
    ensures Grant(Grant(account, sweeps[..1]), sweeps[1..]) == Grant(account, sweeps)
  {
    forall id ensures Total(sweeps, id) == Total(sweeps[..1], id) + Total(sweeps[1..], id) {
      TotalSplits(sweeps, id);
    }
    hide Total;
    assert Grant(Grant(account, sweeps[..1]), sweeps[1..]).lines == Grant(account, sweeps).lines;
  }

  lemma {:induction false} TotalOfAbsent(sweeps: seq<Sweep>, id: LineId)
    requires forall i :: 0 <= i < |sweeps| ==> Credit(sweeps[i].asset) != id
    ensures Total(sweeps, id) == 0
  {
    if sweeps != [] {
      TotalOfAbsent(sweeps[1..], id);
    }
  }

  lemma {:induction false} TotalOfSweep(sweeps: seq<Sweep>, i: nat)
    requires DistinctAssets(sweeps) && i < |sweeps|
    ensures Total(sweeps, Credit(sweeps[i].asset)) == sweeps[i].amount
  {
    if i == 0 {
      TotalOfAbsent(sweeps[1..], Credit(sweeps[0].asset));
    } else {
      TotalOfSweep(sweeps[1..], i - 1);
    }
  }

  /** Paying one asset changes nothing about whether another one can be paid. */
  lemma OthersUnaffected(net: Ledger, next: Ledger, user: Address, treasury: Address, sweeps: seq<Sweep>, i: nat)
    requires DistinctAssets(sweeps) && 1 <= i < |sweeps| && user in net && treasury in net && user != treasury
    requires next.Keys == net.Keys && next[user] == Debit(net[user], sweeps[..1])
    requires next[treasury] == Grant(net[treasury], sweeps[..1])
    ensures Sweepable(next, user, treasury, sweeps[i]) <==> Sweepable(net, user, treasury, sweeps[i])
  {
    assert Total(sweeps[..1], Credit(sweeps[i].asset)) == 0;
  }

  ghost predicate AllSweepable(net: Ledger, user: Address, treasury: Address, sweeps: seq<Sweep>) {
    forall i :: 0 <= i < |sweeps| ==> Sweepable(net, user, treasury, sweeps[i])
  }

  lemma RestSweepable(net: Ledger, next: Ledger, user: Address, treasury: Address, sweeps: seq<Sweep>)
    requires DistinctAssets(sweeps) && sweeps != [] && user in net && treasury in net && user != treasury
    requires next.Keys == net.Keys && next[user] == Debit(net[user], sweeps[..1])
    requires next[treasury] == Grant(net[treasury], sweeps[..1])
    ensures AllSweepable(net, user, treasury, sweeps) <==>
            Sweepable(net, user, treasury, sweeps[0]) && AllSweepable(next, user, treasury, sweeps[1..])
  {
    hide Sweepable, Debit, Grant;
    forall i | 1 <= i < |sweeps|
      ensures Sweepable(next, user, treasury, sweeps[i]) <==> Sweepable(net, user, treasury, sweeps[i])
    {
      OthersUnaffected(net, next, user, treasury, sweeps, i);
    }
    assert forall i :: 1 <= i < |sweeps| ==> sweeps[1..][i - 1] == sweeps[i];
  }

  lemma SweptRest(net: Ledger, next: Ledger, user: Address, treasury: Address, sweeps: seq<Sweep>)
    requires DistinctAssets(sweeps) && sweeps != [] && user in net && treasury in net && user != treasury
    requires AllSweepable(net, user, treasury, sweeps)
    requires next.Keys == net.Keys && next[user] == Debit(net[user], sweeps[..1])
    requires next[treasury] == Grant(net[treasury], sweeps[..1])
    requires forall who :: who in net && who != user && who != treasury ==> next[who] == net[who]
    ensures Swept(next, user, treasury, sweeps[1..]) == Swept(net, user, treasury, sweeps)
  {
    hide Sweepable, Debit, Grant, Total;
    TotalsFit(net, user, treasury, sweeps);
    DebitRest(net[user], sweeps);
    GrantRest(net[treasury], sweeps);
  }

  lemma {:induction false} RunPayments(net: Ledger, user: Address, treasury: Address, sweeps: seq<Sweep>)
    requires user in net && treasury in net && user != treasury && DistinctAssets(sweeps)
    ensures var r := Run(net, Payments(user, treasury, sweeps));
            && (r.Some? <==> AllSweepable(net, user, treasury, sweeps))
            && (r.Some? ==> r.value == Swept(net, user, treasury, sweeps))
    decreases |sweeps|
  {
    if sweeps == [] {
      assert Debit(net[user], sweeps).lines == net[user].lines && Grant(net[treasury], sweeps).lines == net[treasury].lines;
    } else {
      hide Execute, Run, Payments, Sweepable, AllSweepable, Debit, Grant, Swept;
      PaymentsFirst(net, user, treasury, sweeps);
      FirstSweepable(net, user, treasury, sweeps[0]);
      if Sweepable(net, user, treasury, sweeps[0]) {
        FirstSweep(net, user, treasury, sweeps);
        var next := Execute(net, Payment(user, treasury, sweeps[0].asset, sweeps[0].amount)).value;
        RunPayments(next, user, treasury, sweeps[1..]);
        RestSweepable(net, next, user, treasury, sweeps);
        if AllSweepable(net, user, treasury, sweeps) {
          SweptRest(net, next, user, treasury, sweeps);
        }
      } else if AllSweepable(net, user, treasury, sweeps) {
        FirstIsNeeded(net, user, treasury, sweeps);
      }
    }
  }

  lemma FirstIsNeeded(net: Ledger, user: Address, treasury: Address, sweeps: seq<Sweep>)
    requires sweeps != [] && AllSweepable(net, user, treasury, sweeps)
    ensures Sweepable(net, user, treasury, sweeps[0])
  {
  }

  lemma TotalsFit(net: Ledger, user: Address, treasury: Address, sweeps: seq<Sweep>)
    requires DistinctAssets(sweeps) && user in net
    requires AllSweepable(net, user, treasury, sweeps)
    ensures forall id :: id in net[user].lines ==> Total(sweeps, id) <= net[user].lines[id].balance
  {
    forall id | id in net[user].lines ensures Total(sweeps, id) <= net[user].lines[id].balance {
      if i :| 0 <= i < |sweeps| && Credit(sweeps[i].asset) == id {
        TotalOfSweep(sweeps, i);
        assert Sweepable(net, user, treasury, sweeps[i]);
      } else {
        TotalOfAbsent(sweeps, id);
      }
    }
  }

  ghost predicate Removable(account: Account, asset: Asset) {
    && Credit(asset) in account.lines
    && account.lines[Credit(asset)].balance == 0
    && account.lines[Credit(asset)].buying == 0
    && account.lines[Credit(asset)].poolUses == 0
  }

  function Ids(assets: seq<Asset>): set<LineId> {
    set asset | asset in assets :: Credit(asset)
  }

  lemma {:induction false} RunRemovals(net: Ledger, user: Address, assets: seq<Asset>)
    requires user in net
    requires forall i, j :: 0 <= i < j < |assets| ==> assets[i] != assets[j]
    ensures var r := Run(net, Removals(user, assets));
            && (r.Some? <==> forall i :: 0 <= i < |assets| ==> Removable(net[user], assets[i]))
            && (r.Some? ==> r.value == net[user := net[user].(lines := net[user].lines - Ids(assets))])
    decreases |assets|
  {
    if assets == [] {
      assert net[user].lines - Ids(assets) == net[user].lines;
    } else {
      assert Removals(user, assets)[1..] == Removals(user, assets[1..]);
      if Removable(net[user], assets[0]) {
        var next := net[user := net[user].(lines := net[user].lines - {Credit(assets[0])})];
        assert Execute(net, RemoveTrust(user, assets[0])) == Some(next);
        RunRemovals(next, user, assets[1..]);
        forall i | 1 <= i < |assets|
          ensures Removable(next[user], assets[1..][i - 1]) <==> Removable(net[user], assets[i])
        {
          assert assets[0] != assets[i];
        }
        assert Ids(assets) == Ids(assets[1..]) + {Credit(assets[0])};
        assert next[user].lines - Ids(assets[1..]) == net[user].lines - Ids(assets);
        assert next[user := next[user].(lines := net[user].lines - Ids(assets))] ==
               net[user := net[user].(lines := net[user].lines - Ids(assets))];
      }
    }
  }

  // ----- What the listing yields -----

  lemma {:induction false} LinesListed(listed: seq<Listed>, asset: Asset)
    ensures asset in LinesOf(listed) <==>
            exists i :: 0 <= i < |listed| && listed[i].ListedCredit? && listed[i].asset == asset
  {
    if listed != [] {
      LinesListed(listed[..|listed| - 1], asset);
    }
  }

  lemma {:induction false} SweepsListed(listed: seq<Listed>, sweep: Sweep)
    ensures sweep in SweepsOf(listed) <==>
            exists i :: 0 <= i < |listed| && listed[i].ListedCredit? && listed[i].asset == sweep.asset
                        && listed[i].balance == sweep.amount && sweep.amount > 0
  {
    if listed != [] {
      SweepsListed(listed[..|listed| - 1], sweep);
    }
  }

  ghost predicate ListedOnce(listed: seq<Listed>) {
    forall i, j :: 0 <= i < j < |listed| && listed[i].ListedCredit? && listed[j].ListedCredit? ==>
      listed[i].asset != listed[j].asset
  }

  lemma {:induction false} ListedAreDistinct(listed: seq<Listed>)
    requires ListedOnce(listed)
    ensures DistinctAssets(SweepsOf(listed))
    ensures forall i, j :: 0 <= i < j < |LinesOf(listed)| ==> LinesOf(listed)[i] != LinesOf(listed)[j]
  {
    if listed != [] {
      var before, entry := listed[..|listed| - 1], listed[|listed| - 1];
      ListedAreDistinct(before);
      if entry.ListedCredit? {
        LinesListed(before, entry.asset);
        forall i | 0 <= i < |SweepsOf(before)| ensures SweepsOf(before)[i].asset != entry.asset {
          SweepsListed(before, SweepsOf(before)[i]);
        }
      }
    }
  }

  // ----- The closure -----

  /** A line of this asset on which, besides its own balance and buying offers, the amount is within the limit. */
  predicate HasRoom(account: Account, id: LineId, amount: nat) {
    id in account.lines && account.lines[id].balance + account.lines[id].buying + amount <= account.lines[id].limit
  }

  /** What the network asks of the account, line by line, and of the Treasury. */
  ghost predicate Closable(net: Ledger, user: Address, treasury: Address)
    requires user in net && treasury in net
  {
    && (forall id :: id in net[user].lines ==>
          && id.Credit?
          && var line := net[user].lines[id];
          && line.buying == 0 && line.poolUses == 0
          && (line.balance > 0 ==> line.selling == 0 && HasRoom(net[treasury], id, line.balance)))
    && net[user].entries == 0 && net[user].sponsoring == 0
    && net[user].native <= net[treasury].room
  }

  /** The ledger after a closure: the user is gone and all it held is the Treasury's. */
  function Closed(net: Ledger, user: Address, treasury: Address): Ledger
    requires user in net && treasury in net
  {
    var t := net[treasury];
    var lines := map id | id in t.lines ::
      t.lines[id].(balance := t.lines[id].balance + if id in net[user].lines then net[user].lines[id].balance else 0);
    var room := if net[user].native <= t.room then t.room - net[user].native else 0;
    net[treasury := Account(t.native + net[user].native, room, lines, t.entries, t.sponsoring)] - {user}
  }

  lemma SweepTotals(net: Ledger, user: Address, listed: seq<Listed>)
    requires user in net && Lists(net[user], listed)
    ensures ListedOnce(listed)
    ensures forall id :: id in net[user].lines && id.Credit? ==> Total(SweepsOf(listed), id) == net[user].lines[id].balance
    ensures forall id :: id !in net[user].lines || id.PoolShares? ==> Total(SweepsOf(listed), id) == 0
  {
    var sweeps := SweepsOf(listed);
    ListedAreDistinct(listed);
    forall id ensures Total(sweeps, id) == if id in net[user].lines && id.Credit? then net[user].lines[id].balance else 0 {
      if k :| 0 <= k < |sweeps| && Credit(sweeps[k].asset) == id {
        TotalOfSweep(sweeps, k);
        SweepsListed(listed, sweeps[k]);
      } else {
        TotalOfAbsent(sweeps, id);
        if id in net[user].lines && id.Credit? {
          var sweep := Sweep(id.asset, net[user].lines[id].balance);
          SweepsListed(listed, sweep);
        }
      }
    }
  }

  lemma SweepableIffReceivable(net: Ledger, user: Address, treasury: Address, listed: seq<Listed>)
    requires user in net && treasury in net && user != treasury && Lists(net[user], listed)
    ensures AllSweepable(net, user, treasury, SweepsOf(listed)) <==>
            forall id :: id in net[user].lines && id.Credit? && net[user].lines[id].balance > 0 ==>
              net[user].lines[id].selling == 0 && HasRoom(net[treasury], id, net[user].lines[id].balance)
  {
    var sweeps := SweepsOf(listed);
    forall i | 0 <= i < |sweeps|
      ensures Credit(sweeps[i].asset) in net[user].lines && sweeps[i].amount > 0
              && net[user].lines[Credit(sweeps[i].asset)].balance == sweeps[i].amount
    {
      SweepsListed(listed, sweeps[i]);
    }
    forall id | id in net[user].lines && id.Credit? && net[user].lines[id].balance > 0
      ensures exists i :: 0 <= i < |sweeps| && sweeps[i] == Sweep(id.asset, net[user].lines[id].balance)
    {
      SweepsListed(listed, Sweep(id.asset, net[user].lines[id].balance));
    }
  }

  /** After the sweeps every credit line of the user is empty, so only its other uses can hold it. */
  lemma RemovableAfterSweeps(net: Ledger, user: Address, treasury: Address, listed: seq<Listed>)
    requires user in net && treasury in net && user != treasury && Lists(net[user], listed)
    ensures var mid := Swept(net, user, treasury, SweepsOf(listed));
            (forall i :: 0 <= i < |LinesOf(listed)| ==> Removable(mid[user], LinesOf(listed)[i])) <==>
            (forall id :: id in net[user].lines && id.Credit? ==>
               net[user].lines[id].buying == 0 && net[user].lines[id].poolUses == 0)
    ensures Swept(net, user, treasury, SweepsOf(listed))[user].lines - Ids(LinesOf(listed)) == map[] <==>
            (forall id :: id in net[user].lines ==> id.Credit?)
  {
    var mid := Swept(net, user, treasury, SweepsOf(listed));
    SweepTotals(net, user, listed);
    forall asset ensures asset in LinesOf(listed) <==> Credit(asset) in net[user].lines {
      LinesListed(listed, asset);
    }
    assert mid[user].lines.Keys == net[user].lines.Keys;
    forall id | id in net[user].lines ensures id in Ids(LinesOf(listed)) <==> id.Credit? {
      if id.Credit? {
        assert id.asset in LinesOf(listed);
      }
    }
    if forall id :: id in net[user].lines ==> id.Credit? {
      assert (mid[user].lines - Ids(LinesOf(listed))).Keys == {};
    } else {
      var id :| id in net[user].lines && !id.Credit?;
      assert id in mid[user].lines - Ids(LinesOf(listed));
    }
    forall i | 0 <= i < |LinesOf(listed)|
      ensures Removable(mid[user], LinesOf(listed)[i]) <==>
              net[user].lines[Credit(LinesOf(listed)[i])].buying == 0 && net[user].lines[Credit(LinesOf(listed)[i])].poolUses == 0
    {
      assert LinesOf(listed)[i] in LinesOf(listed);
    }
    forall id | id in net[user].lines && id.Credit? ensures exists i :: 0 <= i < |LinesOf(listed)| && LinesOf(listed)[i] == id.asset {
      assert id.asset in LinesOf(listed);
    }
  }

  lemma ClosedFromSwept(net: Ledger, user: Address, treasury: Address, listed: seq<Listed>)
    requires user in net && treasury in net && user != treasury && Lists(net[user], listed)
    requires net[user].native <= net[treasury].room && (forall id :: id in net[user].lines ==> id.Credit?)
    ensures var mid := Swept(net, user, treasury, SweepsOf(listed));
            var t := mid[treasury];
            mid[treasury := t.(native := t.native + net[user].native, room := t.room - net[user].native)] - {user}
            == Closed(net, user, treasury)
  {
    SweepTotals(net, user, listed);
    var granted := Grant(net[treasury], SweepsOf(listed)).lines;
    assert granted == Closed(net, user, treasury)[treasury].lines;
  }

  /**
   The closure program runs to success exactly when the account can be closed, whatever its number
   of trust lines, and then leaves the ledger where the user is gone and the Treasury holds it all.
   */
  lemma ClosureSucceedsExactlyWhenClosable(net: Ledger, user: Address, treasury: Address, listed: seq<Listed>)
    requires user in net && treasury in net && user != treasury && Lists(net[user], listed)
    ensures var r := Run(net, Program(user, treasury, listed));
            && (r.Some? <==> Closable(net, user, treasury))
            && (r.Some? ==> r.value == Closed(net, user, treasury))
  {
    hide Execute, Run, Payments, Removals, Swept, AllSweepable, Removable, SweepsOf, LinesOf, Ids, CanReceive, Lists;
    var sweeps, assets := SweepsOf(listed), LinesOf(listed);
    var pay, remove, merge := Payments(user, treasury, sweeps), Removals(user, assets), [AccountMerge(user, treasury)];
    ListingIsDistinct(net[user], listed);
    RunAppend(net, pay + remove, merge);
    RunAppend(net, pay, remove);
    RunPayments(net, user, treasury, sweeps);
    SweepableIffReceivable(net, user, treasury, listed);
    if AllSweepable(net, user, treasury, sweeps) {
      var mid := Swept(net, user, treasury, sweeps);
      SweptKeeps(net, user, treasury, sweeps);
      RunRemovals(mid, user, assets);
      RemovableAfterSweeps(net, user, treasury, listed);
      if forall i :: 0 <= i < |assets| ==> Removable(mid[user], assets[i]) {
        var bare := mid[user := mid[user].(lines := mid[user].lines - Ids(assets))];
        RunMerge(bare, user, treasury);
        if Closable(net, user, treasury) {
          ClosedFromSwept(net, user, treasury, listed);
          assert bare[treasury := bare[treasury].(native := bare[treasury].native + net[user].native,
                                                  room := bare[treasury].room - net[user].native)] - {user}
                 == Closed(net, user, treasury);
        }
      }
    }
  }

  lemma ListingIsDistinct(account: Account, listed: seq<Listed>)
    requires Lists(account, listed)
    ensures DistinctAssets(SweepsOf(listed))
    ensures forall i, j :: 0 <= i < j < |LinesOf(listed)| ==> LinesOf(listed)[i] != LinesOf(listed)[j]
  {
    ListedAreDistinct(listed);
  }

  lemma SweptKeeps(net: Ledger, user: Address, treasury: Address, sweeps: seq<Sweep>)
    requires user in net && treasury in net && user != treasury
    ensures var mid := Swept(net, user, treasury, sweeps);
            && mid.Keys == net.Keys
            && mid[user] == net[user].(lines := mid[user].lines)
            && mid[treasury] == net[treasury].(lines := mid[treasury].lines)
  {
  }

  lemma RunMerge(net: Ledger, user: Address, treasury: Address)
    requires user in net && treasury in net && user != treasury
    ensures var r := Run(net, [AccountMerge(user, treasury)]);
            && (r.Some? <==> net[user].lines == map[] && net[user].entries == 0 && net[user].sponsoring == 0
                             && net[user].native <= net[treasury].room)
            && (r.Some? ==> r.value == net[treasury := net[treasury].(native := net[treasury].native + net[user].native,
                                           room := net[treasury].room - net[user].native)] - {user})
  {
  }

  /** Nothing is created or lost: what the two accounts held, of every asset, is the Treasury's. */
  lemma ClosureConserves(net: Ledger, user: Address, treasury: Address, listed: seq<Listed>, asset: Asset, other: Address)
    requires user in net && treasury in net && user != treasury && Lists(net[user], listed)
    requires Run(net, Program(user, treasury, listed)).Some?
    ensures var after := Run(net, Program(user, treasury, listed)).value;
            && user !in after && treasury in after
            && Balance(after, treasury, asset) == Balance(net, user, asset) + Balance(net, treasury, asset)
            && after[treasury].native == net[user].native + net[treasury].native
            && (other != user && other != treasury ==> (other in after <==> other in net))
            && (other != user && other != treasury && other in net ==> after[other] == net[other])
  {
    ClosureSucceedsExactlyWhenClosable(net, user, treasury, listed);
  }
}
