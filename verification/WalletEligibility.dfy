/**
 What the deletion check tells the user about the wallet (src/account-deletion/eligibility.service.ts),
 against what the closure then does with the same balances.
 */
module WalletEligibility {
  import opened AccountClosure

  datatype HeldAsset = Xlm | Named(asset: Asset) | Unnamed
  datatype Held = Held(asset: HeldAsset, amount: nat)

  datatype Blocker = WalletUsdcBalance(amount: nat) | WalletAssetBalance(asset: HeldAsset, amount: nat)
  datatype Residual = Residual(asset: HeldAsset, amount: nat)

  datatype WalletReport = WalletReport(blockers: seq<Blocker>, usdcResidual: nat, assetResiduals: seq<Residual>, sweptTotal: nat)

  /** The non-zero balances, by asset id; a pool share has neither code nor issuer. */
  function HeldOf(entry: Listed): seq<Held> {
    match entry
    case ListedNative(native) => if native > 0 then [Held(Xlm, native)] else []
    case ListedCredit(asset, balance, _) => if balance > 0 then [Held(Named(asset), balance)] else []
    case ListedPool(_, shares) => if shares > 0 then [Held(Unnamed, shares)] else []
  }

  function WalletBalances(listed: seq<Listed>): seq<Held> {
    if listed == [] then [] else WalletBalances(listed[..|listed| - 1]) + HeldOf(listed[|listed| - 1])
  }

  /** A failed read is reported as no balance at all. */
  function ReadWallet(reached: bool, listed: seq<Listed>): seq<Held> {
    if reached then WalletBalances(listed) else []
  }

  function BlockerFor(usdc: Asset, entry: Held): Blocker {
    if entry.asset == Named(usdc) then WalletUsdcBalance(entry.amount) else WalletAssetBalance(entry.asset, entry.amount)
  }

  function Judge(report: WalletReport, entry: Held, usdc: Asset, dust: real): WalletReport {
    if entry.asset == Xlm then report
    else if entry.amount as real > dust then report.(blockers := report.blockers + [BlockerFor(usdc, entry)])
    else if entry.amount == 0 then report
    else if entry.asset == Named(usdc) then
      report.(sweptTotal := report.sweptTotal + entry.amount, usdcResidual := entry.amount)
    else
      report.(sweptTotal := report.sweptTotal + entry.amount,
              assetResiduals := report.assetResiduals + [Residual(entry.asset, entry.amount)])
  }

  function Report(entries: seq<Held>, usdc: Asset, dust: real): WalletReport {
    if entries == [] then WalletReport([], 0, [], 0)
    else Judge(Report(entries[..|entries| - 1], usdc, dust), entries[|entries| - 1], usdc, dust)
  }

  /** The entries other than XLM above dust, in order. */
  function AboveDust(entries: seq<Held>, dust: real): seq<Held> {
    if entries == [] then []
    else
      var last := entries[|entries| - 1];
      AboveDust(entries[..|entries| - 1], dust) + if last.asset != Xlm && last.amount as real > dust then [last] else []
  }

  /** One blocker for each, in the same order: USDC under its own code, and each with its own amount. */
  ghost predicate Blocks(blockers: seq<Blocker>, entries: seq<Held>, usdc: Asset) {
    |blockers| == |entries| && forall k :: 0 <= k < |entries| ==>
      && (entries[k].asset == Named(usdc) ==> blockers[k] == WalletUsdcBalance(entries[k].amount))
      && (entries[k].asset != Named(usdc) ==> blockers[k] == WalletAssetBalance(entries[k].asset, entries[k].amount))
  }

  method CheckWallet(entries: seq<Held>, usdc: Asset, dust: real) returns (report: WalletReport)
    ensures report == Report(entries, usdc, dust)
    ensures Blocks(report.blockers, AboveDust(entries, dust), usdc)
    ensures report.blockers == [] <==>
              forall i :: 0 <= i < |entries| ==> entries[i].asset == Xlm || entries[i].amount as real <= dust
  {
    var blockers: seq<Blocker> := [];
    var assetResiduals: seq<Residual> := [];
    var usdcResidual, sweptTotal: nat := 0, 0;
    for i := 0 to |entries|
      invariant WalletReport(blockers, usdcResidual, assetResiduals, sweptTotal) == Report(entries[..i], usdc, dust)
      invariant Blocks(blockers, AboveDust(entries[..i], dust), usdc)
      invariant blockers == [] <==>
                  forall k :: 0 <= k < i ==> entries[k].asset == Xlm || entries[k].amount as real <= dust
    {
      assert entries[..i + 1][..i] == entries[..i];
      var entry := entries[i];
      if entry.asset == Xlm {
        continue;
      }
      if entry.amount as real > dust {
        blockers := blockers + [BlockerFor(usdc, entry)];
        continue;
      }
      if entry.amount > 0 {
        sweptTotal := sweptTotal + entry.amount;
        if entry.asset == Named(usdc) {
          usdcResidual := entry.amount;
        } else {
          assetResiduals := assetResiduals + [Residual(entry.asset, entry.amount)];
        }
      }
    }
    assert entries[..|entries|] == entries;
    report := WalletReport(blockers, usdcResidual, assetResiduals, sweptTotal);
  }

  // ----- Report and closure agree -----

  function Sum(sweeps: seq<Sweep>): nat {
    if sweeps == [] then 0 else Sum(sweeps[..|sweeps| - 1]) + sweeps[|sweeps| - 1].amount
  }

  /** The swept assets other than USDC, as the report lists them. */
  function OtherResiduals(sweeps: seq<Sweep>, usdc: Asset): seq<Residual> {
    if sweeps == [] then []
    else
      var last := sweeps[|sweeps| - 1];
      OtherResiduals(sweeps[..|sweeps| - 1], usdc) + if last.asset == usdc then [] else [Residual(Named(last.asset), last.amount)]
  }

  ghost predicate NoPools(listed: seq<Listed>) {
    forall i :: 0 <= i < |listed| ==> !listed[i].ListedPool?
  }

  ghost predicate AllDust(sweeps: seq<Sweep>, dust: real) {
    forall i :: 0 <= i < |sweeps| ==> sweeps[i].amount as real <= dust
  }

  lemma {:induction false} TotalGrows(sweeps: seq<Sweep>, last: Sweep, id: LineId)
    ensures Total(sweeps + [last], id) == Total(sweeps, id) + if Credit(last.asset) == id then last.amount else 0
  {
    if sweeps == [] {
      assert sweeps + [last] == [last];
    } else {
      assert (sweeps + [last])[1..] == sweeps[1..] + [last];
      TotalGrows(sweeps[1..], last, id);
    }
  }

  /** The report of a listing follows from the report of what comes before its last entry. */
  lemma ReportStep(listed: seq<Listed>, usdc: Asset, dust: real)
    requires listed != []
    ensures var before := Report(WalletBalances(listed[..|listed| - 1]), usdc, dust);
            Report(WalletBalances(listed), usdc, dust) == Next(before, listed[|listed| - 1], usdc, dust)
  {
    var held, entries := WalletBalances(listed[..|listed| - 1]), WalletBalances(listed);
    if HeldOf(listed[|listed| - 1]) == [] {
      assert entries == held;
    } else {
      assert entries[..|entries| - 1] == held;
    }
  }

  lemma SweepStep(listed: seq<Listed>)
    requires listed != []
    ensures var before, entry := SweepsOf(listed[..|listed| - 1]), listed[|listed| - 1];
            if entry.ListedCredit? && entry.balance > 0 then
              && SweepsOf(listed) == before + [Sweep(entry.asset, entry.balance)]
              && Sum(SweepsOf(listed)) == Sum(before) + entry.balance
            else SweepsOf(listed) == before
  {
  }

  function Next(report: WalletReport, entry: Listed, usdc: Asset, dust: real): WalletReport {
    if HeldOf(entry) == [] then report else Judge(report, HeldOf(entry)[0], usdc, dust)
  }

  function AmountOf(entry: Listed): nat {
    match entry case ListedNative(_) => 0 case ListedCredit(_, balance, _) => balance case ListedPool(_, shares) => shares
  }

  /** A listed entry either blocks or adds its whole amount to the reported total. */
  lemma NextTotal(report: WalletReport, entry: Listed, usdc: Asset, dust: real)
    ensures var next := Next(report, entry, usdc, dust);
            next.blockers == [] ==> report.blockers == [] && next.sweptTotal == report.sweptTotal + AmountOf(entry)
  {
  }

  predicate EntryIsDust(entry: Listed, dust: real) {
    match entry
    case ListedNative(_) => true
    case ListedCredit(_, balance, _) => balance > 0 ==> balance as real <= dust
    case ListedPool(_, shares) => shares > 0 ==> shares as real <= dust
  }

  ghost predicate PoolsAreDust(listed: seq<Listed>, dust: real) {
    forall i :: 0 <= i < |listed| && listed[i].ListedPool? ==> EntryIsDust(listed[i], dust)
  }

  /** On a successful read, of any listing: nothing blocks exactly if every sweep and every pool share is dust. */
  lemma {:induction false} BlockersMatchSweeps(listed: seq<Listed>, usdc: Asset, dust: real)
    ensures Report(WalletBalances(listed), usdc, dust).blockers == [] <==> AllDust(SweepsOf(listed), dust) && PoolsAreDust(listed, dust)
  {
    if listed != [] {
      var before, entry := listed[..|listed| - 1], listed[|listed| - 1];
      assert listed == before + [entry];
      hide Report, WalletBalances, SweepsOf;
      BlockersMatchSweeps(before, usdc, dust);
      ReportStep(listed, usdc, dust);
      SweepStep(listed);
      NextBlocks(Report(WalletBalances(before), usdc, dust), entry, usdc, dust);
    }
  }

  lemma NextBlocks(report: WalletReport, entry: Listed, usdc: Asset, dust: real)
    ensures Next(report, entry, usdc, dust).blockers == [] <==> report.blockers == [] && EntryIsDust(entry, dust)
  {
  }

  /** A credit line that does not block is a residual. */
  lemma NextOfCredit(report: WalletReport, entry: Listed, usdc: Asset, dust: real)
    requires !entry.ListedPool?
    ensures var next := Next(report, entry, usdc, dust);
            var swept := entry.ListedCredit? && entry.balance > 0;
            && (next.blockers == [] ==> report.blockers == [])
            && (!swept ==> next == report)
            && (swept && next.blockers == [] ==>
                  && next.usdcResidual == (if entry.asset == usdc then entry.balance else report.usdcResidual)
                  && next.assetResiduals == report.assetResiduals +
                     (if entry.asset == usdc then [] else [Residual(Named(entry.asset), entry.balance)]))
  {
  }

  /**
   The check tells the truth about the closure. Without pool shares: there are no wallet blockers
   exactly when every sweep is dust, and then the reported total, the USDC residual and the list of
   residuals are the sweeps themselves.
   */
  lemma {:induction false} ReportMatchesSweeps(listed: seq<Listed>, usdc: Asset, dust: real)
    requires NoPools(listed) && ListedOnce(listed)
    ensures var report := Report(WalletBalances(listed), usdc, dust);
            var sweeps := SweepsOf(listed);
            && (report.blockers == [] <==> AllDust(sweeps, dust))
            && (report.blockers == [] ==>
                  && report.sweptTotal == Sum(sweeps)
                  && report.usdcResidual == Total(sweeps, Credit(usdc))
                  && report.assetResiduals == OtherResiduals(sweeps, usdc))
  {
    if listed != [] {
      var before, entry := listed[..|listed| - 1], listed[|listed| - 1];
      assert listed == before + [entry];
      hide Report, WalletBalances, SweepsOf, Total, Judge, HeldOf, Next, AllDust, PoolsAreDust;
      NoPoolIsDust(listed, dust);
      BlockersMatchSweeps(listed, usdc, dust);
      ReportMatchesSweeps(before, usdc, dust);
      ReportedTotal(listed, usdc, dust);
      NoPoolTotal(listed);
      ReportStep(listed, usdc, dust);
      SweepStep(listed);
      NextOfCredit(Report(WalletBalances(before), usdc, dust), entry, usdc, dust);
      if entry.ListedCredit? && entry.balance > 0 {
        SweptEntry(before, entry, usdc);
      }
    }
  }

  lemma NoPoolIsDust(listed: seq<Listed>, dust: real)
    requires NoPools(listed)
    ensures PoolsAreDust(listed, dust)
  {
  }

  lemma {:induction false} NoPoolTotal(listed: seq<Listed>)
    requires NoPools(listed)
    ensures PoolTotal(listed) == 0
  {
    if listed != [] {
      NoPoolTotal(listed[..|listed| - 1]);
    }
  }

  lemma SweptEntry(before: seq<Listed>, entry: Listed, usdc: Asset)
    requires entry.ListedCredit? && ListedOnce(before + [entry])
    ensures var sweeps, last := SweepsOf(before), Sweep(entry.asset, entry.balance);
            && Total(sweeps + [last], Credit(usdc)) ==
               (if entry.asset == usdc then entry.balance else Total(sweeps, Credit(usdc)))
            && OtherResiduals(sweeps + [last], usdc) == OtherResiduals(sweeps, usdc) +
               (if entry.asset == usdc then [] else [Residual(Named(entry.asset), entry.balance)])
  {
    var sweeps, last := SweepsOf(before), Sweep(entry.asset, entry.balance);
    TotalGrows(sweeps, last, Credit(usdc));
    assert (sweeps + [last])[..|sweeps|] == sweeps;
    assert forall i :: 0 <= i < |before| ==> before[i] == (before + [entry])[i];
    assert (before + [entry])[|before|] == entry;
    AbsentBefore(before, entry.asset);
  }

  lemma AbsentBefore(before: seq<Listed>, asset: Asset)
    requires forall i :: 0 <= i < |before| && before[i].ListedCredit? ==> before[i].asset != asset
    ensures Total(SweepsOf(before), Credit(asset)) == 0
  {
    forall i | 0 <= i < |SweepsOf(before)| ensures SweepsOf(before)[i].asset != asset {
      SweepsListed(before, SweepsOf(before)[i]);
    }
    TotalOfAbsent(SweepsOf(before), Credit(asset));
  }

  function PoolTotal(listed: seq<Listed>): nat {
    if listed == [] then 0
    else PoolTotal(listed[..|listed| - 1]) + match listed[|listed| - 1] case ListedPool(_, shares) => shares case _ => 0
  }

  /** With pool shares the reported total is too high by exactly the shares: they are never swept. */
  lemma {:induction false} ReportedTotal(listed: seq<Listed>, usdc: Asset, dust: real)
    ensures var report := Report(WalletBalances(listed), usdc, dust);
            report.blockers == [] ==> report.sweptTotal == Sum(SweepsOf(listed)) + PoolTotal(listed)
  {
    if listed != [] {
      hide Report, WalletBalances, SweepsOf, Judge, HeldOf, Next;
      ReportStep(listed, usdc, dust);
      SweepStep(listed);
      NextTotal(Report(WalletBalances(listed[..|listed| - 1]), usdc, dust), listed[|listed| - 1], usdc, dust);
      ReportedTotal(listed[..|listed| - 1], usdc, dust);
    }
  }

  /**
   From the answer to the ledger: if the check found no wallet blocker on a successful read and the
   closure of that same account succeeds, no asset of the Treasury grew by more than the dust threshold.
   */
  lemma NoBlockersMeansOnlyDustMoves(
    net: Ledger, user: Address, treasury: Address, listed: seq<Listed>, usdc: Asset, dust: real, asset: Asset)
    requires user in net && treasury in net && user != treasury && Lists(net[user], listed) && dust >= 0.0
    requires Report(ReadWallet(true, listed), usdc, dust).blockers == []
    requires Run(net, Program(user, treasury, listed)).Some?
    ensures var after := Run(net, Program(user, treasury, listed)).value;
            (Balance(after, treasury, asset) - Balance(net, treasury, asset)) as real <= dust
  {
    hide Run, Program, Report, WalletBalances, Judge;
    ClosureConserves(net, user, treasury, listed, asset, user);
    if Balance(net, user, asset) as real > dust {
      var i :| 0 <= i < |listed| && listed[i].ListedCredit? && listed[i].asset == asset;
      HeldIsListed(listed, i);
      var entries := WalletBalances(listed);
      var k :| 0 <= k < |entries| && entries[k] == Held(Named(asset), listed[i].balance);
      BlockedEntryBlocks(entries, k, usdc, dust);
    }
  }

  lemma {:induction false} HeldIsListed(listed: seq<Listed>, i: nat)
    requires i < |listed| && listed[i].ListedCredit? && listed[i].balance > 0
    ensures Held(Named(listed[i].asset), listed[i].balance) in WalletBalances(listed)
  {
    if i < |listed| - 1 {
      HeldIsListed(listed[..|listed| - 1], i);
    }
  }

  lemma {:induction false} BlockedEntryBlocks(entries: seq<Held>, k: nat, usdc: Asset, dust: real)
    requires k < |entries| && entries[k].asset != Xlm && entries[k].amount as real > dust
    ensures Report(entries, usdc, dust).blockers != []
  {
    if k < |entries| - 1 {
      BlockedEntryBlocks(entries[..|entries| - 1], k, usdc, dust);
    }
  }

  // ----- A read that failed -----

  /** A read that failed is reported as an empty wallet, whatever is in it. */
  lemma FailedReadReportsNothing(listed: seq<Listed>, usdc: Asset, dust: real)
    ensures Report(ReadWallet(false, listed), usdc, dust) == WalletReport([], 0, [], 0)
  {
  }

  /**
   When "no blocker" means that the closure moves only dust, for every listing: exactly if the read succeeded, or
   there was nothing but dust to move anyway. A caller that is told nothing of the failed read cannot rely on it.
   */
  lemma NoBlockersIsReliableExactlyWhen(reached: bool, listed: seq<Listed>, usdc: Asset, dust: real)
    ensures (Report(ReadWallet(reached, listed), usdc, dust).blockers == [] ==> AllDust(SweepsOf(listed), dust)) <==>
            reached || AllDust(SweepsOf(listed), dust)
  {
    hide Report, WalletBalances, SweepsOf;
    if reached {
      BlockersMatchSweeps(listed, usdc, dust);
    } else {
      FailedReadReportsNothing(listed, usdc, dust);
    }
  }

  /** It does fail: a wallet with more USDC than dust that could not be read is reported as one without blockers. */
  lemma FailedReadBlocksNothing(usdc: Asset, dust: real, amount: nat)
    requires amount > 0 && amount as real > dust
    ensures var listed := [ListedCredit(usdc, amount, 0)];
            && Report(ReadWallet(false, listed), usdc, dust).blockers == []
            && !AllDust(SweepsOf(listed), dust)
            && Report(ReadWallet(true, listed), usdc, dust).blockers != []
  {
    var listed := [ListedCredit(usdc, amount, 0)];
    assert SweepsOf(listed[..0]) == [];
    assert SweepsOf(listed)[0] == Sweep(usdc, amount);
    BlockersMatchSweeps(listed, usdc, dust);
  }
}
