/**
 The round-robin of the watcher over the active wallets: each run takes the next `take` ids in
 ascending order, and a page that is not full sends the next run back to the start.
 */
module WalletRotation {
  import opened Common

  ghost predicate Ascending(ids: seq<nat>) {
    forall i, j :: 0 <= i < j < |ids| ==> ids[i] < ids[j]
  }

  ghost predicate Beyond(last: Option<nat>, id: nat) {
    last.Some? ==> last.value < id
  }

  /** `ids` answers the query: the first `take` members of `all` after `last`, in order. */
  ghost predicate IsPage(all: set<nat>, last: Option<nat>, take: nat, ids: seq<nat>) {
    && Ascending(ids)
    && |ids| <= take
    && (forall id :: id in ids ==> id in all && Beyond(last, id))
    && (forall id :: id in all && Beyond(last, id) && id !in ids ==>
          |ids| == take && forall other :: other in ids ==> other < id)
  }

  /** Where the next run starts: after a full page, or from the beginning. */
  function NextLast(take: nat, ids: seq<nat>): Option<nat> {
    if |ids| == take && ids != [] then Some(ids[|ids| - 1]) else None
  }

  ghost function LastAfter(take: nat, pages: seq<seq<nat>>): Option<nat> {
    if pages == [] then None else NextLast(take, pages[|pages| - 1])
  }

  /** Successive runs over a fixed set of wallets, the first one from the start. */
  ghost predicate Runs(all: set<nat>, take: nat, pages: seq<seq<nat>>) {
    forall k :: 0 <= k < |pages| ==> IsPage(all, LastAfter(take, pages[..k]), take, pages[k])
  }

  ghost function Visited(pages: seq<seq<nat>>): seq<nat> {
    if pages == [] then [] else Visited(pages[..|pages| - 1]) + pages[|pages| - 1]
  }

  ghost function Members(ids: seq<nat>): set<nat> {
    set id | id in ids
  }

  lemma {:induction false} AscendingSize(ids: seq<nat>)
    requires Ascending(ids)
    ensures |Members(ids)| == |ids|
  {
    if ids == [] {
      assert Members(ids) == {};
    } else {
      var init, last := ids[..|ids| - 1], ids[|ids| - 1];
      AscendingSize(init);
      assert Members(ids) == Members(init) + {last};
      assert last !in init;
    }
  }

  /** The ids visited so far are the smallest ones, in order. */
  ghost predicate Smallest(all: set<nat>, seen: seq<nat>) {
    && Ascending(seen)
    && (forall id :: id in seen ==> id in all)
    && (forall id, other :: id in all && id !in seen && other in seen ==> other < id)
  }

  ghost function End(seen: seq<nat>): Option<nat> {
    if seen == [] then None else Some(seen[|seen| - 1])
  }

  lemma BeyondEnd(all: set<nat>, seen: seq<nat>, id: nat)
    requires Smallest(all, seen)
    ensures id in all && id !in seen ==> Beyond(End(seen), id)
    ensures Beyond(End(seen), id) ==> forall other :: other in seen ==> other < id
  {
    if seen != [] {
      assert seen[|seen| - 1] in seen;
    }
  }

  lemma PageExtends(all: set<nat>, take: nat, seen: seq<nat>, page: seq<nat>)
    requires Smallest(all, seen) && IsPage(all, End(seen), take, page)
    ensures Smallest(all, seen + page)
    ensures |page| < take ==> forall id :: id in all ==> id in seen + page
  {
    forall id | id in all ensures id in seen + page || (|page| == take && forall other :: other in seen + page ==> other < id) {
      BeyondEnd(all, seen, id);
    }
    forall i, j | 0 <= i < j < |seen + page| ensures (seen + page)[i] < (seen + page)[j] {
      if i < |seen| <= j {
        assert page[j - |seen|] in page && seen[i] in seen;
        BeyondEnd(all, seen, page[j - |seen|]);
      }
    }
  }

  lemma SmallestSize(all: set<nat>, seen: seq<nat>)
    requires Smallest(all, seen)
    ensures |seen| <= |all|
    ensures |seen| == |all| <==> Members(seen) == all
  {
    AscendingSize(seen);
    assert Members(seen) <= all && all == Members(seen) + (all - Members(seen));
  }

  lemma {:induction false} FullPages(all: set<nat>, take: nat, pages: seq<seq<nat>>)
    requires take >= 1 && Runs(all, take, pages) && |pages| * take <= |all|
    ensures Smallest(all, Visited(pages)) && |Visited(pages)| == |pages| * take
    ensures LastAfter(take, pages) == End(Visited(pages))
    decreases |pages|
  {
    if pages != [] {
      var before, page := pages[..|pages| - 1], pages[|pages| - 1];
      assert forall k :: 0 <= k < |before| ==> before[..k] == pages[..k];
      assert |before| * take + take == |pages| * take;
      FullPages(all, take, before);
      PageExtends(all, take, Visited(before), page);
      SmallestSize(all, Visited(pages));
      assert |page| < take ==> Members(Visited(pages)) == all;
    }
  }

  lemma QuotientBounds(n: nat, t: nat)
    requires t >= 1
    ensures (n / t) * t <= n < (n / t) * t + t
  {
  }

  /** One block of N/t + 1 runs from the start: the last page is the one that is not full. */
  lemma BlockVisitsEachWalletOnce(all: set<nat>, take: nat, pages: seq<seq<nat>>)
    requires take >= 1 && Runs(all, take, pages) && |pages| == |all| / take + 1
    ensures Ascending(Visited(pages)) && Members(Visited(pages)) == all && |Visited(pages)| == |all|
    ensures LastAfter(take, pages) == None
  {
    var before, page := pages[..|pages| - 1], pages[|pages| - 1];
    assert forall k :: 0 <= k < |before| ==> before[..k] == pages[..k];
    QuotientBounds(|all|, take);
    FullPages(all, take, before);
    var seen := Visited(before);
    PageExtends(all, take, seen, page);
    assert Visited(pages) == seen + page;
    SmallestSize(all, seen + page);
    assert |seen + page| == (|all| / take) * take + |page| && |page| < take;
    assert Members(seen + page) == all;
  }

  lemma SliceRuns(all: set<nat>, take: nat, pages: seq<seq<nat>>, start: nat, end: nat)
    requires Runs(all, take, pages) && start <= end <= |pages| && LastAfter(take, pages[..start]) == None
    ensures Runs(all, take, pages[start..end])
  {
    var block := pages[start..end];
    forall k | 0 <= k < |block| ensures IsPage(all, LastAfter(take, block[..k]), take, block[k]) {
      assert IsPage(all, LastAfter(take, pages[..start + k]), take, pages[start + k]);
      if k > 0 {
        assert block[..k][k - 1] == pages[..start + k][start + k - 1];
      }
    }
  }

  /** How many runs one block has. */
  function BlockLength(all: set<nat>, take: nat): nat
    requires take >= 1
  {
    |all| / take + 1
  }

  /**
   Fairness, for ever: with a fixed set of N wallets and pages of t >= 1, whenever the rotation is at
   the start - at the first run, and after each block - the next N/t + 1 runs visit every wallet
   exactly once, in order, and leave it at the start again. It includes the case where t divides N,
   in which the last run of each block reads an empty page.
   */
  lemma EveryBlockVisitsEachWalletOnce(all: set<nat>, take: nat, pages: seq<seq<nat>>, start: nat, end: nat)
    requires take >= 1 && Runs(all, take, pages)
    requires end == start + BlockLength(all, take) <= |pages| && LastAfter(take, pages[..start]) == None
    ensures var visited := Visited(pages[start..end]);
            Ascending(visited) && Members(visited) == all && |visited| == |all|
    ensures LastAfter(take, pages[..end]) == None
  {
    hide Runs, Visited, Ascending, Members, LastAfter;
    SliceRuns(all, take, pages, start, end);
    var block := pages[start..end];
    assert |block| == |all| / take + 1;
    BlockVisitsEachWalletOnce(all, take, block);
    SameLast(take, pages, start, end);
  }

  lemma SameLast(take: nat, pages: seq<seq<nat>>, start: nat, end: nat)
    requires start < end <= |pages|
    ensures LastAfter(take, pages[..end]) == LastAfter(take, pages[start..end])
  {
  }
}
