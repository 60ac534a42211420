/**
 The watcher itself, as the code runs it: it reads, decides and writes in separate database calls,
 and between any two of them `Yield` lets the other instances take any number of steps. Each write
 is one event of the shared machine, so `Valid` says that the whole run stayed inside it.
 */
module IncomingPaymentsJob {
  import opened Common
  import opened IncomingPayments
  import Rotation = WalletRotation

  class Database {
    const cfg: Config
    var st: State
    ghost var log: seq<Event>
    /** How many of the calls made through this object have failed. */
    ghost var failures: nat

    /** The rows are exactly what the steps of `log` produced, and every one of them was allowed. */
    ghost predicate Valid()
      reads this`st, this`log
    {
      Legal(cfg, log) && st == Play(log)
    }

    constructor (cfg: Config)
      ensures Valid() && this.cfg == cfg && log == []
    {
      this.cfg := cfg;
      st := Empty;
      log, failures := [], 0;
    }

    /** Any number of steps by everyone else; callers know nothing else about it. */
    method Others()
      requires Valid()
      modifies this`st, this`log
      ensures Valid() && old(log) <= log
    {
    }

    method Yield()
      requires Valid()
      modifies this`st, this`log
      ensures Valid() && old(log) <= log
      ensures Inv(cfg, st) && Evolves(old(st), st)
    {
      ghost var before := log;
      Others();
      RunsOnlyMoveForward(cfg, before, log);
      EveryRunKeepsInv(cfg, log);
    }

    method Perform(e: Event)
      requires Valid() && Enabled(cfg, st, e)
      modifies this`st, this`log
      ensures Valid() && log == old(log) + [e] && st == Apply(old(st), e)
      ensures Inv(cfg, st) && Evolves(old(st), st)
    {
      ghost var before := log;
      log := log + [e];
      st := Apply(st, e);
      assert log[..|log| - 1] == before;
      EveryRunKeepsInv(cfg, before);
      EveryRunKeepsInv(cfg, log);
      StepEvolves(cfg, Play(before), e);
    }

    /** Settles a payment by ignoring it, for a reason that holds. */
    method Ignore(w: WalletId, payment: Payment, reason: Reason)
      requires Valid() && Enabled(cfg, st, Dismiss(w, payment, reason))
      modifies this`st, this`log
      ensures Valid() && old(log) <= log && Inv(cfg, st) && Evolves(old(st), st) && st.outbox == old(st.outbox)
      ensures w in st.wallets && (w, payment.id) in st.dismissed && Settled(st, w, payment)
    {
      hide Inv, Evolves, Legal, Play, Told;
      Perform(Dismiss(w, payment, reason));
    }

    /** A call that may fail. */
    method Call() returns (ok: bool)
      modifies this`failures
      ensures failures == old(failures) + if ok then 0 else 1
    {
      ok := *;
      if !ok {
        failures := failures + 1;
      }
    }
  }

  // ----- Reading the ledger -----

  predicate Involves(r: Payment, address: Address) {
    r.from == Some(address) || r.to == Some(address) || address in r.parties
  }

  function After(ledger: seq<Payment>, address: Address, cursor: nat): seq<Payment> {
    if ledger == [] then []
    else
      var r := ledger[|ledger| - 1];
      After(ledger[..|ledger| - 1], address, cursor) + if Involves(r, address) && r.token > cursor then [r] else []
  }

  /** The cursor of the account's newest record. */
  function Newest(ledger: seq<Payment>, address: Address): nat {
    var all := After(ledger, address, 0);
    if all == [] then 0 else all[|all| - 1].token
  }

  /** The account's records after the cursor, oldest first, at most `limit` of them. */
  function PaymentsAfter(ledger: seq<Payment>, address: Address, cursor: nat, limit: nat): seq<Payment> {
    var all := After(ledger, address, cursor);
    if |all| <= limit then all else all[..limit]
  }

  ghost predicate IsHistory(ledger: seq<Payment>, address: Address, cursor: nat, all: seq<Payment>) {
    && (forall i, j :: 0 <= i < j < |all| ==> all[i].token < all[j].token)
    && (forall r :: r in all <==> r in ledger && Involves(r, address) && r.token > cursor)
  }

  lemma OneMore(ledger: seq<Payment>, address: Address, cursor: nat, rest: seq<Payment>)
    requires ledger != [] && forall i, j :: 0 <= i < j < |ledger| ==> ledger[i].token < ledger[j].token
    requires IsHistory(ledger[..|ledger| - 1], address, cursor, rest)
    ensures var r := ledger[|ledger| - 1];
            IsHistory(ledger, address, cursor, rest + if Involves(r, address) && r.token > cursor then [r] else [])
  {
    hide Involves;
    var before, r := ledger[..|ledger| - 1], ledger[|ledger| - 1];
    assert ledger == before + [r];
    assert forall q :: q in ledger <==> q in before || q == r;
    forall i | 0 <= i < |rest| ensures rest[i].token < r.token {
      assert rest[i] in rest;
      assert rest[i] in before;
    }
  }

  lemma {:induction false} AfterIsComplete(ledger: seq<Payment>, address: Address, cursor: nat)
    requires forall i, j :: 0 <= i < j < |ledger| ==> ledger[i].token < ledger[j].token
    ensures IsHistory(ledger, address, cursor, After(ledger, address, cursor))
  {
    if ledger != [] {
      var before, r := ledger[..|ledger| - 1], ledger[|ledger| - 1];
      AfterIsComplete(before, address, cursor);
      OneMore(ledger, address, cursor, After(before, address, cursor));
    }
  }

  /** A page omits no record between the cursor and its last token; a short page omits none at all. */
  lemma PageIsComplete(ledger: seq<Payment>, address: Address, cursor: nat, limit: nat)
    requires LedgerOk(ledger)
    ensures var page := PaymentsAfter(ledger, address, cursor, limit);
            && (forall i, j :: 0 <= i < j < |page| ==> page[i].token < page[j].token)
            && (forall r :: r in page ==> r in ledger && Involves(r, address) && r.token > cursor)
            && (forall r :: r in ledger && Involves(r, address) && r.token > cursor && r !in page ==>
                  |page| == limit && forall q :: q in page ==> q.token < r.token)
  {
    AfterIsComplete(ledger, address, cursor);
    var all := After(ledger, address, cursor);
    if |all| > limit {
      forall r | r in all && r !in all[..limit] ensures forall q :: q in all[..limit] ==> q.token < r.token {
        var j :| 0 <= j < |all| && all[j] == r;
        assert j >= limit;
      }
    }
  }

  lemma CoveredEvolves(cfg: Config, s: State, t: State, w: WalletId, after: nat, upTo: nat)
    requires Inv(cfg, s) && Inv(cfg, t) && Evolves(s, t) && w in s.wallets
    requires upTo <= LastToken(s.ledger) && Covered(cfg, s, w, after, upTo)
    ensures w in t.wallets && Covered(cfg, t, w, after, upTo) && LastToken(s.ledger) <= LastToken(t.ledger)
  {
    if s.ledger != [] {
      assert t.ledger[|s.ledger| - 1] == s.ledger[|s.ledger| - 1];
    }
    forall p | p in t.ledger && IsIncomingUsdc(cfg, p, t.wallets[w].address) && after < p.token <= upTo
      ensures Settled(t, w, p)
    {
      var i :| 0 <= i < |t.ledger| && t.ledger[i] == p;
      assert i < |s.ledger| && s.ledger[i] == p;
      SettledIsStable(s, t, w, p);
    }
  }

  /** The row that is already there was written for this wallet's owner. */
  lemma RowIsAnswer(cfg: Config, s: State, w: WatchedWallet, p: Payment)
    requires Inv(cfg, s) && Known(s, w) && w.cursor.Some? && w.cursor.value < p.token
    requires p in s.ledger && IsIncomingUsdc(cfg, p, w.address) && HasKey(s.outbox, PaymentKey(p.id))
    ensures Told(s, w.id, p)
  {
    hide Inv, IsIncomingUsdc;
    var i :| i in s.outbox && s.outbox[i].key == PaymentKey(p.id);
    if w.user !in s.gone {
      RowIsForOwner(cfg, s, w.id, p, i);
    }
  }

  lemma InsertIsAllowed(cfg: Config, s: State, w: WatchedWallet, p: Payment, enabled: bool)
    requires Known(s, w) && (w.id, p.id) in s.checked && !HasKey(s.outbox, PaymentKey(p.id))
    ensures Enabled(cfg, s, InsertRow(w.id, p.id, enabled))
    ensures w.id in Apply(s, InsertRow(w.id, p.id, enabled)).wallets && Told(Apply(s, InsertRow(w.id, p.id, enabled)), w.id, p)
  {
    var t := Apply(s, InsertRow(w.id, p.id, enabled));
    assert t.outbox[s.nextRow] == Row(PaymentKey(p.id), w.user, enabled);
  }

  /** Settling the first `processed` records of a page settles everything up to the last of them. */
  lemma PageCovers(cfg: Config, read: State, t: State, w: WatchedWallet, cursor: nat, records: seq<Payment>, processed: nat)
    requires Inv(cfg, read) && Inv(cfg, t) && Evolves(read, t) && Known(read, w) && Known(t, w)
    requires records == PaymentsAfter(read.ledger, w.address, cursor, PAGE_SIZE) && 0 < processed <= |records|
    requires PrefixSettled(cfg, t, w, records, processed)
    ensures cursor < records[processed - 1].token <= LastToken(read.ledger) <= LastToken(t.ledger)
    ensures Covered(cfg, t, w.id, cursor, records[processed - 1].token)
  {
    PageIsComplete(read.ledger, w.address, cursor, PAGE_SIZE);
    var upTo := records[processed - 1].token;
    assert records[processed - 1] in records;
    assert t.ledger[|read.ledger| - 1] == read.ledger[|read.ledger| - 1];
    forall p | p in t.ledger && IsIncomingUsdc(cfg, p, t.wallets[w.id].address) && cursor < p.token <= upTo
      ensures Settled(t, w.id, p)
    {
      var i :| 0 <= i < |t.ledger| && t.ledger[i] == p;
      assert i < |read.ledger| && read.ledger[i] == p;
      assert p in records;
      var k :| 0 <= k < |records| && records[k] == p;
      assert k < processed;
    }
  }

  /** Every incoming payment the account had at `start`, beyond the cursor `w` came with, is settled. */
  ghost predicate CaughtUpSince(cfg: Config, start: State, t: State, w: WatchedWallet)
    requires Known(t, w) && w.cursor.Some?
  {
    forall p :: p in start.ledger && IsIncomingUsdc(cfg, p, w.address) && w.cursor.value < p.token ==> Settled(t, w.id, p)
  }

  lemma OwnReasons(cfg: Config, s: State, w: WatchedWallet, p: Payment, senders: map<Address, UserId>)
    requires Known(s, w) && IsIncomingUsdc(cfg, p, w.address) && SendersKnown(s, senders)
    ensures p.from.value in cfg.systemSenders ==> Justified(cfg, s, w.id, p, SystemSender)
    ensures p.from.value in senders && senders[p.from.value] == w.user ==> Justified(cfg, s, w.id, p, OwnWallet)
  {
  }

  /** An order found by one of the two queries is a reason that the shared machine accepts at that instant. */
  lemma OrderIsAReason(cfg: Config, s: State, w: WatchedWallet, p: Payment, id: OrderId, paidAt: int)
    requires Inv(cfg, s) && Known(s, w) && p in s.ledger && IsIncomingUsdc(cfg, p, w.address)
    requires p.from.value !in cfg.systemSenders && p.id in s.strangers
    requires if p.createdAt.Some? then paidAt == p.createdAt.value else paidAt <= s.now
    requires id in s.orders && Explains(s.orders[id], w.user, paidAt)
    ensures Enabled(cfg, s, Dismiss(w.id, p, OnrampDelivery(id, s.orders[id], paidAt)))
  {
    hide Explains, IsIncomingUsdc;
  }

  /** The newest record read for a wallet is within the ledger and beyond the wallet's past when the baseline is written. */
  lemma BaselineFits(cfg: Config, s: State, t: State, w: WatchedWallet)
    requires Inv(cfg, s) && Inv(cfg, t) && Evolves(s, t) && Known(s, w)
    ensures Known(t, w) && Newest(s.ledger, w.address) <= LastToken(t.ledger)
    ensures BeyondHistory(cfg, t, w.id, Newest(s.ledger, w.address))
  {
    AfterIsComplete(s.ledger, w.address, 0);
    var known := After(s.ledger, w.address, 0);
    assert known != [] ==> known[|known| - 1] in s.ledger;
    if s.ledger != [] {
      assert t.ledger[|s.ledger| - 1] == s.ledger[|s.ledger| - 1];
    }
    forall p | p in t.ledger && IsIncomingUsdc(cfg, p, w.address) && p.token <= t.wallets[w.id].openedAt
      ensures p.token <= Newest(s.ledger, w.address)
    {
      PastIsRead(cfg, s, t, p);
      assert p in known;
    }
  }

  lemma PastIsRead(cfg: Config, s: State, t: State, p: Payment)
    requires Inv(cfg, s) && Inv(cfg, t) && s.ledger <= t.ledger && p in t.ledger && p.token <= LastToken(s.ledger)
    ensures p in s.ledger && 0 < p.token
  {
    var i :| 0 <= i < |t.ledger| && t.ledger[i] == p;
    if s.ledger != [] {
      assert t.ledger[|s.ledger| - 1] == s.ledger[|s.ledger| - 1];
    }
    assert i < |s.ledger| && s.ledger[i] == p;
  }

  lemma ShortPageCatchesUp(cfg: Config, start: State, read: State, t: State, w: WatchedWallet,
                           cursor: nat, records: seq<Payment>, upTo: nat)
    requires Inv(cfg, read) && Inv(cfg, t) && Evolves(start, read) && Evolves(read, t) && Known(start, w)
    requires w.cursor.Some? && Reached(cfg, t, w, upTo)
    requires records == PaymentsAfter(read.ledger, w.address, cursor, PAGE_SIZE) && |records| < PAGE_SIZE
    requires upTo == if records == [] then cursor else records[|records| - 1].token
    ensures Known(t, w) && CaughtUpSince(cfg, start, t, w)
  {
    ShortPageIsAll(read.ledger, w.address, cursor, records);
    hide PaymentsAfter, Inv, LastToken, Settled, Involves;
    forall p | p in start.ledger && IsIncomingUsdc(cfg, p, w.address) && w.cursor.value < p.token
      ensures Settled(t, w.id, p)
    {
      LedgerStays(start, read, p);
      LedgerStays(read, t, p);
      IncomingInvolves(cfg, p, w.address);
      assert p.token <= upTo;
    }
  }

  lemma IncomingInvolves(cfg: Config, p: Payment, address: Address)
    requires IsIncomingUsdc(cfg, p, address)
    ensures Involves(p, address)
  {
  }

  /** A short page has every record beyond the cursor, none of them after its last one. */
  lemma ShortPageIsAll(ledger: seq<Payment>, address: Address, cursor: nat, records: seq<Payment>)
    requires LedgerOk(ledger) && records == PaymentsAfter(ledger, address, cursor, PAGE_SIZE) && |records| < PAGE_SIZE
    ensures forall r :: r in ledger && Involves(r, address) && r.token > cursor ==>
              records != [] && r.token <= records[|records| - 1].token
    ensures records != [] ==> cursor < records[|records| - 1].token
  {
    PageIsComplete(ledger, address, cursor, PAGE_SIZE);
    assert records != [] ==> records[|records| - 1] in records;
    forall r | r in ledger && Involves(r, address) && r.token > cursor
      ensures records != [] && r.token <= records[|records| - 1].token
    {
      assert r in records;
      var k :| 0 <= k < |records| && records[k] == r;
    }
  }

  lemma CaughtUpSinceEarlier(cfg: Config, start: State, mid: State, t: State, w: WatchedWallet)
    requires Evolves(start, mid) && Known(t, w) && w.cursor.Some? && CaughtUpSince(cfg, mid, t, w)
    ensures CaughtUpSince(cfg, start, t, w)
  {
  }

  function Ids(page: seq<WatchedWallet>): seq<WalletId> {
    seq(|page|, i requires 0 <= i < |page| => page[i].id)
  }

  /** What the result of a wallet's turn says about the database at the end of it, `start` being its beginning. */
  ghost predicate Holds(cfg: Config, start: State, t: State, w: WatchedWallet, outcome: Outcome) {
    && Known(t, w)
    && match outcome
       case Baselined => w.cursor.None? && t.wallets[w.id].cursor.Some?
       case CaughtUp => w.cursor.Some? && CaughtUpSince(cfg, start, t, w)
       case PageLimit => w.cursor.Some? && w.cursor.value < t.wallets[w.id].cursor.value
       case LostRace => w.cursor.Some? && w.cursor.value < t.wallets[w.id].cursor.value
       case Stopped => true
       case Failed => true
  }

  ghost predicate OutcomesHold(cfg: Config, start: State, t: State, page: seq<WatchedWallet>, outcomes: seq<Outcome>) {
    |outcomes| <= |page| && forall k :: 0 <= k < |outcomes| ==> Holds(cfg, start, t, page[k], outcomes[k])
  }

  lemma NothingHolds(cfg: Config, start: State, t: State, page: seq<WatchedWallet>)
    ensures OutcomesHold(cfg, start, t, page, [])
  {
  }

  lemma HoldsFurther(cfg: Config, start: State, s: State, t: State, w: WatchedWallet, outcome: Outcome)
    requires Evolves(s, t) && Holds(cfg, start, s, w, outcome)
    ensures Holds(cfg, start, t, w, outcome)
  {
    KnownEvolves(s, t, w);
  }

  lemma HoldsSinceEarlier(cfg: Config, start: State, mid: State, t: State, w: WatchedWallet, outcome: Outcome)
    requires Evolves(start, mid) && Holds(cfg, mid, t, w, outcome)
    ensures Holds(cfg, start, t, w, outcome)
  {
  }

  lemma OutcomesGrow(cfg: Config, start: State, s: State, t: State, page: seq<WatchedWallet>, outcomes: seq<Outcome>, outcome: Outcome)
    requires Evolves(s, t) && |outcomes| < |page| && OutcomesHold(cfg, start, s, page, outcomes)
    requires Holds(cfg, start, t, page[|outcomes|], outcome)
    ensures OutcomesHold(cfg, start, t, page, outcomes + [outcome])
  {
    hide Holds, Evolves;
    forall k | 0 <= k < |outcomes| ensures Holds(cfg, start, t, page[k], outcomes[k]) {
      HoldsFurther(cfg, start, s, t, page[k], outcomes[k]);
    }
  }

  function ActiveWallets(s: State): set<WalletId> {
    set x | x in s.wallets && IsActive(s, x)
  }

  predicate IsLeast(ids: set<nat>, least: nat) {
    least in ids && forall x :: x in ids ==> least <= x
  }

  lemma {:induction false} LeastExists(ids: set<nat>)
    requires ids != {}
    ensures exists least :: IsLeast(ids, least)
  {
    var x :| x in ids;
    var rest := ids - {x};
    assert ids == rest + {x};
    if rest == {} {
      assert IsLeast(ids, x);
    } else {
      LeastExists(rest);
      var least :| IsLeast(rest, least);
      assert IsLeast(ids, if x < least then x else least);
    }
  }

  lemma KnownEvolves(s: State, t: State, w: WatchedWallet)
    requires Evolves(s, t) && Known(s, w)
    ensures Known(t, w)
  {
  }

  /** The records of a page that may be notified, in order. */
  function Incoming(cfg: Config, address: Address, records: seq<Payment>): (incoming: seq<Payment>)
    ensures forall r :: r in incoming <==> r in records && IsIncomingUsdc(cfg, r, address)
  {
    if records == [] then []
    else (if IsIncomingUsdc(cfg, records[0], address) then [records[0]] else []) + Incoming(cfg, address, records[1..])
  }

  predicate SentBy(incoming: seq<Payment>, a: Address) {
    exists i :: 0 <= i < |incoming| && incoming[i].from == Some(a)
  }

  predicate BlindpayNear(s: State, user: UserId, paidAt: int) {
    exists id :: id in s.orders && s.orders[id].BlindpayOrder? && Explains(s.orders[id], user, paidAt)
  }

  predicate EtherfuseNear(s: State, user: UserId, paidAt: int) {
    exists id :: id in s.orders && s.orders[id].EtherfuseOrder? && Explains(s.orders[id], user, paidAt)
  }

  /** The time a payment is held against the orders: its own, or that of the decision if the record has none. */
  function PaidAt(s: State, p: Payment): int {
    if p.createdAt.Some? then p.createdAt.value else s.now
  }

  predicate SentByUs(cfg: Config, w: WatchedWallet, p: Payment, senders: map<Address, UserId>)
    requires p.from.Some?
  {
    p.from.value in cfg.systemSenders || (p.from.value in senders && senders[p.from.value] == w.user)
  }

  predicate IsSender(s: State, x: WalletId, incoming: seq<Payment>, a: Address, user: UserId) {
    && x in s.wallets && IsActive(s, x) && s.wallets[x].address == a && s.wallets[x].user == user
    && SentBy(incoming, a)
  }

  lemma IncomingIsKnown(cfg: Config, s: State, w: WatchedWallet, records: seq<Payment>, incoming: seq<Payment>)
    requires incoming == Incoming(cfg, w.address, records) && forall r :: r in records ==> r in s.ledger
    ensures forall r :: r in incoming ==> r in s.ledger && r.from.Some?
    ensures incoming == [] ==> (forall a :: !SentBy(incoming, a)) && StrangersSeen(cfg, s, w, records, map[])
    ensures SendersKnown(s, map[])
  {
  }

  lemma NotFound(s: State, incoming: seq<Payment>, senders: map<Address, UserId>)
    requires forall r :: r in incoming ==> r.from.Some?
    requires forall a :: IsPigfi(s, a) && SentBy(incoming, a) ==> a in senders
    ensures forall r :: r in incoming && r.from.value !in senders ==> !IsPigfi(s, r.from.value)
  {
    hide IsPigfi;
  }

  lemma AllSeen(cfg: Config, s: State, w: WatchedWallet, records: seq<Payment>, senders: map<Address, UserId>)
    requires forall r :: r in Incoming(cfg, w.address, records) ==> r.from.Some?
    requires forall r :: r in Incoming(cfg, w.address, records) && r.from.value !in senders ==> r.id in s.strangers
    ensures StrangersSeen(cfg, s, w, records, senders)
  {
  }

  lemma SamePigfi(s: State, t: State, a: Address)
    requires t.wallets == s.wallets && t.gone == s.gone
    ensures IsPigfi(t, a) <==> IsPigfi(s, a)
  {
  }

  lemma PaidAtHolds(s: State, t: State, p: Payment)
    requires Evolves(s, t)
    ensures if p.createdAt.Some? then PaidAt(s, p) == p.createdAt.value else PaidAt(s, p) <= t.now
  {
  }

  lemma HeldFurther(s: State, t: State, u: State, w: WatchedWallet, p: Payment)
    requires Evolves(s, t) && Evolves(t, u) && Known(t, w) && p in t.ledger
    ensures Evolves(s, u) && Known(u, w) && p in u.ledger
  {
    EvolvesFurther(s, t, u);
    KnownEvolves(t, u, w);
    LedgerStays(t, u, p);
  }

  lemma KnownHere(cfg: Config, s: State, w: WatchedWallet, p: Payment)
    requires Known(s, w) && IsIncomingUsdc(cfg, p, w.address)
    ensures w.id in s.wallets && s.wallets[w.id].user == w.user && s.wallets[w.id].address == w.address && p.from.Some?
  {
  }

  lemma ToldIsSettled(s: State, w: WatchedWallet, p: Payment)
    requires w.id in s.wallets
    ensures Told(s, w.id, p) ==> Settled(s, w.id, p)
  {
  }

  // ----- The services -----

  /** What the caller holds about a wallet: the row it read, whose cursor may be out of date. */
  datatype WatchedWallet = WatchedWallet(id: WalletId, user: UserId, address: Address, cursor: Option<nat>)

  ghost predicate Known(s: State, w: WatchedWallet) {
    && w.id in s.wallets && s.wallets[w.id].user == w.user && s.wallets[w.id].address == w.address
    && (w.cursor.Some? ==>
          && w.id in s.baselines && s.wallets[w.id].cursor.Some?
          && s.baselines[w.id] <= w.cursor.value <= s.wallets[w.id].cursor.value)
  }

  function At(w: WatchedWallet, cursor: nat): WatchedWallet {
    w.(cursor := Some(cursor))
  }

  ghost predicate SendersKnown(s: State, senders: map<Address, UserId>) {
    forall a :: a in senders ==>
      exists x :: x in s.wallets && s.wallets[x].address == a && s.wallets[x].user == senders[a]
  }

  /** The sender of every incoming record that is not in the map was looked up, and was no active wallet. */
  ghost predicate StrangersSeen(cfg: Config, s: State, w: WatchedWallet, records: seq<Payment>, senders: map<Address, UserId>) {
    forall r :: r in records && IsIncomingUsdc(cfg, r, w.address) && r.from.value !in senders ==> r.id in s.strangers
  }

  /** What `handlePayment` reports; `Threw` is an error raised by one of its queries. */
  datatype Handled = Resolved | NotRecorded | Threw

  datatype Outcome = Baselined | CaughtUp | Stopped | LostRace | PageLimit | Failed

  /** The query behind the rotation: ascending ids after `last`, at most `take` of them. */
  method FirstIds(all: set<WalletId>, last: Option<WalletId>, take: nat) returns (ids: seq<WalletId>)
    ensures Rotation.IsPage(all, last, take, ids)
  {
    var left := set x | x in all && (last.Some? ==> last.value < x);
    ids := [];
    while |ids| < take && left != {}
      invariant Rotation.Ascending(ids) && |ids| <= take
      invariant forall x :: x in all && Rotation.Beyond(last, x) <==> x in left || x in ids
      invariant forall x, y :: x in ids && y in left ==> x < y
      decreases left
    {
      LeastExists(left);
      var least :| IsLeast(left, least);
      assert forall k :: 0 <= k < |ids| ==> ids[k] in ids;
      left := left - {least};
      ids := ids + [least];
    }
  }

  class NotificationsService {
    const db: Database

    constructor (db: Database)
      ensures this.db == db
    {
      this.db := db;
    }

    /**
     Never throws: true when the event is resolved, false when an error kept it from being recorded. The row it adds
     waits to be sent, or is skipped, as the user's preferences were when they were read.
     */
    method Notify(w: WatchedWallet, payment: Payment) returns (resolved: bool, ghost read: State, ghost before: State)
      requires db.Valid() && Inv(db.cfg, db.st) && Known(db.st, w) && w.cursor.Some? && w.cursor.value < payment.token
      requires payment in db.st.ledger && IsIncomingUsdc(db.cfg, payment, w.address)
      modifies db
      ensures db.Valid() && old(db.log) <= db.log && Inv(db.cfg, db.st) && Evolves(old(db.st), db.st)
      ensures w.id in db.st.wallets && (resolved ==> Told(db.st, w.id, payment))
      ensures read == old(db.st) && Evolves(read, before)
      ensures resolved && w.user in read.gone ==> db.st == read
      ensures resolved && w.user !in read.gone ==>
                db.st == if HasKey(before.outbox, PaymentKey(payment.id)) then before
                         else AddRow(before, Row(PaymentKey(payment.id), w.user, w.user !in read.muted))
      ensures db.failures == old(db.failures) + if resolved then 0 else 1
    {
      hide Inv, Evolves, Legal, Play, IsIncomingUsdc, Told;
      read, before := db.st, db.st;
      EvolvesSelf(db.st);
      resolved := db.Call();
      if !resolved {
        return false, read, before;
      }
      if w.user in db.st.gone {
        GoneIsTold(db.st, w, payment);
        return true, read, before;
      }
      var enabled := w.user !in db.st.muted;
      db.Perform(CheckOpen(w.id, payment));
      KnownEvolves(read, db.st, w);
      LedgerStays(read, db.st, payment);
      ghost var seen := db.st;
      db.Yield();
      EvolvesFurther(read, seen, db.st);
      KnownEvolves(seen, db.st, w);
      LedgerStays(seen, db.st, payment);
      CheckStays(seen, db.st, w.id, payment);
      before := db.st;
      resolved := Create(w, payment, enabled);
      EvolvesFurther(read, before, db.st);
    }

    /** The insert: a duplicate key means the event was seen before, and counts as resolved. */
    method Create(w: WatchedWallet, payment: Payment, enabled: bool) returns (resolved: bool)
      requires db.Valid() && Inv(db.cfg, db.st) && Known(db.st, w) && w.cursor.Some? && w.cursor.value < payment.token
      requires payment in db.st.ledger && IsIncomingUsdc(db.cfg, payment, w.address) && (w.id, payment.id) in db.st.checked
      modifies db
      ensures db.Valid() && old(db.log) <= db.log && Inv(db.cfg, db.st) && Evolves(old(db.st), db.st)
      ensures w.id in db.st.wallets && (resolved ==> Told(db.st, w.id, payment))
      ensures db.failures == old(db.failures) + if resolved then 0 else 1
      ensures resolved ==>
                db.st == if HasKey(old(db.st.outbox), PaymentKey(payment.id)) then old(db.st)
                         else AddRow(old(db.st), Row(PaymentKey(payment.id), w.user, enabled))
    {
      hide Inv, Evolves, Legal, Play, IsIncomingUsdc, Told;
      EvolvesSelf(db.st);
      resolved := db.Call();
      if !resolved {
        return false;
      }
      if HasKey(db.st.outbox, PaymentKey(payment.id)) {
        RowIsAnswer(db.cfg, db.st, w, payment);
        return true;
      }
      InsertIsAllowed(db.cfg, db.st, w, payment, enabled);
      db.Perform(InsertRow(w.id, payment.id, enabled));
      resolved := db.Call();
    }
  }

  lemma GoneIsTold(s: State, w: WatchedWallet, p: Payment)
    requires Known(s, w) && w.user in s.gone
    ensures Told(s, w.id, p)
  {
  }

  lemma CheckStays(s: State, t: State, w: WalletId, p: Payment)
    requires Evolves(s, t) && (w, p.id) in s.checked
    ensures (w, p.id) in t.checked
  {
  }

  class IncomingPaymentsJob {
    const db: Database
    const notifications: NotificationsService
    const walletsPerRun: nat
    var running: bool
    var lastWalletId: Option<WalletId>

    constructor (db: Database, notifications: NotificationsService, walletsPerRun: nat)
      requires notifications.db == db
      ensures this.db == db && this.notifications == notifications && this.walletsPerRun == walletsPerRun
      ensures !running && lastWalletId == None
    {
      this.db := db;
      this.notifications := notifications;
      this.walletsPerRun := walletsPerRun;
      running := false;
      lastWalletId := None;
    }

    ghost predicate Ready()
      reads db`st, db`log
    {
      notifications.db == db && db.Valid() && Inv(db.cfg, db.st)
    }

    /** The next page of active wallets in the rotation, and where the run after it starts. */
    method NextWallets() returns (page: seq<WatchedWallet>)
      requires Ready()
      modifies this`lastWalletId
      ensures Rotation.IsPage(ActiveWallets(db.st), old(lastWalletId), walletsPerRun, Ids(page))
      ensures forall x :: x in ActiveWallets(db.st) <==>
                && x in db.st.wallets && db.st.wallets[x].active && db.st.wallets[x].closedAt.None?
                && db.st.wallets[x].user !in db.st.gone
      ensures lastWalletId == Rotation.NextLast(walletsPerRun, Ids(page))
      ensures forall k :: 0 <= k < |page| ==> Known(db.st, page[k])
    {
      var ids := FirstIds(ActiveWallets(db.st), lastWalletId, walletsPerRun);
      assert forall k :: 0 <= k < |ids| ==> ids[k] in ids;
      page := seq(|ids|, k requires 0 <= k < |ids| && ids[k] in db.st.wallets reads db =>
        var wallet := db.st.wallets[ids[k]]; WatchedWallet(ids[k], wallet.user, wallet.address, wallet.cursor));
      assert Ids(page) == ids;
      lastWalletId := Rotation.NextLast(walletsPerRun, ids);
    }

    /** One run: a run already under way is left alone, and one wallet's failure stays its own. */
    method Watch() returns (listed: bool, outcomes: seq<Outcome>, ghost page: seq<WatchedWallet>)
      requires Ready()
      modifies this, db
      ensures Ready() && old(db.log) <= db.log && Evolves(old(db.st), db.st)
      ensures old(running) ==> running && db.st == old(db.st) && lastWalletId == old(lastWalletId)
      ensures !old(running) ==> !running
      ensures !old(running) && db.failures == old(db.failures) ==> listed
      ensures !old(running) && listed ==> IsNextPage(old(db.st), old(lastWalletId), lastWalletId, page)
      ensures !listed ==> lastWalletId == old(lastWalletId) && outcomes == []
      ensures |outcomes| == |page| && OutcomesHold(db.cfg, old(db.st), db.st, page, outcomes)
      ensures forall k :: 0 <= k < |outcomes| && outcomes[k] in {Failed, Stopped} ==> db.failures > old(db.failures)
    {
      hide Inv, Evolves, Known, Legal, Play, CaughtUpSince, Rotation.IsPage, OutcomesHold, Holds;
      EvolvesSelf(db.st);
      listed, outcomes, page := false, [], [];
      NothingHolds(db.cfg, old(db.st), db.st, page);
      if running {
        return;
      }
      running := true;
      listed := db.Call();
      if !listed {
        running := false;
        return;
      }
      var wallets := NextWallets();
      page := wallets;
      NothingHolds(db.cfg, old(db.st), db.st, page);
      while |outcomes| < |wallets|
        invariant running && Ready() && old(db.log) <= db.log && Evolves(old(db.st), db.st) && |outcomes| <= |wallets|
        invariant forall k :: 0 <= k < |wallets| ==> Known(db.st, wallets[k])
        invariant OutcomesHold(db.cfg, old(db.st), db.st, page, outcomes)
        invariant db.failures >= old(db.failures) && IsNextPage(old(db.st), old(lastWalletId), lastWalletId, page)
        invariant forall k :: 0 <= k < |outcomes| && outcomes[k] in {Failed, Stopped} ==> db.failures > old(db.failures)
      {
        ghost var s := db.st;
        var outcome := ProcessWallet(wallets[|outcomes|]);
        EvolvesFurther(old(db.st), s, db.st);
        forall k | 0 <= k < |wallets| ensures Known(db.st, wallets[k]) {
          KnownEvolves(s, db.st, wallets[k]);
        }
        HoldsSinceEarlier(db.cfg, old(db.st), s, db.st, wallets[|outcomes|], outcome);
        OutcomesGrow(db.cfg, old(db.st), s, db.st, page, outcomes, outcome);
        outcomes := outcomes + [outcome];
      }
      running := false;
    }

    /** The wallets of a run are the page of the rotation that was due, and the rotation moved behind it. */
    ghost predicate IsNextPage(s: State, last: Option<WalletId>, now: Option<WalletId>, page: seq<WatchedWallet>) {
      && Rotation.IsPage(ActiveWallets(s), last, walletsPerRun, Ids(page))
      && now == Rotation.NextLast(walletsPerRun, Ids(page))
    }

    /** The active PigFi wallets behind the senders of a page, by address: one query, for the addresses of the page. */
    method ResolveSenders(w: WatchedWallet, records: seq<Payment>) returns (senders: map<Address, UserId>, threw: bool)
      requires Ready() && forall r :: r in records ==> r in db.st.ledger
      modifies db
      ensures Ready() && old(db.log) <= db.log && Evolves(old(db.st), db.st)
      ensures db.failures == old(db.failures) + if threw then 1 else 0
      ensures SendersKnown(db.st, senders)
      ensures !threw ==>
                && (forall a :: a in senders <==> IsPigfi(old(db.st), a) && SentBy(Incoming(db.cfg, w.address, records), a))
                && (forall x :: x in old(db.st).wallets && old(db.st).wallets[x].active && old(db.st).wallets[x].closedAt.None?
                                && old(db.st).wallets[x].user !in old(db.st).gone
                                && SentBy(Incoming(db.cfg, w.address, records), old(db.st).wallets[x].address) ==>
                      old(db.st).wallets[x].address in senders)
                && (forall a :: a in senders ==> IsListed(old(db.st), a, senders[a]) && exists r :: r in records && r.from == Some(a))
                && (forall x :: x in old(db.st).wallets && IsActive(old(db.st), x) && old(db.st).wallets[x].address in senders ==>
                      senders[old(db.st).wallets[x].address] == old(db.st).wallets[x].user)
                && StrangersSeen(db.cfg, db.st, w, records, senders)
    {
      hide Inv, Evolves, Legal, Play, IsIncomingUsdc, IsPigfi, SentBy, SendersKnown, StrangersSeen, IsActive, Incoming;
      EvolvesSelf(db.st);
      var incoming := Incoming(db.cfg, w.address, records);
      IncomingIsKnown(db.cfg, db.st, w, records, incoming);
      if incoming == [] {
        return map[], false;
      }
      var ok := db.Call();
      if !ok {
        return map[], true;
      }
      senders := ActiveSenders(incoming);
      threw := false;
      SendersAreListed(db.st, w, records, incoming, senders);
      NotFound(db.st, incoming, senders);
      MarkStrangers(incoming, senders);
      SendersStayKnown(old(db.st), db.st, senders);
      AllSeen(db.cfg, db.st, w, records, senders);
    }

    /** The account owns the address by an active wallet, and is not deleted. */
    ghost predicate IsListed(s: State, a: Address, user: UserId) {
      exists x :: x in s.wallets && s.wallets[x].address == a && s.wallets[x].user == user
        && s.wallets[x].active && s.wallets[x].closedAt.None? && user !in s.gone
    }

    method ActiveSenders(incoming: seq<Payment>) returns (senders: map<Address, UserId>)
      requires Ready()
      ensures SendersKnown(db.st, senders)
      ensures forall a :: a in senders <==> IsPigfi(db.st, a) && SentBy(incoming, a)
      ensures forall a :: a in senders ==> IsListed(db.st, a, senders[a])
      ensures forall x :: x in db.st.wallets && db.st.wallets[x].active && db.st.wallets[x].closedAt.None?
                          && db.st.wallets[x].user !in db.st.gone && SentBy(incoming, db.st.wallets[x].address) ==>
                db.st.wallets[x].address in senders
      ensures forall x :: x in db.st.wallets && IsActive(db.st, x) && db.st.wallets[x].address in senders ==>
                senders[db.st.wallets[x].address] == db.st.wallets[x].user
    {
      senders := map[];
      var left := db.st.wallets.Keys;
      while left != {}
        invariant left <= db.st.wallets.Keys
        invariant forall a :: a in senders ==> exists x :: x !in left && IsSender(db.st, x, incoming, a, senders[a])
        invariant forall x :: x in db.st.wallets && x !in left && IsActive(db.st, x) && SentBy(incoming, db.st.wallets[x].address) ==>
                    db.st.wallets[x].address in senders
      {
        var x :| x in left;
        left := left - {x};
        var wallet := db.st.wallets[x];
        if IsActive(db.st, x) && SentBy(incoming, wallet.address) {
          senders := senders[wallet.address := wallet.user];
          assert IsSender(db.st, x, incoming, wallet.address, senders[wallet.address]);
        }
      }
    }

    lemma SendersAreListed(s: State, w: WatchedWallet, records: seq<Payment>, incoming: seq<Payment>, senders: map<Address, UserId>)
      requires incoming == Incoming(db.cfg, w.address, records) && forall a :: a in senders ==> SentBy(incoming, a)
      ensures forall a :: a in senders ==> exists r :: r in records && r.from == Some(a)
    {
      forall a | a in senders ensures exists r :: r in records && r.from == Some(a) {
        assert SentBy(incoming, a);
        var i :| 0 <= i < |incoming| && incoming[i].from == Some(a);
        assert incoming[i] in incoming;
      }
    }

    /** The answer of the query, kept for every payment whose sender it did not name. */
    method MarkStrangers(incoming: seq<Payment>, senders: map<Address, UserId>)
      requires Ready() && forall r :: r in incoming ==> r in db.st.ledger && r.from.Some?
      requires forall r :: r in incoming && r.from.value !in senders ==> !IsPigfi(db.st, r.from.value)
      modifies db
      ensures Ready() && old(db.log) <= db.log && Evolves(old(db.st), db.st) && db.failures == old(db.failures)
      ensures db.st == old(db.st).(strangers := db.st.strangers)
      ensures forall r :: r in incoming && r.from.value !in senders ==> r.id in db.st.strangers
    {
      hide Inv, Evolves, Legal, Play, IsPigfi;
      EvolvesSelf(db.st);
      for k := 0 to |incoming|
        invariant Ready() && old(db.log) <= db.log && Evolves(old(db.st), db.st) && db.failures == old(db.failures)
        invariant db.st == old(db.st).(strangers := db.st.strangers)
        invariant forall i :: 0 <= i < k && incoming[i].from.value !in senders ==> incoming[i].id in db.st.strangers
      {
        if incoming[k].from.value !in senders {
          ghost var s := db.st;
          SamePigfi(old(db.st), s, incoming[k].from.value);
          db.Perform(SeeStranger(incoming[k]));
          EvolvesFurther(old(db.st), s, db.st);
        }
      }
    }

    /** Whether an onramp explains the payment: two counts, one after the other, of what the orders are then. */
    method HasOnrampNear(w: WatchedWallet, record: Payment)
      returns (near: bool, threw: bool, ghost first: State, ghost second: State)
      requires Ready() && Known(db.st, w) && record in db.st.ledger && IsIncomingUsdc(db.cfg, record, w.address)
      requires record.from.value !in db.cfg.systemSenders && record.id in db.st.strangers
      modifies db
      ensures Ready() && old(db.log) <= db.log && Known(db.st, w) && record in db.st.ledger
      ensures Evolves(old(db.st), first) && Evolves(first, second) && Evolves(second, db.st) && Evolves(old(db.st), db.st)
      ensures !threw ==> (near <==> BlindpayNear(first, w.user, PaidAt(old(db.st), record))
                                    || EtherfuseNear(second, w.user, PaidAt(old(db.st), record)))
      ensures near ==> (w.id, record.id) in db.st.dismissed && Settled(db.st, w.id, record)
      ensures threw ==> !near
      ensures db.failures == old(db.failures) + if threw then 1 else 0
    {
      hide Inv, Evolves, Legal, Play, Settled, Justified, Known, IsIncomingUsdc, Explains;
      var paidAt := PaidAt(db.st, record);
      YieldHolding(w, record);
      first, second := db.st, db.st;
      EvolvesSelf(first);
      var ok := db.Call();
      if !ok {
        return false, true, first, second;
      }
      if BlindpayNear(db.st, w.user, paidAt) {
        var id :| id in db.st.orders && db.st.orders[id].BlindpayOrder? && Explains(db.st.orders[id], w.user, paidAt);
        OrderIsAReason(db.cfg, db.st, w, record, id, paidAt);
        db.Ignore(w.id, record, OnrampDelivery(id, db.st.orders[id], paidAt));
        HeldFurther(old(db.st), first, db.st, w, record);
        return true, false, first, second;
      }
      YieldHolding(w, record);
      second := db.st;
      EvolvesSelf(second);
      EvolvesFurther(old(db.st), first, second);
      ok := db.Call();
      if !ok {
        return false, true, first, second;
      }
      near, threw := EtherfuseNear(db.st, w.user, paidAt), false;
      if near {
        var id :| id in db.st.orders && db.st.orders[id].EtherfuseOrder? && Explains(db.st.orders[id], w.user, paidAt);
        PaidAtHolds(old(db.st), db.st, record);
        OrderIsAReason(db.cfg, db.st, w, record, id, paidAt);
        db.Ignore(w.id, record, OnrampDelivery(id, db.st.orders[id], paidAt));
        HeldFurther(old(db.st), second, db.st, w, record);
      }
    }

    method YieldHolding(w: WatchedWallet, record: Payment)
      requires Ready() && Known(db.st, w) && record in db.st.ledger
      modifies db
      ensures Ready() && old(db.log) <= db.log && Evolves(old(db.st), db.st) && Known(db.st, w) && record in db.st.ledger
      ensures record.id in old(db.st).strangers ==> record.id in db.st.strangers
      ensures old(db.st).now <= db.st.now && db.failures == old(db.failures)
    {
      db.Yield();
    }

    /**
     One payment. It goes unannounced exactly if its sender is one of the system's or another wallet of the owner,
     or if its sender was no active wallet and an onramp explained it when the orders were read.
     */
    method HandlePayment(w: WatchedWallet, record: Payment, senders: map<Address, UserId>)
      returns (handled: Handled, ghost first: State, ghost second: State)
      requires Ready() && Known(db.st, w) && w.cursor.Some? && w.cursor.value < record.token && SendersKnown(db.st, senders)
      requires record in db.st.ledger && IsIncomingUsdc(db.cfg, record, w.address)
      requires record.from.value !in senders ==> record.id in db.st.strangers
      modifies db
      ensures Ready() && old(db.log) <= db.log && Evolves(old(db.st), db.st) && Known(db.st, w)
      ensures handled.Resolved? ==> Settled(db.st, w.id, record)
      ensures db.failures == old(db.failures) + if handled.Resolved? then 0 else 1
      ensures SentByUs(db.cfg, w, record, senders) ==> handled.Resolved? && db.st.outbox == old(db.st).outbox
      ensures !SentByUs(db.cfg, w, record, senders) && record.from.value in senders ==>
                handled != Threw && (handled.Resolved? ==> Told(db.st, w.id, record))
      ensures !SentByUs(db.cfg, w, record, senders) && record.from.value !in senders ==>
                && Evolves(old(db.st), first) && Evolves(first, second) && Evolves(second, db.st)
                && (handled.Resolved? ==>
                      if BlindpayNear(first, w.user, PaidAt(old(db.st), record)) || EtherfuseNear(second, w.user, PaidAt(old(db.st), record))
                      then (w.id, record.id) in db.st.dismissed
                      else Told(db.st, w.id, record))
    {
      hide Inv, Evolves, Legal, Play, Settled, Told, Justified, Known, IsIncomingUsdc, BlindpayNear, EtherfuseNear, SendersKnown;
      EvolvesSelf(db.st);
      first, second := db.st, db.st;
      KnownHere(db.cfg, db.st, w, record);
      OwnReasons(db.cfg, db.st, w, record, senders);
      var from := record.from.value;
      if from in db.cfg.systemSenders {
        db.Ignore(w.id, record, SystemSender);
        KnownEvolves(old(db.st), db.st, w);
        return Resolved, first, second;
      }
      if from in senders && senders[from] == w.user {
        db.Ignore(w.id, record, OwnWallet);
        KnownEvolves(old(db.st), db.st, w);
        return Resolved, first, second;
      }
      if from !in senders {
        var near, threw;
        near, threw, first, second := HasOnrampNear(w, record);
        if threw {
          return Threw, first, second;
        }
        if near {
          return Resolved, first, second;
        }
      }
      ghost var s := db.st;
      var ok, read, before := notifications.Notify(w, record);
      HeldFurther(second, s, db.st, w, record);
      EvolvesFurther(old(db.st), s, db.st);
      ToldIsSettled(db.st, w, record);
      handled := if ok then Resolved else NotRecorded;
    }

    /**
     First sight of a wallet: its cursor is set to its newest payment, if nobody set it first. The write may fail,
     before or after it took effect.
     */
    method TakeBaseline(w: WatchedWallet) returns (taken: bool, threw: bool)
      requires Ready() && Known(db.st, w)
      modifies db
      ensures Ready() && old(db.log) <= db.log && Evolves(old(db.st), db.st) && Known(db.st, w)
      ensures db.failures == old(db.failures) + if threw then 1 else 0
      ensures !threw ==> db.st.wallets[w.id].cursor.Some?
      ensures taken ==> db.st.wallets[w.id].cursor == Some(Newest(old(db.st.ledger), w.address))
    {
      hide Inv, Evolves, Legal, Play, LastToken, BeyondHistory;
      var cursor := Newest(db.st.ledger, w.address);
      db.Yield();
      BaselineFits(db.cfg, old(db.st), db.st, w);
      var ok := db.Call();
      if !ok {
        return false, true;
      }
      taken, threw := db.st.wallets[w.id].cursor.None?, false;
      if taken {
        ghost var s := db.st;
        db.Perform(SetBaseline(w.id, cursor));
        EvolvesFurther(old(db.st), s, db.st);
        KnownEvolves(s, db.st, w);
        ok := db.Call();
        threw := !ok;
      }
    }

    method ProcessPage(w: WatchedWallet, records: seq<Payment>, senders: map<Address, UserId>)
      returns (processed: nat, stopped: bool, threw: bool)
      requires Ready() && Known(db.st, w) && w.cursor.Some? && SendersKnown(db.st, senders)
      requires StrangersSeen(db.cfg, db.st, w, records, senders)
      requires forall r :: r in records ==> r in db.st.ledger && w.cursor.value < r.token
      modifies db
      ensures Ready() && old(db.log) <= db.log && Evolves(old(db.st), db.st)
      ensures processed <= |records|
      ensures !stopped && !threw ==> processed == |records|
      ensures db.failures == old(db.failures) + if stopped || threw then 1 else 0
      ensures Known(db.st, w) && PrefixSettled(db.cfg, db.st, w, records, processed)
    {
      hide Inv, Evolves, Settled, SendersKnown, StrangersSeen, PrefixSettled, IsIncomingUsdc, Known, Legal, Play, Told;
      processed, stopped, threw := 0, false, false;
      EvolvesSelf(db.st);
      PrefixStaysSettled(db.cfg, db.st, db.st, w, records, 0);
      while processed < |records|
        invariant Ready() && old(db.log) <= db.log && Evolves(old(db.st), db.st) && Known(db.st, w)
        invariant SendersKnown(db.st, senders) && StrangersSeen(db.cfg, db.st, w, records, senders)
        invariant processed <= |records| && !stopped && !threw && db.failures == old(db.failures)
        invariant PrefixSettled(db.cfg, db.st, w, records, processed)
      {
        var record := records[processed];
        ghost var s := db.st;
        if IsIncomingUsdc(db.cfg, record, w.address) {
          LedgerStays(old(db.st), s, record);
          SeenBefore(db.cfg, s, w, records, senders, record);
          var handled, first, second := HandlePayment(w, record, senders);
          EvolvesFurther(old(db.st), s, db.st);
          PrefixStaysSettled(db.cfg, s, db.st, w, records, processed);
          SendersStayKnown(s, db.st, senders);
          StrangersStaySeen(db.cfg, s, db.st, w, records, senders);
          if handled.Threw? {
            return processed, false, true;
          }
          if handled.NotRecorded? {
            return processed, true, false;
          }
        }
        PrefixGrows(db.cfg, db.st, w, records, processed);
        processed := processed + 1;
      }
    }

    /**
     One wallet. The stored cursor is moved only over records that are settled, and only while it
     still holds the value this instance read; whatever fails leaves the cursor where it is.
     */
    method ProcessWallet(w: WatchedWallet) returns (outcome: Outcome)
      requires Ready() && Known(db.st, w) && running
      modifies db
      ensures Ready() && old(db.log) <= db.log && Evolves(old(db.st), db.st)
      ensures Known(db.st, w) && Holds(db.cfg, old(db.st), db.st, w, outcome)
      ensures db.failures >= old(db.failures) && (outcome in {Failed, Stopped} ==> db.failures > old(db.failures))
    {
      hide Inv, Evolves, Covered, Settled, Legal, Play, CaughtUpSince, LastToken;
      if w.cursor.None? {
        YieldKnown(w);
        var found := db.Call();
        if !found {
          return Failed;
        }
        ghost var s := db.st;
        var taken, threw := TakeBaseline(w);
        EvolvesFurther(old(db.st), s, db.st);
        return if threw then Failed else Baselined;
      }
      var cursor: nat := w.cursor.value;
      StartReached(db.cfg, db.st, w);
      EvolvesSelf(db.st);
      for page := 0 to MAX_PAGES_PER_WALLET
        invariant Ready() && old(db.log) <= db.log && Evolves(old(db.st), db.st)
        invariant w.cursor.value <= cursor && Reached(db.cfg, db.st, w, cursor)
        invariant page > 0 ==> w.cursor.value < cursor
        invariant db.failures == old(db.failures)
      {
        ghost var s := db.st;
        var verdict, next := ProcessNextPage(w, cursor);
        EvolvesFurther(old(db.st), s, db.st);
        if verdict.Some? {
          if verdict.value.CaughtUp? {
            CaughtUpSinceEarlier(db.cfg, old(db.st), s, db.st, w);
          }
          return verdict.value;
        }
        cursor := next;
      }
      return PageLimit;
    }

    /** One round of the page loop; no verdict means that the next page may follow. */
    method ProcessNextPage(w: WatchedWallet, cursor: nat) returns (verdict: Option<Outcome>, next: nat)
      requires Ready() && w.cursor.Some? && w.cursor.value <= cursor && Reached(db.cfg, db.st, w, cursor)
      modifies db
      ensures Ready() && old(db.log) <= db.log && Evolves(old(db.st), db.st)
      ensures cursor <= next && Reached(db.cfg, db.st, w, next)
      ensures verdict.None? ==> cursor < next
      ensures verdict.Some? ==> verdict.value in {CaughtUp, Stopped, LostRace, Failed}
      ensures verdict == Some(LostRace) ==> cursor < db.st.wallets[w.id].cursor.value
      ensures verdict == Some(CaughtUp) ==> Known(db.st, w) && CaughtUpSince(db.cfg, old(db.st), db.st, w)
      ensures db.failures >= old(db.failures) && (verdict.Some? && verdict.value in {Failed, Stopped} ==> db.failures > old(db.failures))
      ensures verdict.None? ==> db.failures == old(db.failures)
    {
      hide Inv, Evolves, Covered, Settled, PrefixSettled, IsIncomingUsdc, PaymentsAfter, Legal, Play, SendersKnown, CaughtUpSince, LastToken;
      KnownFromReached(db.cfg, db.st, w, cursor);
      next := cursor;
      YieldReached(w, cursor);
      var found := db.Call();
      if !found {
        return Some(Failed), cursor;
      }
      var records := PaymentsAfter(db.st.ledger, w.address, cursor, PAGE_SIZE);
      ghost var read := db.st;
      var processed, stopped := 0, false;
      if records != [] {
        var threw;
        processed, stopped, threw := HandlePage(w, cursor, records);
        ReachedEvolves(db.cfg, read, db.st, w, cursor);
        EvolvesFurther(old(db.st), read, db.st);
        if threw {
          return Some(Failed), cursor;
        }
      } else {
        EvolvesSelf(db.st);
        PrefixStaysSettled(db.cfg, db.st, db.st, w, records, 0);
      }
      ghost var handled := db.st;
      verdict, next := FinishPage(w, cursor, read, records, processed, stopped);
      EvolvesFurther(old(db.st), handled, db.st);
      EvolvesFurther(read, handled, db.st);
      if verdict == Some(CaughtUp) {
        ShortPageCatchesUp(db.cfg, old(db.st), read, db.st, w, cursor, records, next);
      }
    }

    /** The senders of the page and then its records, oldest first, up to the first that could not be recorded. */
    method HandlePage(w: WatchedWallet, cursor: nat, records: seq<Payment>) returns (processed: nat, stopped: bool, threw: bool)
      requires Ready() && Known(db.st, w) && w.cursor.Some? && w.cursor.value <= cursor
      requires records == PaymentsAfter(db.st.ledger, w.address, cursor, PAGE_SIZE)
      modifies db
      ensures Ready() && old(db.log) <= db.log && Evolves(old(db.st), db.st)
      ensures processed <= |records|
      ensures !stopped && !threw ==> processed == |records|
      ensures db.failures == old(db.failures) + if stopped || threw then 1 else 0
      ensures Known(db.st, w) && PrefixSettled(db.cfg, db.st, w, records, processed)
    {
      hide Inv, Evolves, Settled, PrefixSettled, IsIncomingUsdc, PaymentsAfter, Legal;
      hide Play, SendersKnown, StrangersSeen, Known, IsPigfi, SentBy, IsActive, Incoming;
      PageIsRead(db.cfg, db.st, w, cursor);
      var senders, unknown := ResolveSenders(w, records);
      KnownEvolves(old(db.st), db.st, w);
      PrefixStaysSettled(db.cfg, old(db.st), db.st, w, records, 0);
      if unknown {
        return 0, false, true;
      }
      ghost var s := db.st;
      RecordsStay(old(db.st), s, records);
      processed, stopped, threw := ProcessPage(w, records, senders);
      EvolvesFurther(old(db.st), s, db.st);
    }

    method FinishPage(w: WatchedWallet, cursor: nat, ghost read: State, records: seq<Payment>, processed: nat, stopped: bool)
      returns (verdict: Option<Outcome>, next: nat)
      requires Ready() && w.cursor.Some? && w.cursor.value <= cursor && Reached(db.cfg, db.st, w, cursor)
      requires Inv(db.cfg, read) && Known(read, w) && Evolves(read, db.st)
      requires records == PaymentsAfter(read.ledger, w.address, cursor, PAGE_SIZE) && processed <= |records|
      requires Known(db.st, w) && PrefixSettled(db.cfg, db.st, w, records, processed) && (!stopped ==> processed == |records|)
      modifies db
      ensures Ready() && old(db.log) <= db.log && Evolves(old(db.st), db.st)
      ensures cursor <= next && Reached(db.cfg, db.st, w, next)
      ensures verdict.None? ==> cursor < next
      ensures verdict.Some? ==> verdict.value in {CaughtUp, Stopped, LostRace, Failed}
      ensures verdict == Some(LostRace) ==> cursor < db.st.wallets[w.id].cursor.value
      ensures verdict == Some(CaughtUp) ==> |records| < PAGE_SIZE
      ensures verdict == Some(CaughtUp) ==> next == if records == [] then cursor else records[|records| - 1].token
      ensures verdict == Some(Stopped) ==> stopped
      ensures verdict.None? ==> !stopped
      ensures db.failures == old(db.failures) + if verdict == Some(Failed) then 1 else 0
    {
      hide Inv, Evolves, Covered, Settled, PrefixSettled, IsIncomingUsdc, Known, PaymentsAfter, Legal, Play;
      EvolvesSelf(db.st);
      if records == [] {
        return Some(CaughtUp), cursor;
      }
      next := cursor;
      YieldReached(w, cursor);
      ghost var mid := db.st;
      EvolvesFurther(read, old(db.st), mid);
      PrefixStaysSettled(db.cfg, old(db.st), mid, w, records, processed);
      if processed > 0 {
        PageCovers(db.cfg, read, db.st, w, cursor, records, processed);
        var moved, threw := MoveCursor(w, cursor, records[processed - 1].token);
        EvolvesFurther(old(db.st), mid, db.st);
        if threw {
          return Some(Failed), cursor;
        }
        if !moved {
          return Some(LostRace), cursor;
        }
        next := records[processed - 1].token;
      }
      if stopped {
        return Some(Stopped), next;
      }
      verdict := if |records| < PAGE_SIZE then Some(CaughtUp) else None;
    }

    method YieldKnown(w: WatchedWallet)
      requires Ready() && Known(db.st, w)
      modifies db
      ensures Ready() && old(db.log) <= db.log && Evolves(old(db.st), db.st) && Known(db.st, w)
      ensures db.failures == old(db.failures)
    {
      db.Yield();
      KnownEvolves(old(db.st), db.st, w);
    }

    method YieldReached(w: WatchedWallet, cursor: nat)
      requires Ready() && w.cursor.Some? && Reached(db.cfg, db.st, w, cursor)
      modifies db
      ensures Ready() && old(db.log) <= db.log && Evolves(old(db.st), db.st) && Reached(db.cfg, db.st, w, cursor)
      ensures db.failures == old(db.failures)
    {
      db.Yield();
      ReachedEvolves(db.cfg, old(db.st), db.st, w, cursor);
    }

    /** The compare-and-set on the stored cursor; another instance that moved it first wins. */
    method MoveCursor(w: WatchedWallet, expected: nat, cursor: nat) returns (moved: bool, threw: bool)
      requires Ready() && w.cursor.Some? && w.cursor.value <= expected && Reached(db.cfg, db.st, w, expected)
      requires expected < cursor <= LastToken(db.st.ledger) && Covered(db.cfg, db.st, w.id, expected, cursor)
      modifies db
      ensures Ready() && old(db.log) <= db.log && Evolves(old(db.st), db.st) && Reached(db.cfg, db.st, w, expected)
      ensures moved && !threw ==> old(db.st.wallets[w.id].cursor) == Some(expected)
      ensures moved && !threw ==> Reached(db.cfg, db.st, w, cursor)
      ensures !moved && !threw ==> db.st == old(db.st) && expected < db.st.wallets[w.id].cursor.value
      ensures db.failures == old(db.failures) + if threw then 1 else 0
    {
      hide Inv, Evolves, Covered, Legal, Play, Settled, LastToken;
      EvolvesSelf(db.st);
      var ok := db.Call();
      if !ok {
        return false, true;
      }
      if db.st.wallets[w.id].cursor != Some(expected) {
        return false, false;
      }
      db.Perform(Advance(w.id, expected, cursor));
      AdvanceReaches(db.cfg, old(db.st), db.st, w, expected, cursor);
      ok := db.Call();
      return true, !ok;
    }
  }

  /** The wallet's stored cursor got at least to `cursor`, with everything up to it settled. */
  ghost predicate Reached(cfg: Config, s: State, w: WatchedWallet, cursor: nat)
    requires w.cursor.Some?
  {
    && Known(s, w) && Known(s, At(w, cursor))
    && cursor <= LastToken(s.ledger)
    && Covered(cfg, s, w.id, w.cursor.value, cursor)
  }

  lemma AdvanceReaches(cfg: Config, s: State, t: State, w: WatchedWallet, expected: nat, cursor: nat)
    requires Inv(cfg, s) && Inv(cfg, t) && Evolves(s, t) && w.cursor.Some? && Reached(cfg, s, w, expected)
    requires w.cursor.value <= expected < cursor <= LastToken(s.ledger) && Covered(cfg, s, w.id, expected, cursor)
    requires w.id in t.wallets && t.wallets[w.id].cursor == Some(cursor)
    ensures Reached(cfg, t, w, expected) && Reached(cfg, t, w, cursor)
  {
    hide Inv, Evolves, LastToken;
    ReachedEvolves(cfg, s, t, w, expected);
    CoveredEvolves(cfg, s, t, w.id, expected, cursor);
  }

  lemma StartReached(cfg: Config, s: State, w: WatchedWallet)
    requires Inv(cfg, s) && Known(s, w) && w.cursor.Some?
    ensures Reached(cfg, s, w, w.cursor.value)
  {
  }

  lemma KnownFromReached(cfg: Config, s: State, w: WatchedWallet, cursor: nat)
    requires w.cursor.Some? && w.cursor.value <= cursor && Reached(cfg, s, w, cursor)
    ensures Known(s, w)
  {
  }

  lemma PageIsRead(cfg: Config, s: State, w: WatchedWallet, cursor: nat)
    requires Inv(cfg, s)
    ensures forall r :: r in PaymentsAfter(s.ledger, w.address, cursor, PAGE_SIZE) ==> r in s.ledger && cursor < r.token
  {
    PageIsComplete(s.ledger, w.address, cursor, PAGE_SIZE);
  }

  lemma ReachedEvolves(cfg: Config, s: State, t: State, w: WatchedWallet, cursor: nat)
    requires Inv(cfg, s) && Inv(cfg, t) && Evolves(s, t) && w.cursor.Some? && Reached(cfg, s, w, cursor)
    ensures Reached(cfg, t, w, cursor)
  {
    CoveredEvolves(cfg, s, t, w.id, w.cursor.value, cursor);
  }

  lemma LedgerStays(s: State, t: State, p: Payment)
    requires Evolves(s, t) && p in s.ledger
    ensures p in t.ledger
  {
  }

  lemma EvolvesSelf(s: State)
    ensures Evolves(s, s)
  {
  }

  ghost predicate PrefixSettled(cfg: Config, s: State, w: WatchedWallet, records: seq<Payment>, n: nat)
    requires Known(s, w) && n <= |records|
  {
    forall k :: 0 <= k < n && IsIncomingUsdc(cfg, records[k], w.address) ==> Settled(s, w.id, records[k])
  }

  lemma PrefixGrows(cfg: Config, s: State, w: WatchedWallet, records: seq<Payment>, n: nat)
    requires Known(s, w) && n < |records| && PrefixSettled(cfg, s, w, records, n)
    requires IsIncomingUsdc(cfg, records[n], w.address) ==> w.id in s.wallets && Settled(s, w.id, records[n])
    ensures PrefixSettled(cfg, s, w, records, n + 1)
  {
  }

  lemma PrefixStaysSettled(cfg: Config, s: State, t: State, w: WatchedWallet, records: seq<Payment>, n: nat)
    requires Evolves(s, t) && Known(s, w) && n <= |records| && (n == 0 || PrefixSettled(cfg, s, w, records, n))
    ensures Known(t, w) && PrefixSettled(cfg, t, w, records, n)
  {
  }

  lemma StrangersStaySeen(cfg: Config, s: State, t: State, w: WatchedWallet, records: seq<Payment>, senders: map<Address, UserId>)
    requires Evolves(s, t) && StrangersSeen(cfg, s, w, records, senders)
    ensures StrangersSeen(cfg, t, w, records, senders)
  {
  }

  lemma SeenBefore(cfg: Config, s: State, w: WatchedWallet, records: seq<Payment>, senders: map<Address, UserId>, r: Payment)
    requires StrangersSeen(cfg, s, w, records, senders) && r in records && IsIncomingUsdc(cfg, r, w.address)
    ensures r.from.Some? && (r.from.value !in senders ==> r.id in s.strangers)
  {
  }

  lemma RecordsStay(s: State, t: State, records: seq<Payment>)
    requires Evolves(s, t) && forall r :: r in records ==> r in s.ledger
    ensures forall r :: r in records ==> r in t.ledger
  {
  }

  lemma SendersStayKnown(s: State, t: State, senders: map<Address, UserId>)
    requires Evolves(s, t) && SendersKnown(s, senders)
    ensures SendersKnown(t, senders)
  {
  }
}
