/**
 The watcher of received transfers (src/jobs/incoming-payments.job.ts).

 Any number of instances page the same ledger with one stored cursor per wallet. The cursor is
 moved by a compare-and-set, and notifications are inserted under a unique key. `Event` lists the
 atomic steps of the shared state, among them those of users and partners: wallets come and go, onramp
 orders change, accounts are scrubbed. The imperative job performs its steps between points where the
 other instances (and the rest of the world) may do any number of steps of their own.
 */
module IncomingPayments {
  import opened Common

  type Address = nat
  type UserId = nat
  type WalletId = nat
  type RowId = nat
  type OrderId = nat

  datatype Kind = PaymentOp | OtherOp
  datatype Asset = Native | Credit(code: nat, issuer: Address)

  /** One record of an account's payment history; `parties` are the accounts that list it. */
  datatype Payment = Payment(
    id: nat, token: nat, kind: Kind, successful: bool, createdAt: Option<int>,
    from: Option<Address>, to: Option<Address>, asset: Asset, stroops: nat, parties: set<Address>)

  const PAGE_SIZE := 50
  const MAX_PAGES_PER_WALLET := 3
  /** 0.01 in units of 10^-7. */
  const MIN_NOTIFY_STROOPS := 100_000
  const ONRAMP_OPEN_WINDOW_MS := 72 * 60 * 60_000
  const ONRAMP_COMPLETED_WINDOW_MS := 2 * 60 * 60_000

  datatype Config = Config(usdc: Asset, systemSenders: set<Address>)

  /**
   `address` is the wallet's address until its account is scrubbed, and archived from then on. `openedAt` and
   `closedAt` are history: the last token on the ledger when the wallet appeared and when it was scrubbed.
   */
  datatype Wallet = Wallet(user: UserId, address: Address, active: bool, cursor: Option<nat>, openedAt: nat, closedAt: Option<nat>)

  datatype Key = PaymentKey(id: nat) | OtherKey(tag: nat)
  datatype Row = Row(key: Key, user: UserId, pending: bool)

  // ----- Onramp orders -----

  datatype RampStatus = PENDING | AWAITING_PAYMENT | PROCESSING | DELEGATION_NEEDED | COMPLETED | FAILED | REFUNDED
  datatype EtherfuseStatus = CREATED | PENDING_SIGNATURE | PROCESSING | COMPLETED | FAILED | REFUNDED
  datatype Direction = ONRAMP | OFFRAMP

  datatype Order =
    | BlindpayOrder(user: UserId, ramp: RampStatus, createdAt: int, completedAt: Option<int>)
    | EtherfuseOrder(user: UserId, direction: Direction, etherfuse: EtherfuseStatus, createdAt: int, completedAt: Option<int>)

  predicate IsOpen(o: Order) {
    match o
    case BlindpayOrder(_, ramp, _, _) => ramp in {RampStatus.PENDING, RampStatus.AWAITING_PAYMENT, RampStatus.PROCESSING}
    case EtherfuseOrder(_, _, status, _, _) =>
      status in {EtherfuseStatus.CREATED, EtherfuseStatus.PENDING_SIGNATURE, EtherfuseStatus.PROCESSING}
  }

  predicate IsCompleted(o: Order) {
    match o
    case BlindpayOrder(_, ramp, _, _) => ramp == RampStatus.COMPLETED
    case EtherfuseOrder(_, _, status, _, _) => status == EtherfuseStatus.COMPLETED
  }

  /** An onramp of the user, in progress and created at most 72 h before, or completed within 2 h either side. */
  predicate Explains(o: Order, user: UserId, paidAt: int) {
    && o.user == user && (o.EtherfuseOrder? ==> o.direction == ONRAMP)
    && (|| (IsOpen(o) && o.createdAt >= paidAt - ONRAMP_OPEN_WINDOW_MS)
        || (IsCompleted(o) && o.completedAt.Some?
            && paidAt - ONRAMP_COMPLETED_WINDOW_MS <= o.completedAt.value <= paidAt + ONRAMP_COMPLETED_WINDOW_MS))
  }

  /** What never changes about an order: whose it is, of which partner and direction, and when it was created. */
  predicate SameOrder(o: Order, p: Order) {
    && o.user == p.user && o.createdAt == p.createdAt && o.BlindpayOrder? == p.BlindpayOrder?
    && (o.EtherfuseOrder? && p.EtherfuseOrder? ==> o.direction == p.direction)
  }

  // ----- The shared state -----

  /** Why a payment was ignored; an onramp delivery names the order, as it was, and the time it was held against. */
  datatype Reason = SystemSender | OwnWallet | OnrampDelivery(order: OrderId, was: Order, paidAt: int)

  /**
   History: `checked` are the payments an open account was found for before inserting a row, `dismissed`
   those ignored and why, `baselines` each first cursor, `strangers` the payments whose sender was looked up
   and was no active wallet, `everOrders` every value an order ever had. `muted` are the users who have switched the
   category off.
   */
  datatype State = State(
    ledger: seq<Payment>,
    wallets: map<WalletId, Wallet>,
    gone: set<UserId>,
    muted: set<UserId>,
    outbox: map<RowId, Row>,
    nextRow: RowId,
    orders: map<OrderId, Order>,
    now: int,
    checked: map<(WalletId, nat), Payment>,
    dismissed: map<(WalletId, nat), Reason>,
    baselines: map<WalletId, nat>,
    strangers: set<nat>,
    everOrders: set<(OrderId, Order)>)

  predicate IsIncomingUsdc(cfg: Config, r: Payment, address: Address) {
    && r.kind.PaymentOp?
    && r.successful
    && r.to == Some(address)
    && r.from.Some?
    && r.from.value != address
    && r.asset.Credit?
    && r.asset == cfg.usdc
    && r.stroops >= MIN_NOTIFY_STROOPS
  }

  function LastToken(ledger: seq<Payment>): nat {
    if ledger == [] then 0 else ledger[|ledger| - 1].token
  }

  predicate HasKey(outbox: map<RowId, Row>, key: Key) {
    exists i :: i in outbox && outbox[i].key == key
  }

  predicate HasRowFor(outbox: map<RowId, Row>, key: Key, user: UserId) {
    exists i :: i in outbox && outbox[i].key == key && outbox[i].user == user
  }

  predicate IsActive(s: State, x: WalletId)
    requires x in s.wallets
  {
    s.wallets[x].active && s.wallets[x].closedAt.None? && s.wallets[x].user !in s.gone
  }

  /** The address is that of an active wallet of an account that is not deleted. */
  predicate IsPigfi(s: State, a: Address) {
    exists x :: x in s.wallets && IsActive(s, x) && s.wallets[x].address == a
  }

  /** The payment has its notification, addressed to the wallet's owner, or there is nobody left to notify. */
  predicate Told(s: State, w: WalletId, p: Payment)
    requires w in s.wallets
  {
    s.wallets[w].user in s.gone || HasRowFor(s.outbox, PaymentKey(p.id), s.wallets[w].user)
  }

  /** The owner was told of the payment, or it was ignored on purpose. */
  predicate Settled(s: State, w: WalletId, p: Payment)
    requires w in s.wallets
  {
    Told(s, w, p) || (w, p.id) in s.dismissed
  }

  ghost predicate Justified(cfg: Config, s: State, w: WalletId, p: Payment, reason: Reason) {
    && w in s.wallets
    && IsIncomingUsdc(cfg, p, s.wallets[w].address)
    && match reason
       case SystemSender => p.from.value in cfg.systemSenders
       case OwnWallet =>
         exists x :: x in s.wallets && s.wallets[x].address == p.from.value && s.wallets[x].user == s.wallets[w].user
       case OnrampDelivery(id, was, paidAt) =>
         && p.from.value !in cfg.systemSenders && p.id in s.strangers
         && (id, was) in s.everOrders && Explains(was, s.wallets[w].user, paidAt)
         && (if p.createdAt.Some? then paidAt == p.createdAt.value else paidAt <= s.now)
  }

  /** Every incoming payment of `w` with token in (after, upTo] is settled. */
  ghost predicate Covered(cfg: Config, s: State, w: WalletId, after: nat, upTo: nat)
    requires w in s.wallets
  {
    forall p :: p in s.ledger && IsIncomingUsdc(cfg, p, s.wallets[w].address) && after < p.token <= upTo
                ==> Settled(s, w, p)
  }

  /** Nothing the address had received when the wallet appeared comes after `cursor`. */
  ghost predicate BeyondHistory(cfg: Config, s: State, w: WalletId, cursor: nat)
    requires w in s.wallets
  {
    forall p :: p in s.ledger && IsIncomingUsdc(cfg, p, s.wallets[w].address) && p.token <= s.wallets[w].openedAt ==> p.token <= cursor
  }

  // ----- The shared state machine -----

  datatype Event =
    | AppendPayment(payment: Payment)
    | Tick(now: int)
    | OpenWallet(wallet: WalletId, user: UserId, address: Address)
    | DeactivateWallet(wallet: WalletId)
    | ReactivateWallet(wallet: WalletId)
    | CloseAccount(user: UserId)
    | SetPreference(user: UserId, on: bool)
    | SetOrder(id: OrderId, order: Order)
    | SeeStranger(payment: Payment)
    | CheckOpen(wallet: WalletId, payment: Payment)
    | InsertRow(wallet: WalletId, paymentId: nat, pending: bool)
    | InsertOther(tag: nat, user: UserId, pending: bool)
    | Dismiss(wallet: WalletId, payment: Payment, reason: Reason)
    | SetBaseline(wallet: WalletId, cursor: nat)
    | Advance(wallet: WalletId, expected: nat, cursor: nat)

  ghost predicate Enabled(cfg: Config, s: State, e: Event) {
    match e
    case AppendPayment(p) =>
      && p.token > LastToken(s.ledger)
      && forall q :: q in s.ledger ==> q.id != p.id
    case Tick(now) => s.now <= now
    case OpenWallet(w, _, a) => w !in s.wallets && forall x :: x in s.wallets && s.wallets[x].closedAt.None? ==> s.wallets[x].address != a
    case DeactivateWallet(w) => w in s.wallets
    case ReactivateWallet(w) => w in s.wallets && s.wallets[w].closedAt.None?
    case CloseAccount(_) => true
    case SetPreference(_, _) => true
    case SetOrder(id, order) => id in s.orders ==> SameOrder(s.orders[id], order)
    case SeeStranger(p) => p in s.ledger && p.from.Some? && !IsPigfi(s, p.from.value)
    case CheckOpen(w, p) =>
      && w in s.wallets && s.wallets[w].user !in s.gone && p in s.ledger && IsIncomingUsdc(cfg, p, s.wallets[w].address)
    case InsertRow(w, id, _) => (w, id) in s.checked && w in s.wallets && !HasKey(s.outbox, PaymentKey(id))
    case InsertOther(tag, _, _) => !HasKey(s.outbox, OtherKey(tag))
    case Dismiss(w, p, reason) =>
      && p in s.ledger && Justified(cfg, s, w, p, reason)
      && (reason.OnrampDelivery? ==> reason.order in s.orders && s.orders[reason.order] == reason.was)
    case SetBaseline(w, c) => w in s.wallets && s.wallets[w].cursor.None? && c <= LastToken(s.ledger) && BeyondHistory(cfg, s, w, c)
    case Advance(w, c, d) =>
      && w in s.wallets && s.wallets[w].cursor == Some(c)
      && c < d <= LastToken(s.ledger)
      && Covered(cfg, s, w, c, d)
  }

  function AddRow(s: State, row: Row): State {
    s.(outbox := s.outbox[s.nextRow := row], nextRow := s.nextRow + 1)
  }

  /** The scrub: the user's notifications are deleted and the wallets lose their address. */
  function Scrubbed(s: State, u: UserId): State {
    s.(gone := s.gone + {u},
       outbox := map i | i in s.outbox && s.outbox[i].user != u :: s.outbox[i],
       wallets := map w | w in s.wallets ::
         if s.wallets[w].user == u && s.wallets[w].closedAt.None?
         then s.wallets[w].(active := false, closedAt := Some(LastToken(s.ledger))) else s.wallets[w])
  }

  function Apply(s: State, e: Event): State {
    match e
    case AppendPayment(p) => s.(ledger := s.ledger + [p])
    case Tick(now) => s.(now := now)
    case OpenWallet(w, u, a) => s.(wallets := s.wallets[w := Wallet(u, a, true, None, LastToken(s.ledger), None)])
    case DeactivateWallet(w) =>
      if w in s.wallets then s.(wallets := s.wallets[w := s.wallets[w].(active := false)]) else s
    case ReactivateWallet(w) =>
      if w in s.wallets then s.(wallets := s.wallets[w := s.wallets[w].(active := true)]) else s
    case CloseAccount(u) => Scrubbed(s, u)
    case SetPreference(u, on) => s.(muted := if on then s.muted - {u} else s.muted + {u})
    case SetOrder(id, order) => s.(orders := s.orders[id := order], everOrders := s.everOrders + {(id, order)})
    case SeeStranger(p) => s.(strangers := s.strangers + {p.id})
    case CheckOpen(w, p) => s.(checked := s.checked[(w, p.id) := p])
    case InsertRow(w, id, pending) => if w in s.wallets then AddRow(s, Row(PaymentKey(id), s.wallets[w].user, pending)) else s
    case InsertOther(tag, user, pending) => AddRow(s, Row(OtherKey(tag), user, pending))
    case Dismiss(w, p, reason) =>
      s.(dismissed := s.dismissed[(w, p.id) := if (w, p.id) in s.dismissed then s.dismissed[(w, p.id)] else reason])
    case SetBaseline(w, c) =>
      if w in s.wallets then
        s.(wallets := s.wallets[w := s.wallets[w].(cursor := Some(c))], baselines := s.baselines[w := c])
      else s
    case Advance(w, c, d) =>
      if w in s.wallets then s.(wallets := s.wallets[w := s.wallets[w].(cursor := Some(d))]) else s
  }

  // ----- The invariant -----

  ghost predicate LedgerOk(ledger: seq<Payment>) {
    && (forall i, j :: 0 <= i < j < |ledger| ==> ledger[i].token < ledger[j].token)
    && (forall i, j :: 0 <= i < |ledger| && 0 <= j < |ledger| && ledger[i].id == ledger[j].id ==> i == j)
    && (forall i :: 0 <= i < |ledger| ==> 0 < ledger[i].token <= LastToken(ledger))
  }

  /** Row ids are used once, and no key has two rows. */
  ghost predicate OutboxOk(s: State) {
    && (forall i :: i in s.outbox ==> i < s.nextRow)
    && (forall i, j :: i in s.outbox && j in s.outbox && s.outbox[i].key == s.outbox[j].key ==> i == j)
  }

  /** One after the other: the first was scrubbed before the second appeared. */
  predicate Follows(first: Wallet, second: Wallet) {
    first.closedAt.Some? && first.closedAt.value <= second.openedAt
  }

  /** An address is never that of two wallets at the same time. */
  ghost predicate OneAtATime(wallets: map<WalletId, Wallet>) {
    forall x, y :: x in wallets && y in wallets && x != y && wallets[x].address == wallets[y].address ==>
      Follows(wallets[x], wallets[y]) || Follows(wallets[y], wallets[x])
  }

  ghost predicate TimesOk(s: State) {
    forall x :: x in s.wallets ==>
      && s.wallets[x].openedAt <= LastToken(s.ledger)
      && (s.wallets[x].closedAt.Some? ==> s.wallets[x].user in s.gone && s.wallets[x].closedAt.value <= LastToken(s.ledger))
  }

  ghost predicate CheckedOk(cfg: Config, s: State, c: (WalletId, nat))
    requires c in s.checked
  {
    var p := s.checked[c];
    && c.0 in s.wallets && p in s.ledger && p.id == c.1 && IsIncomingUsdc(cfg, p, s.wallets[c.0].address)
    && (s.wallets[c.0].closedAt.Some? ==> p.token <= s.wallets[c.0].closedAt.value)
  }

  /** A payment's row is for the account that received it. */
  ghost predicate ForRecipient(s: State, row: Row)
    requires row.key.PaymentKey?
  {
    exists w :: (w, row.key.id) in s.checked && w in s.wallets && row.user == s.wallets[w].user
  }

  ghost predicate RowsAddressed(s: State) {
    forall i :: i in s.outbox && s.outbox[i].key.PaymentKey? ==> ForRecipient(s, s.outbox[i])
  }

  ghost predicate JustifiedId(cfg: Config, s: State, w: WalletId, id: nat, reason: Reason) {
    exists p :: p in s.ledger && p.id == id && Justified(cfg, s, w, p, reason)
  }

  ghost predicate DismissalsJustified(cfg: Config, s: State) {
    forall c :: c in s.dismissed ==> JustifiedId(cfg, s, c.0, c.1, s.dismissed[c])
  }

  ghost predicate OrdersKnown(s: State) {
    && (forall id :: id in s.orders ==> (id, s.orders[id]) in s.everOrders)
    && (forall c :: c in s.everOrders ==> c.0 in s.orders && SameOrder(c.1, s.orders[c.0]))
  }

  ghost predicate BaselinesOk(s: State) {
    forall w :: w in s.baselines <==> w in s.wallets && s.wallets[w].cursor.Some?
  }

  ghost predicate CursorCovered(cfg: Config, s: State, w: WalletId) {
    && w in s.wallets && s.wallets[w].cursor.Some? && w in s.baselines
    && s.baselines[w] <= s.wallets[w].cursor.value <= LastToken(s.ledger)
    && s.wallets[w].openedAt <= LastToken(s.ledger) && BeyondHistory(cfg, s, w, s.baselines[w])
    && Covered(cfg, s, w, s.baselines[w], s.wallets[w].cursor.value)
  }

  ghost predicate Inv(cfg: Config, s: State) {
    && LedgerOk(s.ledger)
    && OutboxOk(s)
    && OneAtATime(s.wallets)
    && TimesOk(s)
    && (forall c :: c in s.checked ==> CheckedOk(cfg, s, c))
    && RowsAddressed(s)
    && DismissalsJustified(cfg, s)
    && OrdersKnown(s)
    && BaselinesOk(s)
    && (forall w :: w in s.baselines ==> CursorCovered(cfg, s, w))
  }

  const Empty := State([], map[], {}, {}, map[], 0, map[], 0, map[], map[], map[], {}, {})

  ghost predicate Legal(cfg: Config, log: seq<Event>) {
    log != [] ==> Legal(cfg, log[..|log| - 1]) && Enabled(cfg, Play(log[..|log| - 1]), log[|log| - 1])
  }

  /** The state reached from an empty database by the steps of `log`, in order. */
  ghost function Play(log: seq<Event>): State {
    if log == [] then Empty else Apply(Play(log[..|log| - 1]), log[|log| - 1])
  }

  /** What every later state keeps: a row as long as its user is not deleted, all else for good. */
  ghost predicate Evolves(s: State, t: State) {
    s.ledger <= t.ledger && s.gone <= t.gone && s.now <= t.now && RowsStay(s, t) && WalletsStay(s, t) && HistoryStays(s, t)
  }

  ghost predicate RowsStay(s: State, t: State) {
    forall i :: i in s.outbox && s.outbox[i].user !in t.gone ==> i in t.outbox && t.outbox[i] == s.outbox[i]
  }

  ghost predicate WalletsStay(s: State, t: State) {
    forall w :: w in s.wallets ==> w in t.wallets && SameWallet(s.wallets[w], t.wallets[w])
  }

  ghost predicate HistoryStays(s: State, t: State) {
    && s.strangers <= t.strangers && s.everOrders <= t.everOrders
    && (forall c :: c in s.checked ==> c in t.checked)
    && (forall c :: c in s.dismissed ==> c in t.dismissed && t.dismissed[c] == s.dismissed[c])
    && (forall w :: w in s.baselines ==> w in t.baselines && t.baselines[w] == s.baselines[w])
  }

  predicate SameWallet(v: Wallet, w: Wallet) {
    && w.user == v.user && w.address == v.address && w.openedAt == v.openedAt
    && (v.closedAt.Some? ==> w.closedAt == v.closedAt)
    && (v.cursor.Some? ==> w.cursor.Some? && v.cursor.value <= w.cursor.value)
  }

  // ----- Every step keeps it -----

  lemma SettledIsStable(s: State, t: State, w: WalletId, p: Payment)
    requires Evolves(s, t) && w in s.wallets && Settled(s, w, p)
    ensures w in t.wallets && Settled(t, w, p)
  {
  }

  lemma StepEvolves(cfg: Config, s: State, e: Event)
    requires OutboxOk(s) && BaselinesOk(s) && Enabled(cfg, s, e)
    ensures Evolves(s, Apply(s, e))
  {
    hide Covered, BeyondHistory, Justified, IsPigfi, HasKey, RowsStay, WalletsStay, HistoryStays, OutboxOk, BaselinesOk, IsIncomingUsdc;
    StepMovesWallets(cfg, s, e);
    StepKeepsOldRows(cfg, s, e);
    StepKeepsHistory(cfg, s, e);
  }

  lemma StepMovesWallets(cfg: Config, s: State, e: Event)
    requires Enabled(cfg, s, e)
    ensures WalletsStay(s, Apply(s, e))
  {
    hide Covered, BeyondHistory, Justified, IsPigfi, HasKey, IsIncomingUsdc;
  }

  lemma StepKeepsOldRows(cfg: Config, s: State, e: Event)
    requires OutboxOk(s) && Enabled(cfg, s, e)
    ensures RowsStay(s, Apply(s, e))
  {
    hide Covered, BeyondHistory, Justified, IsPigfi, HasKey, IsIncomingUsdc;
  }

  lemma StepKeepsHistory(cfg: Config, s: State, e: Event)
    requires BaselinesOk(s) && Enabled(cfg, s, e)
    ensures HistoryStays(s, Apply(s, e))
  {
    hide Covered, BeyondHistory, Justified, IsPigfi, HasKey, IsIncomingUsdc;
  }

  lemma JustifiedIsStable(cfg: Config, s: State, t: State, w: WalletId, p: Payment, reason: Reason)
    requires Evolves(s, t) && Justified(cfg, s, w, p, reason)
    ensures Justified(cfg, t, w, p, reason)
  {
  }

  /** Coverage survives a step: old records stay settled, and a new record is beyond every cursor. */
  lemma CoveredIsStable(cfg: Config, s: State, e: Event, w: WalletId, after: nat, upTo: nat)
    requires LedgerOk(s.ledger) && Evolves(s, Apply(s, e)) && Enabled(cfg, s, e) && w in s.wallets
    requires upTo <= LastToken(s.ledger) && Covered(cfg, s, w, after, upTo)
    ensures w in Apply(s, e).wallets && Covered(cfg, Apply(s, e), w, after, upTo)
  {
    var t := Apply(s, e);
    hide Settled, IsIncomingUsdc;
    forall p | p in t.ledger && IsIncomingUsdc(cfg, p, t.wallets[w].address) && after < p.token <= upTo
      ensures Settled(t, w, p)
    {
      OldRecord(cfg, s, e, p, upTo);
      SettledIsStable(s, t, w, p);
    }
  }

  lemma OldRecord(cfg: Config, s: State, e: Event, p: Payment, upTo: nat)
    requires Enabled(cfg, s, e) && p in Apply(s, e).ledger && p.token <= upTo <= LastToken(s.ledger)
    ensures p in s.ledger
  {
  }

  lemma LastTokenGrows(cfg: Config, s: State, e: Event)
    requires LedgerOk(s.ledger) && Enabled(cfg, s, e)
    ensures LedgerOk(Apply(s, e).ledger) && LastToken(s.ledger) <= LastToken(Apply(s, e).ledger)
  {
    hide Covered, BeyondHistory, Justified, IsPigfi, HasKey, LedgerOk;
    if e.AppendPayment? {
      LedgerAppends(s.ledger, e.payment);
    } else {
      assert Apply(s, e).ledger == s.ledger;
    }
  }

  lemma LedgerAppends(ledger: seq<Payment>, p: Payment)
    requires LedgerOk(ledger) && p.token > LastToken(ledger) && forall q :: q in ledger ==> q.id != p.id
    ensures LedgerOk(ledger + [p]) && LastToken(ledger + [p]) == p.token
  {
    assert forall i :: 0 <= i < |ledger| ==> ledger[i] in ledger;
  }

  lemma BeyondIsStable(cfg: Config, s: State, e: Event, w: WalletId, cursor: nat)
    requires Evolves(s, Apply(s, e)) && Enabled(cfg, s, e) && w in s.wallets && s.wallets[w].openedAt <= LastToken(s.ledger)
    requires BeyondHistory(cfg, s, w, cursor)
    ensures w in Apply(s, e).wallets && BeyondHistory(cfg, Apply(s, e), w, cursor)
  {
    var t := Apply(s, e);
    hide IsIncomingUsdc;
    forall p | p in t.ledger && IsIncomingUsdc(cfg, p, t.wallets[w].address) && p.token <= t.wallets[w].openedAt ensures p.token <= cursor {
      OldRecord(cfg, s, e, p, LastToken(s.ledger));
    }
  }

  lemma StepKeepsCoverage(cfg: Config, s: State, e: Event, w: WalletId)
    requires Inv(cfg, s) && Enabled(cfg, s, e) && Evolves(s, Apply(s, e)) && w in Apply(s, e).baselines
    ensures CursorCovered(cfg, Apply(s, e), w)
  {
    hide Covered, BeyondHistory, Evolves, Justified, OutboxOk, OneAtATime, RowsAddressed, DismissalsJustified, CheckedOk, LedgerOk;
    LastTokenGrows(cfg, s, e);
    if w in s.baselines {
      assert CursorCovered(cfg, s, w);
      CoveredIsStable(cfg, s, e, w, s.baselines[w], s.wallets[w].cursor.value);
      BeyondIsStable(cfg, s, e, w, s.baselines[w]);
      if e.Advance? && e.wallet == w {
        CoveredIsStable(cfg, s, e, w, e.expected, e.cursor);
        CoveredJoins(cfg, Apply(s, e), w, s.baselines[w], e.expected, e.cursor);
      }
    } else {
      BeyondIsStable(cfg, s, e, w, e.cursor);
      CoveredNothing(cfg, Apply(s, e), w, e.cursor);
    }
  }

  lemma CoveredJoins(cfg: Config, s: State, w: WalletId, a: nat, b: nat, c: nat)
    requires w in s.wallets && Covered(cfg, s, w, a, b) && Covered(cfg, s, w, b, c)
    ensures Covered(cfg, s, w, a, c)
  {
  }

  lemma CoveredNothing(cfg: Config, s: State, w: WalletId, a: nat)
    requires w in s.wallets
    ensures Covered(cfg, s, w, a, a)
  {
  }

  lemma StepKeepsOutbox(cfg: Config, s: State, e: Event)
    requires OutboxOk(s) && Enabled(cfg, s, e)
    ensures OutboxOk(Apply(s, e))
  {
    hide Covered, BeyondHistory, Justified, IsPigfi, IsIncomingUsdc;
  }

  lemma StepKeepsAddresses(cfg: Config, s: State, e: Event)
    requires OneAtATime(s.wallets) && TimesOk(s) && Enabled(cfg, s, e) && Evolves(s, Apply(s, e))
    ensures OneAtATime(Apply(s, e).wallets)
  {
    hide Covered, BeyondHistory, Justified, IsPigfi, HasKey;
    var t := Apply(s, e);
    if e.OpenWallet? {
      Joins(s.wallets, e.wallet, t.wallets[e.wallet]);
    } else {
      assert t.wallets.Keys == s.wallets.Keys;
      AddressesStay(s, t);
    }
  }

  lemma AddressesStay(s: State, t: State)
    requires OneAtATime(s.wallets) && Evolves(s, t) && t.wallets.Keys == s.wallets.Keys
    ensures OneAtATime(t.wallets)
  {
  }

  lemma Joins(wallets: map<WalletId, Wallet>, w: WalletId, wallet: Wallet)
    requires OneAtATime(wallets) && w !in wallets
    requires forall x :: x in wallets && wallets[x].address == wallet.address ==> Follows(wallets[x], wallet)
    ensures OneAtATime(wallets[w := wallet])
  {
  }

  lemma StepKeepsTimes(cfg: Config, s: State, e: Event)
    requires LedgerOk(s.ledger) && TimesOk(s) && Enabled(cfg, s, e)
    ensures TimesOk(Apply(s, e))
  {
    hide Covered, BeyondHistory, Justified, IsPigfi, HasKey, LedgerOk, LastToken;
    LastTokenGrows(cfg, s, e);
  }

  lemma StepKeepsChecked(cfg: Config, s: State, e: Event, c: (WalletId, nat))
    requires LedgerOk(s.ledger) && TimesOk(s) && Enabled(cfg, s, e) && Evolves(s, Apply(s, e))
    requires c in s.checked ==> CheckedOk(cfg, s, c)
    requires c in Apply(s, e).checked
    ensures CheckedOk(cfg, Apply(s, e), c)
  {
    hide Covered, BeyondHistory, Justified, IsPigfi, HasKey, IsIncomingUsdc;
    var t := Apply(s, e);
    var p := t.checked[c];
    if e.CheckOpen? && c == (e.wallet, e.payment.id) {
    } else {
      assert p == s.checked[c] && p in t.ledger;
      TokenBound(s.ledger, p);
    }
  }

  lemma TokenBound(ledger: seq<Payment>, p: Payment)
    requires LedgerOk(ledger) && p in ledger
    ensures 0 < p.token <= LastToken(ledger)
  {
  }

  lemma StepKeepsRows(cfg: Config, s: State, e: Event)
    requires RowsAddressed(s) && Enabled(cfg, s, e) && Evolves(s, Apply(s, e))
    ensures RowsAddressed(Apply(s, e))
  {
    hide Covered, BeyondHistory, Justified, IsPigfi, HasKey, ForRecipient;
    var t := Apply(s, e);
    forall i | i in t.outbox && t.outbox[i].key.PaymentKey? ensures ForRecipient(t, t.outbox[i]) {
      if e.InsertRow? && i == s.nextRow {
        NewRowIsAddressed(t, e.wallet, t.outbox[i]);
      } else {
        RecipientStays(s, t, t.outbox[i]);
      }
    }
  }

  lemma NewRowIsAddressed(s: State, w: WalletId, row: Row)
    requires row.key.PaymentKey? && (w, row.key.id) in s.checked && w in s.wallets && row.user == s.wallets[w].user
    ensures ForRecipient(s, row)
  {
  }

  lemma RecipientStays(s: State, t: State, row: Row)
    requires Evolves(s, t) && row.key.PaymentKey? && ForRecipient(s, row)
    ensures ForRecipient(t, row)
  {
  }

  lemma StepKeepsReasons(cfg: Config, s: State, e: Event)
    requires DismissalsJustified(cfg, s) && Enabled(cfg, s, e) && Evolves(s, Apply(s, e))
    ensures DismissalsJustified(cfg, Apply(s, e))
  {
    hide Covered, BeyondHistory, IsPigfi, HasKey, Justified, JustifiedId, Evolves;
    var t := Apply(s, e);
    forall c | c in t.dismissed ensures JustifiedId(cfg, t, c.0, c.1, t.dismissed[c]) {
      if c in s.dismissed {
        ReasonStays(cfg, s, t, c.0, c.1, s.dismissed[c]);
      } else {
        NewReason(cfg, s, e.wallet, e.payment, e.reason);
        ReasonStays(cfg, s, t, c.0, c.1, e.reason);
      }
    }
  }

  lemma NewReason(cfg: Config, s: State, w: WalletId, p: Payment, reason: Reason)
    requires p in s.ledger && Justified(cfg, s, w, p, reason)
    ensures JustifiedId(cfg, s, w, p.id, reason)
  {
  }

  lemma ReasonStays(cfg: Config, s: State, t: State, w: WalletId, id: nat, reason: Reason)
    requires Evolves(s, t) && JustifiedId(cfg, s, w, id, reason)
    ensures JustifiedId(cfg, t, w, id, reason)
  {
    hide Justified;
    var p :| p in s.ledger && p.id == id && Justified(cfg, s, w, p, reason);
    JustifiedIsStable(cfg, s, t, w, p, reason);
  }

  lemma StepKeepsOrders(cfg: Config, s: State, e: Event)
    requires OrdersKnown(s) && Enabled(cfg, s, e)
    ensures OrdersKnown(Apply(s, e))
  {
    if e.SetOrder? {
      hide Covered, BeyondHistory, Justified, IsPigfi, HasKey, IsIncomingUsdc;
    } else {
      OrdersUntouched(s, e);
      hide Apply, Enabled;
    }
  }

  lemma StepKeepsInv(cfg: Config, s: State, e: Event)
    requires Inv(cfg, s) && Enabled(cfg, s, e)
    ensures Inv(cfg, Apply(s, e))
  {
    hide LedgerOk, OutboxOk, OneAtATime, TimesOk, CheckedOk, RowsAddressed, DismissalsJustified, CursorCovered, Evolves,
         Covered, BeyondHistory, Justified, IsPigfi, HasKey, OrdersKnown;
    var t := Apply(s, e);
    StepEvolves(cfg, s, e);
    LastTokenGrows(cfg, s, e);
    StepKeepsOutbox(cfg, s, e);
    StepKeepsAddresses(cfg, s, e);
    StepKeepsTimes(cfg, s, e);
    StepKeepsRows(cfg, s, e);
    StepKeepsReasons(cfg, s, e);
    StepKeepsOrders(cfg, s, e);
    forall c | c in t.checked ensures CheckedOk(cfg, t, c) {
      StepKeepsChecked(cfg, s, e, c);
    }
    forall w | w in t.baselines ensures CursorCovered(cfg, t, w) {
      StepKeepsCoverage(cfg, s, e, w);
    }
  }

  lemma {:induction false} EveryRunKeepsInv(cfg: Config, log: seq<Event>)
    requires Legal(cfg, log)
    ensures Inv(cfg, Play(log))
  {
    if log != [] {
      var before := log[..|log| - 1];
      EveryRunKeepsInv(cfg, before);
      StepKeepsInv(cfg, Play(before), log[|log| - 1]);
    }
  }

  lemma {:induction false} RunsOnlyMoveForward(cfg: Config, log: seq<Event>, more: seq<Event>)
    requires log <= more && Legal(cfg, more)
    ensures Legal(cfg, log) && Evolves(Play(log), Play(more))
    decreases |more|
  {
    if |log| < |more| {
      var before := more[..|more| - 1];
      RunsOnlyMoveForward(cfg, log, before);
      EveryRunKeepsInv(cfg, before);
      StepEvolves(cfg, Play(before), more[|more| - 1]);
      EvolvesFurther(Play(log), Play(before), Play(more));
    } else {
      assert log == more;
    }
  }

  lemma EvolvesFurther(s: State, t: State, u: State)
    requires Evolves(s, t) && Evolves(t, u)
    ensures Evolves(s, u)
  {
  }

  /**
   No loss, for every interleaving of instances, users and partners: in every state of every run, each
   incoming payment between the baseline and the cursor of an account that is still there has its
   notification (for the wallet's owner) or a recorded reason to have none, and the reason holds.
   */
  lemma NoLoss(cfg: Config, log: seq<Event>, w: WalletId, p: Payment)
    requires Legal(cfg, log) && w in Play(log).wallets && Play(log).wallets[w].cursor.Some?
    requires p in Play(log).ledger && IsIncomingUsdc(cfg, p, Play(log).wallets[w].address)
    ensures w in Play(log).baselines
    ensures var s := Play(log);
            s.wallets[w].user !in s.gone && s.baselines[w] < p.token <= s.wallets[w].cursor.value ==>
              || HasRowFor(s.outbox, PaymentKey(p.id), s.wallets[w].user)
              || ((w, p.id) in s.dismissed && Justified(cfg, s, w, p, s.dismissed[(w, p.id)]))
  {
    EveryRunKeepsInv(cfg, log);
    hide Justified;
    var s := Play(log);
    assert CursorCovered(cfg, s, w);
    if s.baselines[w] < p.token <= s.wallets[w].cursor.value && (w, p.id) in s.dismissed {
      ReasonIsFor(cfg, s, w, p);
    }
  }

  /**
   What a user can rely on: a successful, dated payment of at least 0.01 USDC from another address, that is no system
   sender and no wallet of the user's own, is notified once the cursor has passed it, if none of the user's onramp
   orders ever was in a state that explains it.
   */
  lemma UnexplainedIsTold(cfg: Config, log: seq<Event>, w: WalletId, p: Payment)
    requires Legal(cfg, log) && w in Play(log).wallets && Play(log).wallets[w].cursor.Some?
    requires p in Play(log).ledger && p.kind == PaymentOp && p.successful && p.createdAt.Some? && p.from.Some?
    requires p.asset.Credit? && p.asset == cfg.usdc && p.stroops >= 100_000
    requires var s := Play(log);
             && p.to == Some(s.wallets[w].address) && p.from.value != s.wallets[w].address
             && s.wallets[w].user !in s.gone
             && p.from.value !in cfg.systemSenders
             && (forall x :: x in s.wallets && s.wallets[x].user == s.wallets[w].user ==> s.wallets[x].address != p.from.value)
             && (forall o :: o in s.everOrders && o.1.user == s.wallets[w].user ==>
                   !InProgressSince(o.1, p.createdAt.value) && !CompletedNear(o.1, p.createdAt.value))
    ensures w in Play(log).baselines
    ensures var s := Play(log);
            s.baselines[w] < p.token <= s.wallets[w].cursor.value ==> HasRowFor(s.outbox, PaymentKey(p.id), s.wallets[w].user)
  {
    var s := Play(log);
    forall o | o in s.everOrders ensures !Explains(o.1, s.wallets[w].user, p.createdAt.value) {
      ExplainsMeans(o.1, s.wallets[w].user, p.createdAt.value);
    }
    hide Legal, Play, Explains, HasRowFor;
    NoLoss(cfg, log, w, p);
  }

  // ----- Which orders silence a payment -----

  /** The user's orders are all onramps in progress. */
  ghost predicate OnlyInProgress(s: State, user: UserId) {
    forall id :: id in s.orders && s.orders[id].user == user ==>
      match s.orders[id]
      case BlindpayOrder(_, ramp, _, _) => ramp == RampStatus.PENDING || ramp == AWAITING_PAYMENT || ramp == RampStatus.PROCESSING
      case EtherfuseOrder(_, direction, status, _, _) =>
        direction == ONRAMP && (status == CREATED || status == PENDING_SIGNATURE || status == EtherfuseStatus.PROCESSING)
  }

  /** None of them is. */
  ghost predicate NoneInProgress(s: State, user: UserId) {
    forall id :: id in s.orders && s.orders[id].user == user ==>
      match s.orders[id]
      case BlindpayOrder(_, ramp, _, _) => ramp != RampStatus.PENDING && ramp != AWAITING_PAYMENT && ramp != RampStatus.PROCESSING
      case EtherfuseOrder(_, direction, status, _, _) =>
        direction == ONRAMP ==> status != CREATED && status != PENDING_SIGNATURE && status != EtherfuseStatus.PROCESSING
  }

  /** The user has an onramp that was completed at most two hours before the payment or after it. */
  ghost predicate HasOrderCompletedNear(s: State, user: UserId, paidAt: int) {
    exists id :: id in s.orders && s.orders[id].user == user && CompletedNear(s.orders[id], paidAt)
  }

  /** In progress in its partner's terms, and created at most 72 hours before the payment or at any time after it. */
  predicate InProgressSince(o: Order, paidAt: int) {
    && o.createdAt >= paidAt - 259_200_000
    && match o
       case BlindpayOrder(_, ramp, _, _) => ramp == RampStatus.PENDING || ramp == AWAITING_PAYMENT || ramp == RampStatus.PROCESSING
       case EtherfuseOrder(_, direction, status, _, _) =>
         direction == ONRAMP && (status == CREATED || status == PENDING_SIGNATURE || status == EtherfuseStatus.PROCESSING)
  }

  predicate CompletedNear(o: Order, paidAt: int) {
    match o
    case BlindpayOrder(_, ramp, _, completedAt) =>
      ramp == RampStatus.COMPLETED && completedAt.Some? && paidAt - 7_200_000 <= completedAt.value <= paidAt + 7_200_000
    case EtherfuseOrder(_, direction, status, _, completedAt) =>
      && direction == ONRAMP && status == EtherfuseStatus.COMPLETED
      && completedAt.Some? && paidAt - 7_200_000 <= completedAt.value <= paidAt + 7_200_000
  }

  predicate DismissedAsOnramp(s: State, w: WalletId, p: Payment) {
    (w, p.id) in s.dismissed && s.dismissed[(w, p.id)].OnrampDelivery?
  }

  /** The user has an order created at most 72 h before the payment, or at any time after it. */
  predicate HasOrderSince(s: State, user: UserId, paidAt: int) {
    exists id :: id in s.orders && s.orders[id].user == user && s.orders[id].createdAt >= paidAt - 259_200_000
  }

  /** Orders stay as they are. */
  ghost predicate OrdersRest(log: seq<Event>, more: seq<Event>) {
    log <= more && forall k :: |log| <= k < |more| ==> !more[k].SetOrder?
  }

  lemma {:induction false} SameOrders(cfg: Config, log: seq<Event>, more: seq<Event>)
    requires OrdersRest(log, more) && Legal(cfg, more)
    ensures Play(more).orders == Play(log).orders && Play(more).everOrders == Play(log).everOrders
    decreases |more|
  {
    hide Enabled, Apply;
    if |log| < |more| {
      SameOrders(cfg, log, more[..|more| - 1]);
      OrdersUntouched(Play(more[..|more| - 1]), more[|more| - 1]);
    } else {
      assert log == more;
    }
  }

  lemma OrdersUntouched(s: State, e: Event)
    requires !e.SetOrder?
    ensures Apply(s, e).orders == s.orders && Apply(s, e).everOrders == s.everOrders
  {
  }

  ghost predicate CanBeDismissed(cfg: Config, log: seq<Event>, w: WalletId, p: Payment)
  {
    exists more :: OrdersRest(log, more) && Legal(cfg, more) && DismissedAsOnramp(Play(more), w, p)
  }

  /** A dated payment to the wallet, not dismissed yet, whose sender is neither the system's nor an active wallet. */
  ghost predicate FromStranger(cfg: Config, s: State, w: WalletId, p: Payment) {
    && w in s.wallets && p in s.ledger && p.createdAt.Some?
    && IsIncomingUsdc(cfg, p, s.wallets[w].address) && (w, p.id) !in s.dismissed
    && p.from.value !in cfg.systemSenders && !IsPigfi(s, p.from.value)
  }

  /**
   With orders in progress only: a stranger's payment can be dismissed as an onramp delivery, while the orders stay
   as they are, exactly if the user has one that was created at most 72 h before the payment or at any time after it.
   */
  lemma OrderInProgressSilencesExactlyWhen(cfg: Config, log: seq<Event>, w: WalletId, p: Payment)
    requires Legal(cfg, log) && FromStranger(cfg, Play(log), w, p)
    requires OnlyInProgress(Play(log), Play(log).wallets[w].user)
    ensures CanBeDismissed(cfg, log, w, p) <==> HasOrderSince(Play(log), Play(log).wallets[w].user, p.createdAt.value)
  {
    hide Legal, Play, CanBeDismissed;
    OnrampSilencesExactlyWhen(cfg, log, w, p);
  }

  /** With none in progress: exactly if the user has an onramp that was completed within two hours of the payment. */
  lemma CompletedOrderSilencesExactlyWhen(cfg: Config, log: seq<Event>, w: WalletId, p: Payment)
    requires Legal(cfg, log) && FromStranger(cfg, Play(log), w, p)
    requires NoneInProgress(Play(log), Play(log).wallets[w].user)
    ensures CanBeDismissed(cfg, log, w, p) <==> HasOrderCompletedNear(Play(log), Play(log).wallets[w].user, p.createdAt.value)
  {
    hide Legal, Play, CanBeDismissed;
    OnrampSilencesExactlyWhen(cfg, log, w, p);
  }

  /** With any orders: exactly if one of the user's is in progress since then or was completed near the payment. */
  lemma OnrampSilencesExactlyWhen(cfg: Config, log: seq<Event>, w: WalletId, p: Payment)
    requires Legal(cfg, log) && FromStranger(cfg, Play(log), w, p)
    ensures CanBeDismissed(cfg, log, w, p) <==>
            var s := Play(log);
            exists id :: id in s.orders && s.orders[id].user == s.wallets[w].user
                         && (InProgressSince(s.orders[id], p.createdAt.value) || CompletedNear(s.orders[id], p.createdAt.value))
  {
    var s := Play(log);
    forall id | id in s.orders
      ensures Explains(s.orders[id], s.wallets[w].user, p.createdAt.value) <==>
              s.orders[id].user == s.wallets[w].user
              && (InProgressSince(s.orders[id], p.createdAt.value) || CompletedNear(s.orders[id], p.createdAt.value))
    {
      ExplainsMeans(s.orders[id], s.wallets[w].user, p.createdAt.value);
    }
    hide Legal, Play, CanBeDismissed, FromStranger, Explains, InProgressSince, CompletedNear;
    ExplainedExactly(cfg, log, w, p);
  }

  lemma ExplainsMeans(o: Order, user: UserId, paidAt: int)
    ensures Explains(o, user, paidAt) <==> o.user == user && (InProgressSince(o, paidAt) || CompletedNear(o, paidAt))
  {
  }

  ghost predicate HasExplanation(s: State, user: UserId, paidAt: int) {
    exists id :: id in s.orders && Explains(s.orders[id], user, paidAt)
  }

  /** While the orders stay as they are, an order that explains the payment now is what it takes. */
  lemma ExplainedExactly(cfg: Config, log: seq<Event>, w: WalletId, p: Payment)
    requires Legal(cfg, log) && FromStranger(cfg, Play(log), w, p)
    ensures w in Play(log).wallets && p.createdAt.Some?
    ensures CanBeDismissed(cfg, log, w, p) <==> HasExplanation(Play(log), Play(log).wallets[w].user, p.createdAt.value)
  {
    EveryRunKeepsInv(cfg, log);
    var s := Play(log);
    hide Legal, Play, IsPigfi, IsIncomingUsdc, Explains;
    if HasExplanation(s, s.wallets[w].user, p.createdAt.value) {
      var more := Silences(cfg, log, w, p);
    }
    if CanBeDismissed(cfg, log, w, p) {
      var more :| OrdersRest(log, more) && Legal(cfg, more) && DismissedAsOnramp(Play(more), w, p);
      SilencedByAnOrder(cfg, log, more, w, p);
    }
  }

  lemma Step(cfg: Config, log: seq<Event>, e: Event) returns (more: seq<Event>)
    requires Legal(cfg, log) && Enabled(cfg, Play(log), e)
    ensures more == log + [e] && Legal(cfg, more) && Play(more) == Apply(Play(log), e)
  {
    more := log + [e];
    assert more[..|more| - 1] == log;
  }

  lemma Silences(cfg: Config, log: seq<Event>, w: WalletId, p: Payment) returns (more: seq<Event>)
    requires Legal(cfg, log) && Inv(cfg, Play(log)) && FromStranger(cfg, Play(log), w, p)
    requires HasExplanation(Play(log), Play(log).wallets[w].user, p.createdAt.value)
    ensures OrdersRest(log, more) && Legal(cfg, more) && DismissedAsOnramp(Play(more), w, p)
  {
    var s := Play(log);
    var id :| id in s.orders && Explains(s.orders[id], s.wallets[w].user, p.createdAt.value);
    OrderSilences(cfg, s, w, p, id);
    hide Legal, Play, Inv, Enabled, Apply, FromStranger, HasExplanation;
    more := Step(cfg, log, SeeStranger(p));
    more := Step(cfg, more, Dismiss(w, p, OnrampDelivery(id, s.orders[id], p.createdAt.value)));
  }

  lemma OrderSilences(cfg: Config, s: State, w: WalletId, p: Payment, id: OrderId)
    requires OrdersKnown(s) && FromStranger(cfg, s, w, p)
    requires id in s.orders && Explains(s.orders[id], s.wallets[w].user, p.createdAt.value)
    ensures Enabled(cfg, s, SeeStranger(p))
    ensures var t, e := Apply(s, SeeStranger(p)), Dismiss(w, p, OnrampDelivery(id, s.orders[id], p.createdAt.value));
            Enabled(cfg, t, e) && DismissedAsOnramp(Apply(t, e), w, p)
  {
    assert (id, s.orders[id]) in s.everOrders;
    hide IsPigfi, Explains;
  }

  /** A dismissal that is new names an order as it is. */
  lemma {:induction false} NewDismissalIsCurrent(cfg: Config, log: seq<Event>, more: seq<Event>, c: (WalletId, nat))
    requires OrdersRest(log, more) && Legal(cfg, more) && Legal(cfg, log) && c !in Play(log).dismissed
    requires c in Play(more).dismissed && Play(more).dismissed[c].OnrampDelivery?
    ensures var reason := Play(more).dismissed[c];
            reason.order in Play(log).orders && Play(log).orders[reason.order] == reason.was
    decreases |more|
  {
    hide Enabled, Apply;
    Longer(log, more);
    var before, e := more[..|more| - 1], more[|more| - 1];
    SameOrders(cfg, log, before);
    if c in Play(before).dismissed {
      DismissalRests(Play(before), e, c);
      NewDismissalIsCurrent(cfg, log, before, c);
    } else {
      DismissalNamesOrder(cfg, Play(before), e, c);
    }
  }

  lemma Longer(log: seq<Event>, more: seq<Event>)
    requires log <= more && log != more
    ensures |log| < |more|
  {
  }

  lemma DismissalRests(s: State, e: Event, c: (WalletId, nat))
    requires c in s.dismissed
    ensures c in Apply(s, e).dismissed && Apply(s, e).dismissed[c] == s.dismissed[c]
  {
  }

  lemma DismissalNamesOrder(cfg: Config, s: State, e: Event, c: (WalletId, nat))
    requires Enabled(cfg, s, e) && c !in s.dismissed && c in Apply(s, e).dismissed && Apply(s, e).dismissed[c].OnrampDelivery?
    ensures var reason := Apply(s, e).dismissed[c];
            reason.order in s.orders && s.orders[reason.order] == reason.was
  {
    hide Justified, Covered, BeyondHistory, IsPigfi, HasKey, IsIncomingUsdc;
  }

  lemma SilencedByAnOrder(cfg: Config, log: seq<Event>, more: seq<Event>, w: WalletId, p: Payment)
    requires Legal(cfg, log) && w in Play(log).wallets && p in Play(log).ledger && p.createdAt.Some? && (w, p.id) !in Play(log).dismissed
    requires OrdersRest(log, more) && Legal(cfg, more) && DismissedAsOnramp(Play(more), w, p)
    ensures HasExplanation(Play(log), Play(log).wallets[w].user, p.createdAt.value)
  {
    RunsOnlyMoveForward(cfg, log, more);
    EveryRunKeepsInv(cfg, more);
    NewDismissalIsCurrent(cfg, log, more, (w, p.id));
    var s, t := Play(log), Play(more);
    hide Legal, Play, Explains, IsIncomingUsdc;
    ReasonIsFor(cfg, t, w, p);
    assert Explains(s.orders[t.dismissed[(w, p.id)].order], s.wallets[w].user, p.createdAt.value);
  }

  function LatePayment(cfg: Config, paidAt: int): Payment {
    Payment(1, 1, PaymentOp, true, Some(paidAt), Some(9), Some(5), cfg.usdc, MIN_NOTIFY_STROOPS, {})
  }

  /** A watched wallet, a payment to it from outside, and an order in progress. */
  lemma PaidAndOrdered(cfg: Config, p: Payment, order: Order) returns (log: seq<Event>)
    requires p.token == 1
    ensures Legal(cfg, log)
    ensures Play(log) == State([p], map[0 := Wallet(3, 5, true, Some(0), 0, None)], {}, {}, map[], 0, map[7 := order], 0,
                               map[], map[], map[0 := 0], {}, {(7, order)})
  {
    hide Legal, Play, HasKey, IsPigfi, IsIncomingUsdc, Justified, Covered;
    log := Watched(cfg);
    log := Step(cfg, log, AppendPayment(p));
    log := Step(cfg, log, SetOrder(7, order));
  }

  lemma Watched(cfg: Config) returns (log: seq<Event>)
    ensures Legal(cfg, log)
    ensures Play(log) == Empty.(wallets := map[0 := Wallet(3, 5, true, Some(0), 0, None)], baselines := map[0 := 0])
  {
    assert Legal(cfg, []) && Play([]) == Empty;
    hide Legal, Play, HasKey, IsPigfi, IsIncomingUsdc, Justified, Covered;
    log := Step(cfg, [], OpenWallet(0, 3, 5));
    assert Play(log).wallets == map[0 := Wallet(3, 5, true, None, 0, None)];
    log := Step(cfg, log, SetBaseline(0, 0));
  }

  /** It does happen: an order that is created after the payment silences it, and the cursor passes it without a row. */
  lemma LaterOrderSilencesPayment(cfg: Config, paidAt: int, createdAt: int) returns (log: seq<Event>, p: Payment)
    requires cfg.usdc.Credit? && 9 !in cfg.systemSenders && paidAt < createdAt
    ensures Legal(cfg, log) && p in Play(log).ledger && p.createdAt == Some(paidAt)
    ensures var s := Play(log);
            && 0 in s.wallets && s.wallets[0].user !in s.gone && IsIncomingUsdc(cfg, p, s.wallets[0].address)
            && 0 in s.baselines && s.baselines[0] < p.token && s.wallets[0].cursor == Some(p.token)
            && 7 in s.orders && s.orders[7].createdAt == createdAt && IsOpen(s.orders[7])
            && DismissedAsOnramp(s, 0, p) && !HasKey(s.outbox, PaymentKey(p.id))
  {
    var order := BlindpayOrder(3, RampStatus.AWAITING_PAYMENT, createdAt, None);
    p := LatePayment(cfg, paidAt);
    log := PaidAndOrdered(cfg, p, order);
    var s := Play(log);
    NobodySends(s);
    OrderSilences(cfg, s, 0, p, 7);
    hide Legal, Play, HasKey, IsPigfi, Explains;
    log := Step(cfg, log, SeeStranger(p));
    log := Step(cfg, log, Dismiss(0, p, OnrampDelivery(7, order, paidAt)));
    var t := Play(log);
    assert Covered(cfg, t, 0, 0, 1);
    log := Step(cfg, log, Advance(0, 0, 1));
    NoRows(t.outbox, PaymentKey(p.id));
  }

  lemma NobodySends(s: State)
    requires s.wallets == map[0 := Wallet(3, 5, true, Some(0), 0, None)]
    ensures !IsPigfi(s, 9)
  {
  }

  lemma NoRows(outbox: map<RowId, Row>, key: Key)
    requires outbox == map[]
    ensures !HasKey(outbox, key)
  {
  }

  lemma ReasonIsFor(cfg: Config, s: State, w: WalletId, p: Payment)
    requires LedgerOk(s.ledger) && DismissalsJustified(cfg, s) && p in s.ledger && (w, p.id) in s.dismissed
    ensures Justified(cfg, s, w, p, s.dismissed[(w, p.id)])
  {
    hide Justified;
    assert JustifiedId(cfg, s, w, p.id, s.dismissed[(w, p.id)]);
    var q :| q in s.ledger && q.id == p.id && Justified(cfg, s, w, q, s.dismissed[(w, p.id)]);
    SameRecord(s.ledger, p, q);
  }

  lemma SameRecord(ledger: seq<Payment>, p: Payment, q: Payment)
    requires LedgerOk(ledger) && p in ledger && q in ledger && p.id == q.id
    ensures p == q
  {
  }

  /** One payment, one notification at most, and only for an account that received it. */
  lemma OneRowPerPayment(cfg: Config, log: seq<Event>, i: RowId, j: RowId)
    requires Legal(cfg, log) && i in Play(log).outbox && j in Play(log).outbox
    requires Play(log).outbox[i].key == Play(log).outbox[j].key
    ensures i == j
    ensures Play(log).outbox[i].key.PaymentKey? ==> ForRecipient(Play(log), Play(log).outbox[i])
  {
    EveryRunKeepsInv(cfg, log);
  }

  /** A payment's row stands for a successful payment of at least 0.01 USDC from another address to a wallet of its user. */
  lemma RowMeansPayment(cfg: Config, log: seq<Event>, i: RowId)
    requires Legal(cfg, log) && i in Play(log).outbox && Play(log).outbox[i].key.PaymentKey?
    ensures var s, row := Play(log), Play(log).outbox[i];
            exists p, w :: p in s.ledger && p.id == row.key.id && w in s.wallets && s.wallets[w].user == row.user
              && p.kind == PaymentOp && p.successful && p.to == Some(s.wallets[w].address)
              && p.from.Some? && p.from.value != s.wallets[w].address
              && p.asset.Credit? && p.asset == cfg.usdc && p.stroops >= 100_000
  {
    EveryRunKeepsInv(cfg, log);
    var s, row := Play(log), Play(log).outbox[i];
    hide Legal, Play, Covered, Settled, LastToken;
    assert ForRecipient(s, row);
    var w :| (w, row.key.id) in s.checked && w in s.wallets && row.user == s.wallets[w].user;
    assert CheckedOk(cfg, s, (w, row.key.id));
    var p := s.checked[(w, row.key.id)];
    assert p in s.ledger && p.id == row.key.id;
  }

  /**
   A payment beyond the baseline of an open wallet is notified to the wallet's owner or to nobody: the address
   may have been that of a scrubbed wallet before, but what that one received is not beyond the baseline.
   */
  lemma RowIsForOwner(cfg: Config, s: State, w: WalletId, p: Payment, i: RowId)
    requires Inv(cfg, s) && w in s.baselines && p in s.ledger && IsIncomingUsdc(cfg, p, s.wallets[w].address)
    requires s.wallets[w].user !in s.gone && s.baselines[w] < p.token && i in s.outbox && s.outbox[i].key == PaymentKey(p.id)
    ensures s.outbox[i].user == s.wallets[w].user
  {
    hide Covered, Settled, OutboxOk, DismissalsJustified, LastToken;
    assert ForRecipient(s, s.outbox[i]);
    var x :| (x, p.id) in s.checked && x in s.wallets && s.outbox[i].user == s.wallets[x].user;
    assert CheckedOk(cfg, s, (x, p.id));
    SameRecord(s.ledger, p, s.checked[(x, p.id)]);
    assert CursorCovered(cfg, s, w);
    assert x == w || Follows(s.wallets[x], s.wallets[w]) || Follows(s.wallets[w], s.wallets[x]);
  }
}
