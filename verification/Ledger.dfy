/** The three tables and what each SQL statement, and each committed operation,
    does to them when nothing else runs. */
module Ledger {
  import opened Wrappers
  import opened Numeric

  type UserId = nat
  type TxnId = nat
  type EventId = nat

  /** A row of `wallets`; the balance is in cents. */
  datatype Wallet = Wallet(balance: int, enabled: bool)

  type Wallets = map<UserId, Wallet>

  datatype Status = Pending | Completed | Failed | Flagged

  /** A row of `transactions`; the amount is in cents. */
  datatype Txn = Txn(sender: UserId, receiver: UserId, amount: int, currency: string, status: Status, createdAt: nat)

  /** The `transaction.created` payload: it keeps the amount as the caller wrote it. */
  datatype Payload = Payload(
    txnId: TxnId, sender: UserId, receiver: UserId, amount: Decimal, currency: string, status: Status)

  /** A row of `outbox_events`; `published` stands for a non-null `published_at`. */
  datatype Event = Event(aggregateId: TxnId, payload: Payload, published: bool, createdAt: nat)

  type Events = map<EventId, Event>

  datatype Db = Db(wallets: Wallets, txns: map<TxnId, Txn>, outbox: Events)

  const EMPTY := Db(map[], map[], map[])

  datatype Error =
    | WalletNotFound
    | WalletDisabled
    | InsufficientBalance
    | WalletAlreadyExists
    | TransactionNotFound
    | TransactionNotFlaggable
    | TransactionNotFlagged
    | InvalidAmount
    | ReceiverNotFound
    | ReceiverInactive
    | VerificationFailed
    | PublishError
    | DatabaseError

  /** What the service hands to the transaction repository. */
  datatype NewTxn = NewTxn(
    id: TxnId, sender: UserId, receiver: UserId, amount: Decimal, currency: string, status: Status)
  datatype NewEvent = NewEvent(aggregateId: TxnId, payload: Payload)

  /** One call of the repository's Create: the two rows it is given, the id the
      database draws for the event, and the transaction start time both rows get. */
  datatype Order = Order(txn: NewTxn, event: NewEvent, eventId: EventId, startedAt: nat)

  /** Row and event as the service builds them, from one id and one amount string. */
  function Compose(id: TxnId, sender: UserId, receiver: UserId, amount: Decimal, currency: string,
                   eventId: EventId, startedAt: nat): Order
  {
    var c := if currency == "" then "INR" else currency;
    Order(NewTxn(id, sender, receiver, amount, c, Completed),
          NewEvent(id, Payload(id, sender, receiver, amount, c, Completed)),
          eventId, startedAt)
  }

  /** The order came from the service: a positive amount, and an event about that very row. */
  predicate FromService(o: Order) {
    && o.txn.amount.mantissa > 0
    && o.txn.status == Completed
    && o.event.aggregateId == o.txn.id
    && o.event.payload == Payload(o.txn.id, o.txn.sender, o.txn.receiver, o.txn.amount, o.txn.currency, o.txn.status)
  }

  // --- single statements ---

  /** The WHERE clause of the debit. */
  predicate Debitable(ws: Wallets, u: UserId, a: Decimal) {
    u in ws && Covers(ws[u].balance, a) && ws[u].enabled
  }

  /** The WHERE clause of the credit and of the top-up. */
  predicate Enabled(ws: Wallets, u: UserId) {
    u in ws && ws[u].enabled
  }

  /** Why a wallet cannot take part at all: missing comes before disabled. */
  function Usable(ws: Wallets, u: UserId): Result<Wallet, Error> {
    if u !in ws then Err(WalletNotFound)
    else if !ws[u].enabled then Err(WalletDisabled)
    else Ok(ws[u])
  }

  function Store(ws: Wallets, u: UserId, balance: Option<int>): Result<Wallets, Error>
    requires u in ws
  {
    match balance
    case None => Err(DatabaseError)
    case Some(b) => if b < 0 then Err(DatabaseError) else Ok(ws[u := ws[u].(balance := b)])
  }

  function Debit(ws: Wallets, u: UserId, a: Decimal): Result<Wallets, Error> {
    var w :- Usable(ws, u);
    if !Covers(w.balance, a) then Err(InsufficientBalance) else Store(ws, u, Minus(w.balance, a))
  }

  function Credit(ws: Wallets, u: UserId, a: Decimal): Result<Wallets, Error> {
    var w :- Usable(ws, u);
    Store(ws, u, Plus(w.balance, a))
  }

  /** The transaction row, or the error of the id, amount or currency constraint. */
  function RowOf(t: NewTxn, at: nat): Result<Txn, Error> {
    match Stored(t.amount)
    case None => Err(DatabaseError)
    case Some(cents) =>
      if cents <= 0 || |t.currency| > 3 then Err(DatabaseError)
      else Ok(Txn(t.sender, t.receiver, cents, t.currency, t.status, at))
  }

  function EventOf(e: NewEvent, at: nat): Event {
    Event(e.aggregateId, e.payload, false, at)
  }

  // --- committed operations ---

  function MoveMoney(ws: Wallets, t: NewTxn): Result<Wallets, Error> {
    var debited :- Debit(ws, t.sender, t.amount);
    Credit(debited, t.receiver, t.amount)
  }

  /** A whole Create: debit, credit, both inserts, all or nothing. */
  function Transfer(db: Db, o: Order): Result<Db, Error> {
    var ws :- MoveMoney(db.wallets, o.txn);
    var row :- RowOf(o.txn, o.startedAt);
    if o.txn.id in db.txns || o.eventId in db.outbox then Err(DatabaseError)
    else Ok(Db(ws, db.txns[o.txn.id := row], db.outbox[o.eventId := EventOf(o.event, o.startedAt)]))
  }

  /** Moving a transaction from exactly one status to another. */
  function Transition(db: Db, id: TxnId, from: Status, to: Status, ineligible: Error): Result<Db, Error> {
    if id !in db.txns then Err(TransactionNotFound)
    else if db.txns[id].status != from then Err(ineligible)
    else Ok(db.(txns := db.txns[id := db.txns[id].(status := to)]))
  }

  /** `UPDATE outbox_events SET published_at = now() WHERE id = $1`. */
  function Marked(outbox: Events, e: EventId): Events {
    if e in outbox then outbox[e := outbox[e].(published := true)] else outbox
  }

  datatype Op =
    | CreateWallet(user: UserId)
    | TopUp(user: UserId, amount: Decimal)
    | SetEnabled(user: UserId, enabled: bool)
    | Create(order: Order)
    | Flag(txn: TxnId)
    | Unflag(txn: TxnId)
    | MarkPublished(event: EventId)

  function Apply(db: Db, op: Op): Result<Db, Error> {
    match op
    case CreateWallet(u) =>
      if u in db.wallets then Err(WalletAlreadyExists)
      else Ok(db.(wallets := db.wallets[u := Wallet(0, true)]))
    case TopUp(u, a) =>
      var ws :- Credit(db.wallets, u, a);
      Ok(db.(wallets := ws))
    case SetEnabled(u, e) =>
      if u !in db.wallets then Err(WalletNotFound)
      else Ok(db.(wallets := db.wallets[u := db.wallets[u].(enabled := e)]))
    case Create(o) => Transfer(db, o)
    case Flag(id) => Transition(db, id, Completed, Flagged, TransactionNotFlaggable)
    case Unflag(id) => Transition(db, id, Flagged, Completed, TransactionNotFlagged)
    case MarkPublished(e) =>
      Ok(db.(outbox := Marked(db.outbox, e)))
  }

  /** The service checked the request behind this operation. */
  predicate Checked(op: Op) {
    match op
    case TopUp(_, a) => a.mantissa > 0
    case Create(o) => FromService(o)
    case _ => true
  }

  /** The operations one after another, from empty tables. */
  function Replay(ops: seq<Op>): Result<Db, Error> {
    if ops == [] then Ok(EMPTY)
    else
      var before :- Replay(ops[..|ops| - 1]);
      Apply(before, ops[|ops| - 1])
  }

  /** A sequential run: checked operations, each of which succeeds, ending in db. */
  ghost predicate Run(ops: seq<Op>, db: Db) {
    Replay(ops) == Ok(db) && forall op :: op in ops ==> Checked(op)
  }

  lemma RunExtends(ops: seq<Op>, db: Db, op: Op)
    requires Run(ops, db) && Checked(op) && Apply(db, op).Ok?
    ensures Run(ops + [op], Apply(db, op).value)
  {
  }

  /** The last step of a non-empty run. */
  lemma LastStep(ops: seq<Op>, db: Db) returns (init: seq<Op>, before: Db, op: Op)
    requires Run(ops, db) && ops != []
    ensures init == ops[..|ops| - 1] && ops == init + [op] && Checked(op)
    ensures Run(init, before) && Apply(before, op) == Ok(db)
  {
    init, op := ops[..|ops| - 1], ops[|ops| - 1];
    before := Replay(init).value;
    assert ops == init + [op];
  }
}
