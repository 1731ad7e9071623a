/** The running service: any number of requests, the outbox worker and the alert
    publisher, taking turns one SQL statement or one Kafka write at a time.

    PostgreSQL runs at READ COMMITTED. An UPDATE inside a creation locks the row it
    writes until that creation commits or rolls back, and its WHERE clause is decided
    on the row as it is once the lock is free. A statement sees committed rows and
    its own transaction's writes. Any creation can be rolled back at any time. */
module Machine {
  import opened Wrappers
  import opened Numeric
  import opened Ledger
  import opened Outbox

  type Pid = nat

  datatype Pc = Started | DebitMissed | Debited | CreditMissed | Credited | RowInserted | EventInserted

  /** A Create in flight: its uncommitted wallet rows (the rows it holds locked), its
      uncommitted inserts, and what its last fruitless UPDATE saw. */
  datatype Creation = Creation(order: Order, pc: Pc, writes: Wallets, row: Option<Txn>, event: Option<Event>, seen: Db)

  /** An UPDATE that matched no row and is about to look up why. */
  datatype Call =
    | DebitCall(user: UserId, amount: Decimal)
    | CreditCall(user: UserId)
    | TopUpCall(user: UserId)
    | FlagCall(txn: TxnId)
    | UnflagCall(txn: TxnId)

  datatype Lookup = Lookup(call: Call, seen: Db)

  /** The error a caller got: what the UPDATE saw, and what the later lookup saw. */
  datatype Report = Report(call: Call, seen: Db, found: Db, error: Error)

  /** A message for the fraud-alerts topic; `cleared` is set by Unflag. */
  datatype Alert = Alert(txn: TxnId, cleared: bool)

  datatype Worker = Idle | Busy(batch: seq<Fetched>, next: nat, acked: bool)

  /** What the worker's log says happened to one event. */
  datatype Note = MarkSucceeded(event: EventId) | MarkFailed(event: EventId) | CrashedAfterAck(event: EventId)

  datatype State = State(
    db: Db,
    history: seq<Op>,
    creations: map<Pid, Creation>,
    lookups: map<Pid, Lookup>,
    reports: seq<Report>,
    unsent: multiset<Alert>,
    alerts: seq<Alert>,
    worker: Worker,
    topic: seq<Record>,
    notes: multiset<Note>)

  const INIT := State(EMPTY, [], map[], map[], [], multiset{}, [], Idle, [], multiset{})

  datatype MoneyStep =
    | Begin(order: Order)
    | DebitRow
    | DebitMiss
    | CreditRow
    | CreditMiss
    | InsertRow
    | InsertEvent
    | Commit
    | Fail      // the next statement raises an error, so the creation rolls back
    | Classify  // the lookup after a fruitless UPDATE, then rollback
    | Abort     // anything else that ends the transaction: lost connection, cancelled request

  datatype RelayStep =
    | Fetch(batch: seq<Fetched>)
    | DecodeFails
    | Publish(copies: nat)       // confirmed, after so many unconfirmed copies
    | PublishFails(copies: nat)
    | Mark
    | MarkFails(applied: bool)
    | EndTick
    | Crash

  datatype Step =
    | Money(pid: Pid, money: MoneyStep)
    | Single(op: Op)                      // CreateWallet, TopUp or SetEnabled that succeeds
    | FlagRow(txn: TxnId, cleared: bool)  // Flag or Unflag that succeeds
    | Miss(pid: Pid, call: Call)          // TopUp, Flag or Unflag that matches no row
    | Explain(pid: Pid)                   // the lookup that follows
    | Announce(alert: Alert, appended: bool)
    | Relay(relay: RelayStep)

  // --- locks and lookups ---

  predicate LockFree(s: State, u: UserId, p: Pid) {
    forall q :: q in s.creations && q != p ==> u !in s.creations[q].writes
  }

  predicate RowFree(s: State, u: UserId) {
    forall q :: q in s.creations ==> u !in s.creations[q].writes
  }

  /** The wallets as a statement of this creation sees them. */
  function View(s: State, c: Creation): Wallets {
    s.db.wallets + c.writes
  }

  /** The UPDATE behind this call matches no row. */
  predicate Misses(db: Db, call: Call) {
    match call
    case DebitCall(u, a) => !Debitable(db.wallets, u, a)
    case CreditCall(u) => !Enabled(db.wallets, u)
    case TopUpCall(u) => !Enabled(db.wallets, u)
    case FlagCall(id) => !(id in db.txns && db.txns[id].status == Completed)
    case UnflagCall(id) => !(id in db.txns && db.txns[id].status == Flagged)
  }

  /** What the follow-up lookup concludes from the rows it reads. */
  function Explanation(db: Db, call: Call): Error {
    match call
    case DebitCall(u, _) =>
      if u !in db.wallets then WalletNotFound
      else if !db.wallets[u].enabled then WalletDisabled
      else InsufficientBalance
    case FlagCall(id) => if id !in db.txns then TransactionNotFound else TransactionNotFlaggable
    case UnflagCall(id) => if id !in db.txns then TransactionNotFound else TransactionNotFlagged
    case _ =>
      if call.user !in db.wallets then WalletNotFound
      else if !db.wallets[call.user].enabled then WalletDisabled
      else WalletNotFound
  }

  // --- steps of a creation ---

  /** The ids drawn for this order are in use nowhere. */
  predicate Fresh(s: State, o: Order) {
    && o.txn.id !in s.db.txns && o.eventId !in s.db.outbox
    && forall q :: q in s.creations ==> s.creations[q].order.txn.id != o.txn.id && s.creations[q].order.eventId != o.eventId
  }

  function Update(s: State, p: Pid, c: Creation): Option<State> {
    Some(s.(creations := s.creations[p := c]))
  }

  function Drop(s: State, p: Pid): State {
    s.(creations := s.creations - {p})
  }

  /** The debit finds its row, and the row is free. */
  predicate CanDebit(s: State, p: Pid)
    requires p in s.creations
  {
    var c := s.creations[p];
    c.pc == Started && LockFree(s, c.order.txn.sender, p) && Debitable(View(s, c), c.order.txn.sender, c.order.txn.amount)
  }

  predicate CanCredit(s: State, p: Pid)
    requires p in s.creations
  {
    var c := s.creations[p];
    c.pc == Debited && LockFree(s, c.order.txn.receiver, p) && Enabled(View(s, c), c.order.txn.receiver)
  }

  predicate CanInsert(s: State, p: Pid)
    requires p in s.creations
  {
    var c := s.creations[p];
    c.pc == Credited && c.order.txn.id !in s.db.txns && RowOf(c.order.txn, c.order.startedAt).Ok?
  }

  /** The statement that is due raises an error: an overflow, or a constraint of the row. */
  predicate Fails(s: State, p: Pid)
    requires p in s.creations
  {
    var c := s.creations[p];
    || (CanDebit(s, p) && Debit(View(s, c), c.order.txn.sender, c.order.txn.amount).Err?)
    || (CanCredit(s, p) && Credit(View(s, c), c.order.txn.receiver, c.order.txn.amount).Err?)
    || (c.pc == Credited && !CanInsert(s, p))
    || (c.pc == RowInserted && c.order.eventId in s.db.outbox)
  }

  function MoneyNext(s: State, p: Pid, m: MoneyStep): Option<State> {
    if m.Begin? then
      if p !in s.creations && FromService(m.order) && Fresh(s, m.order)
      then Update(s, p, Creation(m.order, Started, map[], None, None, s.db))
      else None
    else if p !in s.creations then None
    else
      var c := s.creations[p];
      var t := c.order.txn;
      match m
      case DebitRow =>
        if !CanDebit(s, p) then None
        else
          (match Debit(View(s, c), t.sender, t.amount)
           case Err(_) => None
           case Ok(ws) => Update(s, p, c.(pc := Debited, writes := c.writes[t.sender := ws[t.sender]])))
      case DebitMiss =>
        if c.pc == Started && !Debitable(View(s, c), t.sender, t.amount)
        then Update(s, p, c.(pc := DebitMissed, seen := s.db.(wallets := View(s, c)))) else None
      case CreditRow =>
        if !CanCredit(s, p) then None
        else
          (match Credit(View(s, c), t.receiver, t.amount)
           case Err(_) => None
           case Ok(ws) => Update(s, p, c.(pc := Credited, writes := c.writes[t.receiver := ws[t.receiver]])))
      case CreditMiss =>
        if c.pc == Debited && !Enabled(View(s, c), t.receiver)
        then Update(s, p, c.(pc := CreditMissed, seen := s.db.(wallets := View(s, c)))) else None
      case InsertRow =>
        if CanInsert(s, p) then
          Update(s, p, c.(pc := RowInserted, row := Some(RowOf(t, c.order.startedAt).value))) else None
      case InsertEvent =>
        if c.pc == RowInserted && c.order.eventId !in s.db.outbox
        then Update(s, p, c.(pc := EventInserted, event := Some(EventOf(c.order.event, c.order.startedAt)))) else None
      case Commit =>
        if c.pc == EventInserted && c.row.Some? && c.event.Some?
        then Some(Drop(s, p).(
          db := Db(s.db.wallets + c.writes, s.db.txns[t.id := c.row.value], s.db.outbox[c.order.eventId := c.event.value]),
          history := s.history + [Create(c.order)]))
        else None
      case Fail => if Fails(s, p) then Some(Drop(s, p)) else None
      case Classify =>
        if c.pc == DebitMissed || c.pc == CreditMissed
        then
          var call := if c.pc == DebitMissed then DebitCall(t.sender, t.amount) else CreditCall(t.receiver);
          var found := s.db.(wallets := View(s, c));
          Some(Drop(s, p).(reports := s.reports + [Report(call, c.seen, found, Explanation(found, call))]))
        else None
      case _ => Some(Drop(s, p))
  }

  // --- everything else ---

  /** A statement that is its own transaction. */
  function CommitOp(s: State, op: Op): Option<State> {
    match Apply(s.db, op)
    case Err(_) => None
    case Ok(db') => Some(s.(db := db', history := s.history + [op]))
  }

  function SingleNext(s: State, op: Op): Option<State> {
    match op
    case CreateWallet(_) => CommitOp(s, op)
    case TopUp(u, _) => if Checked(op) && RowFree(s, u) then CommitOp(s, op) else None
    case SetEnabled(u, _) => if RowFree(s, u) then CommitOp(s, op) else None
    case _ => None
  }

  function FlagOp(id: TxnId, cleared: bool): Op {
    if cleared then Unflag(id) else Flag(id)
  }

  /** The status change commits first; its alert is then waiting to be sent. */
  function FlagNext(s: State, id: TxnId, cleared: bool): Option<State> {
    match CommitOp(s, FlagOp(id, cleared))
    case None => None
    case Some(s') => Some(s'.(unsent := s'.unsent + multiset{Alert(id, cleared)}))
  }

  function MissNext(s: State, p: Pid, call: Call): Option<State> {
    if p !in s.lookups && !call.DebitCall? && !call.CreditCall? && Misses(s.db, call)
    then Some(s.(lookups := s.lookups[p := Lookup(call, s.db)]))
    else None
  }

  function ExplainNext(s: State, p: Pid): Option<State> {
    if p !in s.lookups then None
    else
      var l := s.lookups[p];
      Some(s.(lookups := s.lookups - {p},
              reports := s.reports + [Report(l.call, l.seen, s.db, Explanation(s.db, l.call))]))
  }

  /** Publish is called once per alert; `alerts` lists the calls that put their message in the topic,
      in one copy or, retried, in several. A call that failed may be among them. */
  function AnnounceNext(s: State, a: Alert, appended: bool): Option<State> {
    if a in s.unsent
    then Some(s.(unsent := s.unsent - multiset{a}, alerts := if appended then s.alerts + [a] else s.alerts))
    else None
  }

  function RelayNext(s: State, r: RelayStep): Option<State> {
    match s.worker
    case Idle =>
      if r.Fetch? && IsFetch(s.db.outbox, BATCH_SIZE, r.batch) then Some(s.(worker := Busy(r.batch, 0, false))) else None
    case Busy(batch, next, acked) =>
      if r.Crash? then
        Some(s.(worker := Idle,
                notes := if acked && next < |batch| then s.notes + multiset{CrashedAfterAck(batch[next].id)} else s.notes))
      else if next >= |batch| then
        if r.EndTick? then Some(s.(worker := Idle)) else None
      else
        var f := batch[next];
        var moved := s.(worker := Busy(batch, next + 1, false));
        match r
        case DecodeFails => if acked then None else Some(moved)
        case PublishFails(copies) =>
          if acked then None else Some(moved.(topic := s.topic + Written(f, copies, false)))
        case Publish(copies) =>
          if acked then None
          else Some(s.(worker := Busy(batch, next, true), topic := s.topic + Written(f, copies, true)))
        case Mark =>
          if acked then CommitOp(moved.(notes := s.notes + multiset{MarkSucceeded(f.id)}), MarkPublished(f.id)) else None
        case MarkFails(applied) =>
          if !acked then None
          else
            var noted := moved.(notes := s.notes + multiset{MarkFailed(f.id)});
            if applied then CommitOp(noted, MarkPublished(f.id)) else Some(noted)
        case _ => None
  }

  function Next(s: State, step: Step): Option<State> {
    match step
    case Money(p, m) => MoneyNext(s, p, m)
    case Single(op) => SingleNext(s, op)
    case FlagRow(id, cleared) => FlagNext(s, id, cleared)
    case Miss(p, call) => MissNext(s, p, call)
    case Explain(p) => ExplainNext(s, p)
    case Announce(a, appended) => AnnounceNext(s, a, appended)
    case Relay(r) => RelayNext(s, r)
  }

  /** The state after these steps, if each of them is possible in turn. */
  function Exec(steps: seq<Step>): Option<State> {
    if steps == [] then Some(INIT)
    else
      match Exec(steps[..|steps| - 1])
      case None => None
      case Some(s) => Next(s, steps[|steps| - 1])
  }

  ghost predicate Reaches(steps: seq<Step>, s: State) {
    Exec(steps) == Some(s)
  }

  lemma Unsnoc(steps: seq<Step>)
    requires steps != []
    ensures steps == steps[..|steps| - 1] + [steps[|steps| - 1]]
  {
  }

  lemma LastState(steps: seq<Step>, s': State) returns (s: State)
    requires Reaches(steps, s') && steps != []
    ensures Reaches(steps[..|steps| - 1], s) && Next(s, steps[|steps| - 1]) == Some(s')
  {
    s := Exec(steps[..|steps| - 1]).value;
  }

  /** The last step of a non-empty execution. */
  lemma LastMove(steps: seq<Step>, s': State) returns (init: seq<Step>, s: State, step: Step)
    requires Reaches(steps, s') && steps != []
    ensures steps == init + [step] && Reaches(init, s) && Next(s, step) == Some(s')
    ensures init == steps[..|steps| - 1]
  {
    init, step := steps[..|steps| - 1], steps[|steps| - 1];
    s := LastState(steps, s');
    Unsnoc(steps);
  }
}
