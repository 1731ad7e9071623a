/** Every interleaved execution of the service amounts to its committed operations
    replayed one by one in commit order. */
module Serializability {
  import opened Wrappers
  import opened Ledger
  import opened LedgerLaws
  import opened Machine

  // --- what a creation in flight knows ---

  /** The debit is what it would be if it happened now. */
  ghost predicate HasDebited(ws: Wallets, c: Creation) {
    var t := c.order.txn;
    && Debit(ws, t.sender, t.amount).Ok?
    && c.writes == map[t.sender := Debit(ws, t.sender, t.amount).value[t.sender]]
  }

  /** Debit and credit are what they would be if both happened now. */
  ghost predicate HasMoved(ws: Wallets, c: Creation) {
    var t := c.order.txn;
    && MoveMoney(ws, t).Ok?
    && c.writes.Keys == {t.sender, t.receiver}
    && ws + c.writes == MoveMoney(ws, t).value
  }

  ghost predicate CreationOk(db: Db, c: Creation) {
    && FromService(c.order) && c.order.txn.id !in db.txns && c.order.eventId !in db.outbox
    && match c.pc
       case Started => c.writes == map[]
       case DebitMissed => c.writes == map[]
       case Debited => HasDebited(db.wallets, c)
       case CreditMissed => HasDebited(db.wallets, c)
       case Credited => HasMoved(db.wallets, c)
       case RowInserted => HasMoved(db.wallets, c) && RowReady(c)
       case EventInserted =>
         HasMoved(db.wallets, c) && RowReady(c) && c.event == Some(EventOf(c.order.event, c.order.startedAt))
  }

  ghost predicate RowReady(c: Creation) {
    c.row.Some? && RowOf(c.order.txn, c.order.startedAt) == Ok(c.row.value)
  }

  ghost predicate NoSharedLocks(cs: map<Pid, Creation>) {
    forall p, q, u :: p in cs && q in cs && p != q && u in cs[p].writes ==> u !in cs[q].writes
  }

  ghost predicate NoSharedIds(cs: map<Pid, Creation>) {
    forall p, q :: p in cs && q in cs && p != q ==>
      cs[p].order.txn.id != cs[q].order.txn.id && cs[p].order.eventId != cs[q].order.eventId
  }

  ghost predicate Inv(s: State) {
    && Run(s.history, s.db)
    && (forall p :: p in s.creations ==> CreationOk(s.db, s.creations[p]))
    && NoSharedLocks(s.creations)
    && NoSharedIds(s.creations)
  }

  // --- interference ---

  /** Others may change any row but the ones this creation holds, and use any id but its own. */
  ghost predicate Undisturbed(db: Db, db': Db, c: Creation) {
    && (forall u :: u in c.writes ==>
          (u in db.wallets <==> u in db'.wallets) && (u in db.wallets ==> db'.wallets[u] == db.wallets[u]))
    && c.order.txn.id !in db'.txns && c.order.eventId !in db'.outbox
  }

  lemma MovedUndisturbed(ws: Wallets, ws': Wallets, c: Creation)
    requires HasMoved(ws, c)
    requires forall u :: u in c.writes ==> (u in ws <==> u in ws') && (u in ws ==> ws'[u] == ws[u])
    ensures HasMoved(ws', c)
  {
  }

  lemma CreationUndisturbed(db: Db, db': Db, c: Creation)
    requires CreationOk(db, c) && Undisturbed(db, db', c)
    ensures CreationOk(db', c)
  {
    if c.pc == Credited || c.pc == RowInserted || c.pc == EventInserted {
      MovedUndisturbed(db.wallets, db'.wallets, c);
    }
  }

  // --- one step ---

  /** The operation a step commits, if it commits one. */
  function Committed(s: State, step: Step): Option<Op> {
    match step
    case Money(p, m) => if m.Commit? && p in s.creations then Some(Create(s.creations[p].order)) else None
    case Single(op) => Some(op)
    case FlagRow(id, cleared) => Some(FlagOp(id, cleared))
    case Relay(r) =>
      if (r == Mark || r == MarkFails(true)) && s.worker.Busy? && s.worker.next < |s.worker.batch|
      then Some(MarkPublished(s.worker.batch[s.worker.next].id)) else None
    case _ => None
  }

  /** A step either commits nothing, or it commits one operation that succeeds on the committed tables as they are. */
  ghost predicate Simulates(s: State, step: Step, s': State) {
    match Committed(s, step)
    case None => s'.db == s.db && s'.history == s.history
    case Some(op) => Checked(op) && Apply(s.db, op) == Ok(s'.db) && s'.history == s.history + [op]
  }

  /** Locked rows exist. */
  lemma WritesExist(db: Db, c: Creation)
    requires CreationOk(db, c)
    ensures c.writes.Keys <= db.wallets.Keys
  {
  }

  lemma OpKeepsInv(s: State, op: Op, s': State)
    requires Inv(s) && Checked(op) && Apply(s.db, op) == Ok(s'.db)
    requires s'.history == s.history + [op] && s'.creations == s.creations
    requires forall p :: p in s.creations ==> Undisturbed(s.db, s'.db, s.creations[p])
    ensures Inv(s')
  {
    RunExtends(s.history, s.db, op);
    forall p | p in s.creations ensures CreationOk(s'.db, s.creations[p]) {
      CreationUndisturbed(s.db, s'.db, s.creations[p]);
    }
  }

  /** A statement on its own disturbs no creation: it needs its wallet row free, or touches no wallet. */
  lemma SingleUndisturbs(s: State, op: Op, db': Db, p: Pid)
    requires Inv(s) && p in s.creations && Apply(s.db, op) == Ok(db') && !op.Create?
    requires op.TopUp? || op.SetEnabled? ==> RowFree(s, op.user)
    ensures Undisturbed(s.db, db', s.creations[p])
  {
    var c := s.creations[p];
    WritesExist(s.db, c);
    ApplyGrows(s.db, op, db');
    match op
    case TopUp(u, a) => assert u !in c.writes; assert db'.wallets == s.db.wallets[u := db'.wallets[u]];
    case SetEnabled(u, e) => assert u !in c.writes;
    case CreateWallet(u) => assert u !in c.writes;
    case _ =>
  }

  lemma SingleKeepsInv(s: State, op: Op, s': State)
    requires Inv(s) && Checked(op) && !op.Create? && Apply(s.db, op) == Ok(s'.db)
    requires s'.history == s.history + [op] && s'.creations == s.creations
    requires op.TopUp? || op.SetEnabled? ==> RowFree(s, op.user)
    ensures Inv(s')
  {
    forall p | p in s.creations ensures Undisturbed(s.db, s'.db, s.creations[p]) {
      SingleUndisturbs(s, op, s'.db, p);
    }
    OpKeepsInv(s, op, s');
  }

  /** Publishing the rows a creation holds is the transfer, done now. */
  lemma CommitIsTransfer(db: Db, c: Creation)
    requires CreationOk(db, c) && c.pc == EventInserted
    ensures Transfer(db, c.order) ==
            Ok(Db(db.wallets + c.writes,
                  db.txns[c.order.txn.id := c.row.value], db.outbox[c.order.eventId := c.event.value]))
  {
  }

  lemma CommitKeepsInv(s: State, p: Pid, s': State)
    requires Inv(s) && MoneyNext(s, p, Commit) == Some(s')
    ensures Inv(s') && Simulates(s, Money(p, Commit), s')
  {
    var c := s.creations[p];
    CommitIsTransfer(s.db, c);
    RunExtends(s.history, s.db, Create(c.order));
    forall q | q in s'.creations ensures CreationOk(s'.db, s'.creations[q]) {
      assert q != p && s'.creations[q] == s.creations[q];
      forall u | u in s.creations[q].writes ensures u !in c.writes {}
      CreationUndisturbed(s.db, s'.db, s.creations[q]);
    }
  }

  /** c holds no lock and uses no id of another creation. */
  ghost predicate Separate(cs: map<Pid, Creation>, p: Pid, c: Creation) {
    forall q :: q in cs && q != p ==>
      && c.writes.Keys !! cs[q].writes.Keys
      && cs[q].order.txn.id != c.order.txn.id && cs[q].order.eventId != c.order.eventId
  }

  lemma PutKeepsApart(cs: map<Pid, Creation>, p: Pid, c: Creation)
    requires NoSharedLocks(cs) && NoSharedIds(cs) && Separate(cs, p, c)
    ensures NoSharedLocks(cs[p := c]) && NoSharedIds(cs[p := c])
  {
  }

  /** Replacing one creation by a good one. */
  lemma UpdateKeepsInv(s: State, p: Pid, c: Creation, s': State)
    requires Inv(s) && s'.db == s.db && s'.history == s.history && s'.creations == s.creations[p := c]
    requires CreationOk(s.db, c) && Separate(s.creations, p, c)
    ensures Inv(s')
  {
    PutKeepsApart(s.creations, p, c);
  }

  lemma DebitRowOk(s: State, p: Pid, s': State)
    requires Inv(s) && MoneyNext(s, p, DebitRow) == Some(s')
    ensures Inv(s')
  {
    var c := s.creations[p];
    assert View(s, c) == s.db.wallets;
    UpdateKeepsInv(s, p, s'.creations[p], s');
  }

  /** A credit on top of the debit completes the move. */
  lemma CreditCompletes(ws: Wallets, c: Creation, end: Wallets, c': Creation)
    requires HasDebited(ws, c) && Credit(ws + c.writes, c.order.txn.receiver, c.order.txn.amount) == Ok(end)
    requires c'.order == c.order && c'.writes == c.writes[c.order.txn.receiver := end[c.order.txn.receiver]]
    ensures HasMoved(ws, c')
  {
  }

  lemma CreditRowOk(s: State, p: Pid, s': State)
    requires Inv(s) && MoneyNext(s, p, CreditRow) == Some(s')
    ensures Inv(s')
  {
    var c, t := s.creations[p], s.creations[p].order.txn;
    CreditCompletes(s.db.wallets, c, Credit(View(s, c), t.receiver, t.amount).value, s'.creations[p]);
    UpdateKeepsInv(s, p, s'.creations[p], s');
  }

  lemma InsertOk(s: State, p: Pid, m: MoneyStep, s': State)
    requires Inv(s) && (m == InsertRow || m == InsertEvent) && MoneyNext(s, p, m) == Some(s')
    ensures Inv(s')
  {
    UpdateKeepsInv(s, p, s'.creations[p], s');
  }

  lemma OtherMoneyOk(s: State, p: Pid, m: MoneyStep, s': State)
    requires Inv(s) && (m.Begin? || m == DebitMiss || m == CreditMiss) && MoneyNext(s, p, m) == Some(s')
    ensures Inv(s')
  {
    UpdateKeepsInv(s, p, s'.creations[p], s');
  }

  /** A creation that ends without committing leaves nothing behind. */
  lemma RollbackLeavesNoTrace(s: State, p: Pid, m: MoneyStep, s': State)
    requires Inv(s) && (m == Fail || m == Classify || m == Abort) && MoneyNext(s, p, m) == Some(s')
    ensures s'.db == s.db && s'.history == s.history
    ensures s'.creations == s.creations - {p}
    ensures s.creations[p].order.txn.id !in s'.db.txns && s.creations[p].order.eventId !in s'.db.outbox
    ensures Inv(s')
  {
    assert CreationOk(s.db, s.creations[p]);
  }

  lemma MoneyKeepsInv(s: State, p: Pid, m: MoneyStep, s': State)
    requires Inv(s) && MoneyNext(s, p, m) == Some(s')
    ensures Inv(s') && Simulates(s, Money(p, m), s')
  {
    match m
    case DebitRow => DebitRowOk(s, p, s');
    case CreditRow => CreditRowOk(s, p, s');
    case Commit => CommitKeepsInv(s, p, s');
    case InsertRow => InsertOk(s, p, m, s');
    case InsertEvent => InsertOk(s, p, m, s');
    case Fail => RollbackLeavesNoTrace(s, p, m, s');
    case Classify => RollbackLeavesNoTrace(s, p, m, s');
    case Abort => RollbackLeavesNoTrace(s, p, m, s');
    case _ => OtherMoneyOk(s, p, m, s');
  }

  lemma RelayKeepsInv(s: State, r: RelayStep, s': State)
    requires Inv(s) && RelayNext(s, r) == Some(s')
    ensures Inv(s') && Simulates(s, Relay(r), s')
  {
    match Committed(s, Relay(r))
    case None =>
    case Some(op) => SingleKeepsInv(s, op, s');
  }

  /** The simulation: every step keeps the invariant and commits at most one operation. */
  lemma StepSimulates(s: State, step: Step, s': State)
    requires Inv(s) && Next(s, step) == Some(s')
    ensures Inv(s') && Simulates(s, step, s')
  {
    match step
    case Money(p, m) => MoneyKeepsInv(s, p, m, s');
    case Single(op) => SingleKeepsInv(s, op, s');
    case FlagRow(id, cleared) => SingleKeepsInv(s, FlagOp(id, cleared), s');
    case Relay(r) => RelayKeepsInv(s, r, s');
    case _ =>
  }

  // --- whole executions ---

  /** The operations an execution commits, in commit order. */
  function CommitLog(steps: seq<Step>): seq<Op> {
    if steps == [] then []
    else
      var init, step := steps[..|steps| - 1], steps[|steps| - 1];
      match Exec(init)
      case None => CommitLog(init)
      case Some(s) => CommitLog(init) + match Committed(s, step) { case None => [] case Some(op) => [op] }
  }

  lemma {:induction false} ReachableInv(steps: seq<Step>, s: State)
    requires Reaches(steps, s)
    ensures Inv(s)
    decreases |steps|
  {
    if steps != [] {
      var init, before, step := LastMove(steps, s);
      ReachableInv(init, before);
      StepSimulates(before, step, s);
    }
  }

  lemma {:induction false} HistoryIsLog(steps: seq<Step>, s: State)
    requires Reaches(steps, s)
    ensures s.history == CommitLog(steps)
    decreases |steps|
  {
    if steps != [] {
      var init, before, step := LastMove(steps, s);
      HistoryIsLog(init, before);
      ReachableInv(init, before);
      StepSimulates(before, step, s);
    }
  }

  /** Serializability. Whatever the interleaving, blocking, failures and rollbacks, the committed
      tables are those of a sequential run of the committed operations in commit order. */
  lemma Serializable(steps: seq<Step>, s: State)
    requires Reaches(steps, s)
    ensures Run(CommitLog(steps), s.db)
  {
    ReachableInv(steps, s);
    HistoryIsLog(steps, s);
  }
}
