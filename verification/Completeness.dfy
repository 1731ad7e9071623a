/** The other half of serializability: nothing that could happen sequentially is ruled out. */
module Completeness {
  import opened Wrappers
  import opened Ledger
  import opened LedgerLaws
  import opened Machine
  import opened MachineLaws
  import opened Serializability

  /** s with one creation in flight. */
  function With(s: State, c: Creation): State {
    s.(creations := map[0 := c])
  }

  lemma Replaces(s: State, c: Creation, c': Creation)
    ensures Update(With(s, c), 0, c') == Some(With(s, c'))
  {
    assert map[0 := c][0 := c'] == map[0 := c'];
  }

  lemma Begins(s: State, o: Order)
    requires s.creations == map[] && FromService(o) && Transfer(s.db, o).Ok?
    ensures MoneyNext(s, 0, Begin(o)) == Some(With(s, Creation(o, Started, map[], None, None, s.db)))
  {
  }

  lemma Debits(s: State, c: Creation)
    requires c.pc == Started && c.writes == map[] && InRange(s.db.wallets) && FromService(c.order)
    requires Debit(s.db.wallets, c.order.txn.sender, c.order.txn.amount).Ok?
    ensures MoneyNext(With(s, c), 0, DebitRow).Some?
    ensures var s' := MoneyNext(With(s, c), 0, DebitRow).value;
            s' == With(s, s'.creations[0]) && s'.creations[0].pc == Debited && s'.creations[0].order == c.order
            && HasDebited(s.db.wallets, s'.creations[0])
  {
    assert View(With(s, c), c) == s.db.wallets;
    DebitEffect(s.db.wallets, c.order.txn.sender, c.order.txn.amount);
  }

  lemma Credits(s: State, c: Creation)
    requires c.pc == Debited && HasDebited(s.db.wallets, c) && MoveMoney(s.db.wallets, c.order.txn).Ok?
    ensures MoneyNext(With(s, c), 0, CreditRow).Some?
    ensures var s' := MoneyNext(With(s, c), 0, CreditRow).value;
            s' == With(s, s'.creations[0]) && s'.creations[0].pc == Credited && s'.creations[0].order == c.order
            && HasMoved(s.db.wallets, s'.creations[0])
  {
    var t := c.order.txn;
    assert View(With(s, c), c) == Debit(s.db.wallets, t.sender, t.amount).value;
    var end := MoveMoney(s.db.wallets, t).value;
    var c' := c.(pc := Credited, writes := c.writes[t.receiver := end[t.receiver]]);
    CreditCompletes(s.db.wallets, c, end, c');
    Replaces(s, c, c');
    assert CanCredit(With(s, c), 0);
  }

  function RowDone(c: Creation): Creation
    requires RowOf(c.order.txn, c.order.startedAt).Ok?
  {
    c.(pc := RowInserted, row := Some(RowOf(c.order.txn, c.order.startedAt).value))
  }

  function EventDone(c: Creation): Creation {
    c.(pc := EventInserted, event := Some(EventOf(c.order.event, c.order.startedAt)))
  }

  lemma InsertsRow(s: State, c: Creation)
    requires c.pc == Credited && c.order.txn.id !in s.db.txns && RowOf(c.order.txn, c.order.startedAt).Ok?
    ensures MoneyNext(With(s, c), 0, InsertRow) == Some(With(s, RowDone(c)))
  {
    Replaces(s, c, RowDone(c));
    assert CanInsert(With(s, c), 0);
  }

  lemma InsertsEvent(s: State, c: Creation)
    requires c.pc == RowInserted && c.order.eventId !in s.db.outbox
    ensures MoneyNext(With(s, c), 0, InsertEvent) == Some(With(s, EventDone(c)))
  {
    Replaces(s, c, EventDone(c));
  }

  lemma Commits(s: State, c: Creation)
    requires s.creations == map[] && CreationOk(s.db, c) && c.pc == EventInserted
    ensures MoneyNext(With(s, c), 0, Commit) ==
            Some(s.(db := Transfer(s.db, c.order).value, history := s.history + [Create(c.order)]))
  {
  }

  /** A transfer that can happen alone happens when it runs alone. */
  lemma TransferHappens(steps: seq<Step>, s: State, o: Order) returns (steps': seq<Step>, s': State)
    requires Reaches(steps, s) && s.creations == map[] && InRange(s.db.wallets)
    requires FromService(o) && Transfer(s.db, o).Ok?
    ensures Reaches(steps', s')
    ensures s' == s.(db := Transfer(s.db, o).value, history := s.history + [Create(o)])
  {
    var c0 := Creation(o, Started, map[], None, None, s.db);
    Begins(s, o);
    OneMore(steps, s, Money(0, Begin(o)), With(s, c0));
    var a := steps + [Money(0, Begin(o))];
    Debits(s, c0);
    var s1 := MoneyNext(With(s, c0), 0, DebitRow).value;
    OneMore(a, With(s, c0), Money(0, DebitRow), s1);
    var b := a + [Money(0, DebitRow)];
    Credits(s, s1.creations[0]);
    var s2 := MoneyNext(s1, 0, CreditRow).value;
    OneMore(b, s1, Money(0, CreditRow), s2);
    steps', s' := TransferFinishes(b + [Money(0, CreditRow)], s, s2.creations[0]);
  }

  lemma TransferFinishes(steps: seq<Step>, s: State, c: Creation) returns (steps': seq<Step>, s': State)
    requires Reaches(steps, With(s, c)) && s.creations == map[]
    requires c.pc == Credited && HasMoved(s.db.wallets, c) && FromService(c.order) && Transfer(s.db, c.order).Ok?
    ensures Reaches(steps', s')
    ensures s' == s.(db := Transfer(s.db, c.order).value, history := s.history + [Create(c.order)])
  {
    var c1, c2 := RowDone(c), EventDone(RowDone(c));
    InsertsRow(s, c);
    InsertsEvent(s, c1);
    OneMore(steps, With(s, c), Money(0, InsertRow), With(s, c1));
    OneMore(steps + [Money(0, InsertRow)], With(s, c1), Money(0, InsertEvent), With(s, c2));
    Commits(s, c2);
    s' := MoneyNext(With(s, c2), 0, Commit).value;
    OneMore(steps + [Money(0, InsertRow)] + [Money(0, InsertEvent)], With(s, c2), Money(0, Commit), s');
    steps' := steps + [Money(0, InsertRow)] + [Money(0, InsertEvent)] + [Money(0, Commit)];
  }

  ghost predicate NoMarks(ops: seq<Op>) {
    forall op :: op in ops ==> !op.MarkPublished?
  }

  lemma SingleHappens(steps: seq<Step>, s: State, step: Step, op: Op) returns (steps': seq<Step>, s': State)
    requires Reaches(steps, s) && s.creations == map[] && Checked(op) && Apply(s.db, op).Ok?
    requires (step == Single(op) && (op.CreateWallet? || op.TopUp? || op.SetEnabled?))
             || (step.FlagRow? && op == FlagOp(step.txn, step.cleared))
    ensures Reaches(steps', s')
    ensures s'.db == Apply(s.db, op).value && s'.history == s.history + [op] && s'.creations == map[]
  {
    s' := Next(s, step).value;
    OneMore(steps, s, step, s');
    steps' := steps + [step];
  }

  lemma OpHappens(steps: seq<Step>, s: State, op: Op) returns (steps': seq<Step>, s': State)
    requires Reaches(steps, s) && s.creations == map[] && InRange(s.db.wallets)
    requires Checked(op) && Apply(s.db, op).Ok? && !op.MarkPublished?
    ensures Reaches(steps', s')
    ensures s'.db == Apply(s.db, op).value && s'.history == s.history + [op] && s'.creations == map[]
  {
    match op {
      case Create(o) => steps', s' := TransferHappens(steps, s, o);
      case Flag(id) => steps', s' := SingleHappens(steps, s, FlagRow(id, false), op);
      case Unflag(id) => steps', s' := SingleHappens(steps, s, FlagRow(id, true), op);
      case _ => steps', s' := SingleHappens(steps, s, Single(op), op);
    }
  }

  /** Every sequential run of requests is an execution of the service. */
  lemma {:induction false} SequentialRunHappens(ops: seq<Op>, db: Db) returns (steps: seq<Step>, s: State)
    requires Run(ops, db) && NoMarks(ops)
    ensures Reaches(steps, s) && s.db == db && s.history == ops && s.creations == map[]
    decreases |ops|
  {
    if ops == [] {
      steps, s := [], INIT;
    } else {
      var init, before, op := LastStep(ops, db);
      steps, s := SequentialRunHappens(init, before);
      BalancesStayInRange(init, before);
      steps, s := OpHappens(steps, s, op);
    }
  }

  /** Serializability, both ways: tables are reachable by interleaving whatever the worker has not
      yet marked exactly when they are reachable one operation at a time. */
  lemma ReachableIffSequential(db: Db)
    ensures (exists ops :: Run(ops, db) && NoMarks(ops))
       <==> (exists steps, s :: Reaches(steps, s) && s.db == db && NoMarks(CommitLog(steps)))
  {
    if ops :| Run(ops, db) && NoMarks(ops) {
      var steps, s := SequentialRunHappens(ops, db);
      HistoryIsLog(steps, s);
      assert Reaches(steps, s) && s.db == db && NoMarks(CommitLog(steps));
    }
    if steps, s :| Reaches(steps, s) && s.db == db && NoMarks(CommitLog(steps)) {
      Serializable(steps, s);
    }
  }
}
