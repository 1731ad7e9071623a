/** The ledger's laws as they hold while everything runs at once. */
module MachineLaws {
  import opened Wrappers
  import opened Ledger
  import opened LedgerLaws
  import opened MapSum
  import opened Machine
  import opened Serializability

  // --- balances ---

  lemma PendingInRange(ws: Wallets, c: Creation)
    requires InRange(ws) && FromService(c.order)
    requires c.writes == map[] || HasDebited(ws, c) || HasMoved(ws, c)
    ensures InRange(c.writes)
  {
  }

  /** In every reachable state every balance, committed or still pending, is non-negative and fits its column. */
  lemma BalanceBound(steps: seq<Step>, s: State)
    requires Reaches(steps, s)
    ensures InRange(s.db.wallets)
    ensures forall p :: p in s.creations ==> InRange(s.creations[p].writes)
  {
    ReachableInv(steps, s);
    BalancesStayInRange(s.history, s.db);
    forall p | p in s.creations ensures InRange(s.creations[p].writes) {
      assert CreationOk(s.db, s.creations[p]);
      PendingInRange(s.db.wallets, s.creations[p]);
    }
  }

  /** The books of the running service: per wallet and in total, for amounts of any scale; and to
      the cent when every committed amount is whole cents. */
  lemma ConcurrentBooks(steps: seq<Step>, s: State, u: UserId)
    requires Reaches(steps, s)
    ensures BalanceAt(s.db, u) ==
            ToppedUp(CommitLog(steps), u) + Sum(s.db.txns, NetOf(u)) + Sum(s.db.outbox, HalfCentKeptBy(u))
    ensures Total(s.db.wallets) == AllToppedUp(CommitLog(steps)) + Sum(s.db.outbox, HalfCentEvent)
    ensures WholeCents(CommitLog(steps)) ==>
              && BalanceAt(s.db, u) == ToppedUp(CommitLog(steps), u) + Sum(s.db.txns, NetOf(u))
              && Total(s.db.wallets) == AllToppedUp(CommitLog(steps))
  {
    Serializable(steps, s);
    LedgerEquation(CommitLog(steps), s.db, u);
    MoneySupply(CommitLog(steps), s.db);
    if WholeCents(CommitLog(steps)) {
      BooksBalance(CommitLog(steps), s.db, u);
    }
  }

  // --- freezing ---

  /** While a wallet is disabled no step changes its balance, and whoever commits a transfer
      commits it between two wallets that are enabled at that moment. */
  lemma FreezeSafety(steps: seq<Step>, s: State, step: Step, s': State)
    requires Reaches(steps, s) && Next(s, step) == Some(s')
    ensures forall u :: u in s.db.wallets && !s.db.wallets[u].enabled ==>
              u in s'.db.wallets && s'.db.wallets[u].balance == s.db.wallets[u].balance
    ensures step.Money? && step.money.Commit? ==>
              && Enabled(s.db.wallets, s.creations[step.pid].order.txn.sender)
              && Enabled(s.db.wallets, s.creations[step.pid].order.txn.receiver)
  {
    BalanceBound(steps, s);
    ReachableInv(steps, s);
    StepSimulates(s, step, s');
    match Committed(s, step)
    case None =>
    case Some(op) =>
      forall u | u in s.db.wallets && !s.db.wallets[u].enabled
        ensures u in s'.db.wallets && s'.db.wallets[u].balance == s.db.wallets[u].balance
      {
        FrozenWalletsKeepTheirBalance(s.db, op, s'.db, u);
      }
      if op.Create? {
        FrozenWalletsKeepTheirBalance(s.db, op, s'.db, op.order.txn.sender);
      }
  }

  lemma FrozenThroughStep(steps: seq<Step>, s: State, step: Step, s': State, u: UserId)
    requires Reaches(steps, s) && Next(s, step) == Some(s') && step != Single(SetEnabled(u, true))
    requires u in s.db.wallets && !s.db.wallets[u].enabled
    ensures u in s'.db.wallets && s'.db.wallets[u] == s.db.wallets[u]
    ensures Committed(s, step).Some? ==> !Uses(Committed(s, step).value, u)
  {
    BalanceBound(steps, s);
    ReachableInv(steps, s);
    StepSimulates(s, step, s');
    match Committed(s, step)
    case None =>
    case Some(op) => FrozenStep(s.db, op, s'.db, u);
  }

  /** Whatever is in flight when a wallet is found disabled, and whatever comes after, the wallet
      stays as it is until a step enables it again. */
  lemma {:induction false} FrozenThroughout(steps: seq<Step>, s: State, more: seq<Step>, s': State, u: UserId)
    requires Reaches(steps, s) && Reaches(steps + more, s')
    requires u in s.db.wallets && !s.db.wallets[u].enabled && Single(SetEnabled(u, true)) !in more
    ensures u in s'.db.wallets && s'.db.wallets[u] == s.db.wallets[u]
    decreases |more|
  {
    if more == [] {
      assert steps + more == steps;
    } else {
      var n := |more| - 1;
      var init, before, step := LastMove(steps + more, s');
      assert init == steps + more[..n] && step == more[n];
      FrozenThroughout(steps, s, more[..n], before, u);
      FrozenThroughStep(init, before, step, s', u);
    }
  }

  lemma CommitWrites(s: State, q: Pid, s': State)
    requires MoneyNext(s, q, Commit) == Some(s')
    ensures q in s.creations && s'.db.wallets == s.db.wallets + s.creations[q].writes
  {
  }

  /** The rows written by q are not among those held by p. */
  lemma CommitSparesOthers(s: State, q: Pid, p: Pid)
    requires Inv(s) && q in s.creations && p in s.creations && p != q
    ensures forall u :: u in s.creations[p].writes ==> u in s.db.wallets && u !in s.creations[q].writes
  {
    WritesExist(s.db, s.creations[p]);
  }

  /** From its debit to its commit, a creation's rows are out of everyone's reach: a disable
      requested in between, or any other write, has to wait. */
  lemma HeldRowsAreStable(s: State, step: Step, s': State, p: Pid)
    requires Inv(s) && Next(s, step) == Some(s') && p in s.creations
    requires step != Money(p, Commit)
    ensures forall u :: u in s.creations[p].writes ==>
              u in s.db.wallets && u in s'.db.wallets && s'.db.wallets[u] == s.db.wallets[u]
  {
    WritesExist(s.db, s.creations[p]);
    if step.Money? && step.money.Commit? {
      CommitWrites(s, step.pid, s');
      CommitSparesOthers(s, step.pid, p);
    } else {
      StepSimulates(s, step, s');
      match Committed(s, step)
      case None =>
      case Some(op) => SingleUndisturbs(s, op, s'.db, p);
    }
  }

  // --- rows, events, flags ---

  /** In every reachable state rows and events pair up, and every transaction's status is what
      its alternating committed flags and unflags make it. */
  lemma RowsEventsFlags(steps: seq<Step>, s: State, id: TxnId)
    requires Reaches(steps, s)
    ensures Paired(s.db)
    ensures FlagState(s.db, id, Moves(CommitLog(steps), id))
  {
    Serializable(steps, s);
    RowsAndEventsPair(CommitLog(steps), s.db);
    FlagHistory(CommitLog(steps), s.db, id);
  }

  /** In every execution the wallets are exactly those created by it, each once, and each is enabled
      exactly if its last committed toggle enabled it. */
  lemma WalletsAndSwitches(steps: seq<Step>, s: State, u: UserId)
    requires Reaches(steps, s)
    ensures u in s.db.wallets <==> CreateWallet(u) in CommitLog(steps)
    ensures multiset(CommitLog(steps))[CreateWallet(u)] <= 1
    ensures u in s.db.wallets ==> s.db.wallets[u].enabled == LastSwitch(CommitLog(steps), u)
  {
    Serializable(steps, s);
    WalletsAreCreated(CommitLog(steps), s.db, u);
    SwitchIsLastToggle(CommitLog(steps), s.db, u);
  }

  // --- what callers are told ---

  /** Rows are never deleted. */
  predicate KeepsRows(db: Db, db': Db) {
    db.wallets.Keys <= db'.wallets.Keys && db.txns.Keys <= db'.txns.Keys
  }

  /** The call was fruitless on what it saw, and the answer is read off later rows. */
  predicate Justified(r: Report) {
    Misses(r.seen, r.call) && KeepsRows(r.seen, r.found) && r.error == Explanation(r.found, r.call)
  }

  function CallOf(c: Creation): Call
    requires c.pc == DebitMissed || c.pc == CreditMissed
  {
    if c.pc == DebitMissed then DebitCall(c.order.txn.sender, c.order.txn.amount) else CreditCall(c.order.txn.receiver)
  }

  predicate MissedOk(db: Db, c: Creation) {
    c.pc == DebitMissed || c.pc == CreditMissed ==> Misses(c.seen, CallOf(c)) && KeepsRows(c.seen, db)
  }

  ghost predicate ReportsInv(s: State) {
    && (forall p :: p in s.creations ==> MissedOk(s.db, s.creations[p]))
    && (forall p :: p in s.lookups ==> Misses(s.lookups[p].seen, s.lookups[p].call) && KeepsRows(s.lookups[p].seen, s.db))
    && (forall i :: 0 <= i < |s.reports| ==> Justified(s.reports[i]))
  }

  lemma StepKeepsRows(s: State, step: Step, s': State)
    requires Inv(s) && Next(s, step) == Some(s')
    ensures KeepsRows(s.db, s'.db)
  {
    StepSimulates(s, step, s');
    match Committed(s, step)
    case None =>
    case Some(op) => ApplyGrows(s.db, op, s'.db);
  }

  /** Growing tables keep what was known about lookups and misses. */
  lemma GrowthKeepsReports(s: State, s': State)
    requires ReportsInv(s) && KeepsRows(s.db, s'.db)
    requires s'.lookups == s.lookups && s'.reports == s.reports
    requires forall p :: p in s'.creations ==> p in s.creations && s'.creations[p] == s.creations[p]
    ensures ReportsInv(s')
  {
  }

  /** What a step that keeps the creation in flight does to the parts reports depend on. */
  lemma UpdateShape(s: State, p: Pid, m: MoneyStep, s': State)
    requires MoneyNext(s, p, m) == Some(s')
    requires !(m.Commit? || m.Fail? || m.Classify? || m.Abort?)
    ensures p in s'.creations && s'.creations == s.creations[p := s'.creations[p]]
    ensures s'.db == s.db && s'.lookups == s.lookups && s'.reports == s.reports
  {
  }

  lemma UpdateMissedOk(s: State, p: Pid, m: MoneyStep, s': State)
    requires Inv(s) && MoneyNext(s, p, m) == Some(s')
    requires !(m.Commit? || m.Fail? || m.Classify? || m.Abort?)
    ensures p in s'.creations && MissedOk(s.db, s'.creations[p])
  {
    if m == DebitMiss || m == CreditMiss {
      WritesExist(s.db, s.creations[p]);
      assert View(s, s.creations[p]).Keys == s.db.wallets.Keys;
    }
  }

  lemma UpdateKeepsReports(s: State, p: Pid, m: MoneyStep, s': State)
    requires Inv(s) && ReportsInv(s) && MoneyNext(s, p, m) == Some(s')
    requires !(m.Commit? || m.Fail? || m.Classify? || m.Abort?)
    ensures ReportsInv(s')
  {
    UpdateShape(s, p, m, s');
    UpdateMissedOk(s, p, m, s');
  }

  lemma ClassifyIsJustified(s: State, p: Pid, s': State)
    requires Inv(s) && ReportsInv(s) && MoneyNext(s, p, Classify) == Some(s')
    ensures ReportsInv(s')
  {
    var c := s.creations[p];
    WritesExist(s.db, c);
    assert View(s, c).Keys == s.db.wallets.Keys;
    assert MissedOk(s.db, c);
    assert Justified(s'.reports[|s.reports|]);
  }

  lemma MoneyKeepsReports(s: State, p: Pid, m: MoneyStep, s': State)
    requires Inv(s) && ReportsInv(s) && MoneyNext(s, p, m) == Some(s') && KeepsRows(s.db, s'.db)
    ensures ReportsInv(s')
  {
    match m
    case Commit => GrowthKeepsReports(s, s');
    case Fail => GrowthKeepsReports(s, s');
    case Abort => GrowthKeepsReports(s, s');
    case Classify => ClassifyIsJustified(s, p, s');
    case _ => UpdateKeepsReports(s, p, m, s');
  }

  lemma ExplainIsJustified(s: State, p: Pid, s': State)
    requires ReportsInv(s) && ExplainNext(s, p) == Some(s')
    ensures ReportsInv(s')
  {
  }

  lemma RelaySparesReports(s: State, r: RelayStep, s': State)
    requires RelayNext(s, r) == Some(s')
    ensures s'.creations == s.creations && s'.lookups == s.lookups && s'.reports == s.reports
  {
  }

  /** Steps outside creations and lookups do not touch either, nor the reports. */
  lemma OthersSpareReports(s: State, step: Step, s': State)
    requires Next(s, step) == Some(s') && !step.Money? && !step.Miss? && !step.Explain?
    ensures s'.creations == s.creations && s'.lookups == s.lookups && s'.reports == s.reports
  {
    if step.Relay? {
      RelaySparesReports(s, step.relay, s');
    }
  }

  lemma StepKeepsReports(s: State, step: Step, s': State)
    requires Inv(s) && ReportsInv(s) && Next(s, step) == Some(s')
    ensures ReportsInv(s')
  {
    StepKeepsRows(s, step, s');
    match step
    case Money(p, m) => MoneyKeepsReports(s, p, m, s');
    case Miss(p, call) =>
    case Explain(p) => ExplainIsJustified(s, p, s');
    case _ =>
      OthersSpareReports(s, step, s');
      GrowthKeepsReports(s, s');
  }

  lemma {:induction false} ReachableReports(steps: seq<Step>, s: State)
    requires Reaches(steps, s)
    ensures ReportsInv(s)
    decreases |steps|
  {
    if steps != [] {
      var init, before, step := LastMove(steps, s);
      ReachableReports(init, before);
      ReachableInv(init, before);
      StepKeepsReports(before, step, s);
    }
  }

  /** Under any interference: a "not found" from Debit, Flag or Unflag was true of the update it
      explains. One from Credit or AddBalance either was true too, or is the fallback for a wallet
      that the lookup found present and enabled. */
  lemma NotFoundIsTrueOf(steps: seq<Step>, s: State, r: Report)
    requires Reaches(steps, s) && r in s.reports
    ensures Misses(r.seen, r.call) && r.error == Explanation(r.found, r.call)
    ensures r.error == TransactionNotFound ==> (r.call.FlagCall? || r.call.UnflagCall?) && r.call.txn !in r.seen.txns
    ensures r.error == WalletNotFound ==> !r.call.FlagCall? && !r.call.UnflagCall?
    ensures r.error == WalletNotFound && r.call.DebitCall? ==> r.call.user !in r.seen.wallets
    ensures r.error == WalletNotFound ==> r.call.user !in r.seen.wallets || Enabled(r.found.wallets, r.call.user)
    ensures r.error == WalletNotFound && Enabled(r.found.wallets, r.call.user) ==> r.call.CreditCall? || r.call.TopUpCall?
  {
    ReachableReports(steps, s);
  }

  /** Without interference the lookup sees what the update saw, and the errors are exactly the
      sequential ones: missing, then disabled, then insufficient, and no fallback. */
  lemma ExplanationIsExact(db: Db, call: Call)
    requires Misses(db, call)
    ensures call.DebitCall? ==> Debit(db.wallets, call.user, call.amount) == Err(Explanation(db, call))
    ensures call.CreditCall? || call.TopUpCall? ==>
              forall a :: Credit(db.wallets, call.user, a) == Err(Explanation(db, call))
    ensures call.TopUpCall? ==> forall a :: Apply(db, TopUp(call.user, a)) == Err(Explanation(db, call))
    ensures call.FlagCall? ==> Apply(db, Flag(call.txn)) == Err(Explanation(db, call))
    ensures call.UnflagCall? ==> Apply(db, Unflag(call.txn)) == Err(Explanation(db, call))
  {
  }

  lemma OneMore(steps: seq<Step>, s: State, step: Step, s': State)
    requires Reaches(steps, s) && Next(s, step) == Some(s')
    ensures Reaches(steps + [step], s')
  {
  }

  /** The fallback can be wrong: a top-up that finds its wallet disabled reports "not found" if
      the wallet is enabled again before the lookup. */
  lemma FallbackCanBeWrong() returns (steps: seq<Step>, s: State)
    ensures Reaches(steps, s) && |s.reports| == 1
    ensures s.reports[0].error == WalletNotFound && s.reports[0].call == TopUpCall(1)
    ensures 1 in s.reports[0].seen.wallets && 1 in s.db.wallets
  {
    var a := Single(CreateWallet(1));
    var b := Single(SetEnabled(1, false));
    var c := Miss(5, TopUpCall(1));
    var d := Single(SetEnabled(1, true));
    var e := Explain(5);
    var s1 := Next(INIT, a).value;
    var s2 := Next(s1, b).value;
    var s3 := Next(s2, c).value;
    var s4 := Next(s3, d).value;
    s := Next(s4, e).value;
    OneMore([], INIT, a, s1);
    OneMore([] + [a], s1, b, s2);
    OneMore([] + [a] + [b], s2, c, s3);
    OneMore([] + [a] + [b] + [c], s3, d, s4);
    OneMore([] + [a] + [b] + [c] + [d], s4, e, s);
    steps := [] + [a] + [b] + [c] + [d] + [e];
  }
}
