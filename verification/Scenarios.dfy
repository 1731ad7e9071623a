/** Short executions that show what can happen. */
module Scenarios {
  import opened Numeric
  import opened Ledger
  import opened LedgerLaws
  import opened Machine
  import opened MachineLaws
  import opened Serializability

  const ONE := Decimal(1, 0)
  const FUNDED: Wallets := map[1 := Wallet(100, true), 2 := Wallet(100, true)]

  /** Two empty wallets. */
  lemma Open() returns (steps: seq<Step>, s: State)
    ensures Reaches(steps, s) && s.creations == map[]
    ensures s.db == Db(map[1 := Wallet(0, true), 2 := Wallet(0, true)], map[], map[])
  {
    var a, b := Single(CreateWallet(1)), Single(CreateWallet(2));
    var s1 := Next(INIT, a).value;
    s := Next(s1, b).value;
    OneMore([], INIT, a, s1);
    OneMore([] + [a], s1, b, s);
    steps := [] + [a] + [b];
  }

  lemma TopUpGoes(steps: seq<Step>, s: State, u: UserId) returns (s': State)
    requires Reaches(steps, s) && s.creations == map[]
    requires u in s.db.wallets && s.db.wallets[u] == Wallet(0, true) && InRange(s.db.wallets)
    ensures Reaches(steps + [Single(TopUp(u, ONE))], s') && s'.creations == map[]
    ensures s'.db == s.db.(wallets := s.db.wallets[u := Wallet(100, true)])
  {
    assert CreditCents(ONE) == 100;
    CreditEffect(s.db.wallets, u, ONE);
    s' := Next(s, Single(TopUp(u, ONE))).value;
    OneMore(steps, s, Single(TopUp(u, ONE)), s');
  }

  /** Two wallets with one unit each. */
  lemma Fund() returns (steps: seq<Step>, s: State)
    ensures Reaches(steps, s) && s.db == Db(FUNDED, map[], map[]) && s.creations == map[]
  {
    var steps0, s0 := Open();
    var s1 := TopUpGoes(steps0, s0, 1);
    s := TopUpGoes(steps0 + [Single(TopUp(1, ONE))], s1, 2);
    steps := steps0 + [Single(TopUp(1, ONE))] + [Single(TopUp(2, ONE))];
  }

  lemma DebitGoes(s: State, p: Pid)
    requires Inv(s) && p in s.creations && s.creations[p].pc == Started && InRange(s.db.wallets)
    requires LockFree(s, s.creations[p].order.txn.sender, p)
    requires Debitable(s.db.wallets, s.creations[p].order.txn.sender, s.creations[p].order.txn.amount)
    ensures MoneyNext(s, p, DebitRow).Some?
    ensures var s' := MoneyNext(s, p, DebitRow).value;
            && s'.db == s.db && s'.creations.Keys == s.creations.Keys
            && s'.creations[p].pc == Debited && s'.creations[p].order == s.creations[p].order
            && s'.creations[p].writes.Keys == {s.creations[p].order.txn.sender}
            && forall q :: q in s.creations && q != p ==> s'.creations[q] == s.creations[q]
  {
    var c, t := s.creations[p], s.creations[p].order.txn;
    assert CreationOk(s.db, c);
    assert View(s, c) == s.db.wallets;
    DebitEffect(s.db.wallets, t.sender, t.amount);
  }

  lemma BeginGoes(s: State, p: Pid, o: Order)
    requires p !in s.creations && FromService(o) && Fresh(s, o)
    ensures MoneyNext(s, p, Begin(o)).Some?
    ensures var s' := MoneyNext(s, p, Begin(o)).value;
            && s'.db == s.db && p in s'.creations
            && s'.creations == s.creations[p := s'.creations[p]]
            && s'.creations[p].pc == Started && s'.creations[p].order == o && s'.creations[p].writes == map[]
  {
  }

  lemma OneIsCovered()
    ensures InRange(FUNDED) && Debitable(FUNDED, 1, ONE) && Debitable(FUNDED, 2, ONE)
  {
  }

  /** Any creation that is about to debit, with its row free, can take that step. */
  lemma DebitAndRecord(steps: seq<Step>, s: State, p: Pid) returns (s': State)
    requires Reaches(steps, s) && p in s.creations && s.creations[p].pc == Started
    requires LockFree(s, s.creations[p].order.txn.sender, p)
    requires Debitable(s.db.wallets, s.creations[p].order.txn.sender, s.creations[p].order.txn.amount)
    ensures Reaches(steps + [Money(p, DebitRow)], s')
    ensures s'.db == s.db && s'.creations.Keys == s.creations.Keys
    ensures s'.creations[p].pc == Debited && s'.creations[p].order == s.creations[p].order
    ensures s'.creations[p].writes.Keys == {s.creations[p].order.txn.sender}
    ensures forall q :: q in s.creations && q != p ==> s'.creations[q] == s.creations[q]
  {
    ReachableInv(steps, s);
    BalanceBound(steps, s);
    DebitGoes(s, p);
    s' := MoneyNext(s, p, DebitRow).value;
    OneMore(steps, s, Money(p, DebitRow), s');
  }

  // --- an answer that was never true ---

  lemma ToggleGoes(steps: seq<Step>, s: State, u: UserId, enabled: bool) returns (s': State)
    requires Reaches(steps, s) && u in s.db.wallets && RowFree(s, u)
    ensures Reaches(steps + [Single(SetEnabled(u, enabled))], s')
    ensures s'.db == s.db.(wallets := s.db.wallets[u := s.db.wallets[u].(enabled := enabled)])
    ensures s'.creations == s.creations && s'.reports == s.reports
  {
    s' := Next(s, Single(SetEnabled(u, enabled))).value;
    OneMore(steps, s, Single(SetEnabled(u, enabled)), s');
  }

  /** A transfer from wallet 1 to wallet 2 that has debited. */
  lemma OneHasDebited() returns (steps: seq<Step>, s: State)
    ensures Reaches(steps, s) && s.db == Db(FUNDED, map[], map[]) && s.creations.Keys == {1}
    ensures s.creations[1].pc == Debited && s.creations[1].writes.Keys == {1}
    ensures s.creations[1].order == Compose(1, 1, 2, ONE, "", 1, 0)
  {
    var there := Compose(1, 1, 2, ONE, "", 1, 0);
    var steps0, s0 := Fund();
    BeginGoes(s0, 1, there);
    var s1 := MoneyNext(s0, 1, Begin(there)).value;
    OneMore(steps0, s0, Money(1, Begin(there)), s1);
    OneIsCovered();
    s := DebitAndRecord(steps0 + [Money(1, Begin(there))], s1, 1);
    steps := steps0 + [Money(1, Begin(there))] + [Money(1, DebitRow)];
  }

  /** The credit finds its wallet disabled. */
  lemma MissGoes(steps: seq<Step>, s: State) returns (s': State)
    requires Reaches(steps, s) && 1 in s.creations && s.creations[1].pc == Debited && s.creations[1].writes.Keys == {1}
    requires s.creations[1].order.txn.receiver == 2 && 2 in s.db.wallets && !s.db.wallets[2].enabled
    ensures Reaches(steps + [Money(1, CreditMiss)], s') && s'.db == s.db && 1 in s'.creations
    ensures s'.creations == s.creations[1 := s'.creations[1]] && s'.creations[1].pc == CreditMissed
    ensures s'.creations[1].order == s.creations[1].order && s'.creations[1].writes == s.creations[1].writes
    ensures 2 in s'.creations[1].seen.wallets
  {
    s' := MoneyNext(s, 1, CreditMiss).value;
    OneMore(steps, s, Money(1, CreditMiss), s');
  }

  /** The lookup finds it present and enabled, and answers with the fallback. */
  lemma ClassifyGoes(steps: seq<Step>, s: State) returns (s': State)
    requires Reaches(steps, s) && 1 in s.creations && s.creations[1].pc == CreditMissed && s.creations[1].writes.Keys == {1}
    requires s.creations[1].order.txn.receiver == 2 && Enabled(s.db.wallets, 2) && 2 in s.creations[1].seen.wallets
    ensures Reaches(steps + [Money(1, Classify)], s') && s'.db == s.db && |s'.reports| == |s.reports| + 1
    ensures var r := s'.reports[|s.reports|];
            && r.call == CreditCall(2) && r.error == WalletNotFound
            && 2 in r.seen.wallets && Enabled(r.found.wallets, 2)
  {
    s' := MoneyNext(s, 1, Classify).value;
    OneMore(steps, s, Money(1, Classify), s');
  }

  /** The fallback of the credit can be wrong: a transfer whose receiver is disabled when the credit
      looks, and enabled again when the lookup does, is told that the receiver's wallet, there all the
      time, was not found. */
  lemma CreditFallbackCanBeWrong() returns (steps: seq<Step>, s: State, r: Report)
    ensures Reaches(steps, s) && r in s.reports
    ensures r.call == CreditCall(2) && r.error == WalletNotFound
    ensures 2 in r.seen.wallets && Enabled(r.found.wallets, 2) && Enabled(s.db.wallets, 2)
  {
    var steps0, s0 := OneHasDebited();
    var s1 := ToggleGoes(steps0, s0, 2, false);
    var steps1 := steps0 + [Single(SetEnabled(2, false))];
    var s2 := MissGoes(steps1, s1);
    var steps2 := steps1 + [Money(1, CreditMiss)];
    var s3 := ToggleGoes(steps2, s2, 2, true);
    var steps3 := steps2 + [Single(SetEnabled(2, true))];
    s := ClassifyGoes(steps3, s3);
    steps, r := steps3 + [Money(1, Classify)], s.reports[|s3.reports|];
  }
}
