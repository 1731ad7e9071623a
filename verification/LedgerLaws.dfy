/** What every sequential run of the ledger guarantees. */
module LedgerLaws {
  import opened Wrappers
  import opened Numeric
  import opened Ledger
  import opened MapSum

  // --- the effect of moving money ---

  /** Every balance fits its column and is not negative. */
  ghost predicate InRange(ws: Wallets) {
    forall u :: u in ws ==> 0 <= ws[u].balance < CENTS_LIMIT
  }

  lemma DebitEffect(ws: Wallets, u: UserId, a: Decimal)
    requires InRange(ws) && a.mantissa > 0
    ensures Debit(ws, u, a).Ok? <==> Debitable(ws, u, a)
    ensures Debitable(ws, u, a) ==>
              && 0 <= DebitCents(a) <= ws[u].balance
              && Debit(ws, u, a) == Ok(ws[u := ws[u].(balance := ws[u].balance - DebitCents(a))])
  {
    if Debitable(ws, u, a) {
      MinusExact(ws[u].balance, a);
    }
  }

  lemma CreditEffect(ws: Wallets, u: UserId, a: Decimal)
    requires InRange(ws) && a.mantissa > 0
    ensures Credit(ws, u, a).Ok? <==> Enabled(ws, u) && ws[u].balance + CreditCents(a) < CENTS_LIMIT
    ensures Credit(ws, u, a).Ok? ==>
              Credit(ws, u, a) == Ok(ws[u := ws[u].(balance := ws[u].balance + CreditCents(a))])
    ensures CreditCents(a) >= 0
  {
    PlusExact(0, a);
    if u in ws {
      PlusExact(ws[u].balance, a);
    }
  }

  /** What one transfer adds to the balance of u; sender and receiver may coincide. */
  function Moved(sender: UserId, receiver: UserId, a: Decimal, u: UserId): int {
    (if u == receiver then CreditCents(a) else 0) - (if u == sender then DebitCents(a) else 0)
  }

  /** Adding n cents to the balance of u. */
  function Shift(ws: Wallets, u: UserId, n: int): Wallets
    requires u in ws
  {
    ws[u := ws[u].(balance := ws[u].balance + n)]
  }

  lemma MoveMoneyShape(ws: Wallets, t: NewTxn, ws': Wallets)
    requires InRange(ws) && t.amount.mantissa > 0 && MoveMoney(ws, t) == Ok(ws')
    ensures Debitable(ws, t.sender, t.amount) && Enabled(ws, t.receiver)
    ensures ws' == Shift(Shift(ws, t.sender, -DebitCents(t.amount)), t.receiver, CreditCents(t.amount))
    ensures InRange(ws')
  {
    DebitEffect(ws, t.sender, t.amount);
    CreditEffect(Debit(ws, t.sender, t.amount).value, t.receiver, t.amount);
  }

  lemma ShiftTotal(ws: Wallets, u: UserId, n: int)
    requires u in ws
    ensures Total(Shift(ws, u, n)) == Total(ws) + n
  {
    SumPut(ws, BalanceOf, u, Shift(ws, u, n)[u]);
  }

  lemma MoveMoneyEffect(ws: Wallets, t: NewTxn, ws': Wallets)
    requires InRange(ws) && t.amount.mantissa > 0 && MoveMoney(ws, t) == Ok(ws')
    ensures Debitable(ws, t.sender, t.amount) && Enabled(ws, t.receiver)
    ensures InRange(ws') && ws'.Keys == ws.Keys
    ensures forall u :: u in ws ==>
              && ws'[u].enabled == ws[u].enabled
              && ws'[u].balance == ws[u].balance + Moved(t.sender, t.receiver, t.amount, u)
    ensures Total(ws') == Total(ws) + if HalfCent(t.amount) then 1 else 0
  {
    MoveMoneyShape(ws, t, ws');
    var out, back := DebitCents(t.amount), CreditCents(t.amount);
    ShiftTotal(ws, t.sender, -out);
    ShiftTotal(Shift(ws, t.sender, -out), t.receiver, back);
    DebitCreditGap(t.amount);
  }

  function BalanceOf(w: Wallet): int {
    w.balance
  }

  ghost function Total(ws: Wallets): int {
    Sum(ws, BalanceOf)
  }

  /** The drift law. A committed transfer leaves the sum of all balances as it was
      exactly when the amount does not end in half a cent; otherwise it adds one cent. */
  lemma TransferDrift(db: Db, o: Order, db': Db)
    requires InRange(db.wallets) && FromService(o) && Transfer(db, o) == Ok(db')
    ensures Total(db'.wallets) == Total(db.wallets) <==> !HalfCent(o.txn.amount)
    ensures HalfCent(o.txn.amount) ==> Total(db'.wallets) == Total(db.wallets) + 1
    ensures o.txn.amount.scale <= 2 ==> Total(db'.wallets) == Total(db.wallets)
  {
    MoveMoneyEffect(db.wallets, o.txn, db'.wallets);
    if o.txn.amount.scale <= 2 {
      TwoDigitsAreTwoDecimal(o.txn.amount);
      DebitCreditGap(o.txn.amount);
    }
  }

  /** Half a cent sent to oneself makes a cent out of nothing. */
  lemma HalfCentMintsACent()
    ensures var ws: Wallets := map[7 := Wallet(5, true)];
            var o := Compose(1, 7, 7, Decimal(5, 3), "", 2, 0);
            && FromService(o)
            && Transfer(Db(ws, map[], map[]), o).Ok?
            && Transfer(Db(ws, map[], map[]), o).value.wallets == map[7 := Wallet(6, true)]
  {
    var a := Decimal(5, 3);
    assert Pow10(3) == 1000 by { assert Pow10(1) == 10 && Pow10(2) == 100; }
    assert DebitCents(a) == 0 && CreditCents(a) == 1;
    var ws: Wallets := map[7 := Wallet(5, true)];
    DebitEffect(ws, 7, a);
    CreditEffect(ws, 7, a);
    StoredExact(a);
  }

  /** The amount is at least half a cent and fits its column, the currency is at most three letters,
      both ids are new, and the receiver's balance does not overflow. */
  predicate Storable(db: Db, o: Order)
    requires o.txn.receiver in db.wallets
  {
    var a := o.txn.amount;
    && 0 < CreditCents(a) < CENTS_LIMIT && |o.txn.currency| <= 3
    && o.txn.id !in db.txns && o.eventId !in db.outbox
    && db.wallets[o.txn.receiver].balance + Moved(o.txn.sender, o.txn.receiver, a, o.txn.receiver) < CENTS_LIMIT
  }

  /** The verdict on a transfer, for any balances in range. The sender's troubles come before the
      receiver's, and missing before disabled before insufficient; what cannot be stored, because the
      balance or the row overflows, the amount rounds to nothing, the currency is too long or an id is
      taken, comes last. */
  lemma TransferVerdict(db: Db, o: Order)
    requires InRange(db.wallets) && FromService(o)
    ensures var t, ws, r := o.txn, db.wallets, Transfer(db, o);
            && (t.sender !in ws ==> r == Err(WalletNotFound))
            && (t.sender in ws && !ws[t.sender].enabled ==> r == Err(WalletDisabled))
            && (Enabled(ws, t.sender) && !Covers(ws[t.sender].balance, t.amount) ==> r == Err(InsufficientBalance))
            && (Debitable(ws, t.sender, t.amount) && t.receiver !in ws ==> r == Err(WalletNotFound))
            && (Debitable(ws, t.sender, t.amount) && t.receiver in ws && !ws[t.receiver].enabled ==>
                  r == Err(WalletDisabled))
            && (Debitable(ws, t.sender, t.amount) && Enabled(ws, t.receiver) && !Storable(db, o) ==>
                  r == Err(DatabaseError))
  {
    DebitEffect(db.wallets, o.txn.sender, o.txn.amount);
    if Debitable(db.wallets, o.txn.sender, o.txn.amount) {
      CreditEffect(Debit(db.wallets, o.txn.sender, o.txn.amount).value, o.txn.receiver, o.txn.amount);
      StoredExact(o.txn.amount);
    }
  }

  /** A transfer goes through exactly when both wallets are enabled, the sender covers the
      unrounded amount, and everything can be stored. */
  lemma TransferSucceedsIff(db: Db, o: Order)
    requires InRange(db.wallets) && FromService(o)
    ensures Transfer(db, o).Ok? <==>
            Debitable(db.wallets, o.txn.sender, o.txn.amount) && Enabled(db.wallets, o.txn.receiver) && Storable(db, o)
  {
    var t := o.txn;
    DebitEffect(db.wallets, t.sender, t.amount);
    if Debitable(db.wallets, t.sender, t.amount) {
      CreditEffect(Debit(db.wallets, t.sender, t.amount).value, t.receiver, t.amount);
      StoredExact(t.amount);
    }
  }

  // --- whole runs ---

  lemma ApplyKeepsRange(db: Db, op: Op, db': Db)
    requires InRange(db.wallets) && Checked(op) && Apply(db, op) == Ok(db')
    ensures InRange(db'.wallets)
  {
  }

  /** No run, whatever the scale of its amounts, takes a balance below zero or past its column. */
  lemma {:induction false} BalancesStayInRange(ops: seq<Op>, db: Db)
    requires Run(ops, db)
    ensures InRange(db.wallets)
    decreases |ops|
  {
    if ops != [] {
      var init, before, op := LastStep(ops, db);
      BalancesStayInRange(init, before);
      ApplyKeepsRange(before, op, db);
    }
  }

  /** What the top-ups of a run added to u. */
  function ToppedUp(ops: seq<Op>, u: UserId): int {
    if ops == [] then 0
    else
      var op := ops[|ops| - 1];
      ToppedUp(ops[..|ops| - 1], u) + if op.TopUp? && op.user == u then CreditCents(op.amount) else 0
  }

  function AllToppedUp(ops: seq<Op>): int {
    if ops == [] then 0
    else
      var op := ops[|ops| - 1];
      AllToppedUp(ops[..|ops| - 1]) + if op.TopUp? then CreditCents(op.amount) else 0
  }

  /** What a row of `transactions` says u received minus what it says u sent. */
  function NetOf(u: UserId): Txn -> int {
    (t: Txn) => (if t.receiver == u then t.amount else 0) - (if t.sender == u then t.amount else 0)
  }

  /** One cent for every event whose sender u was debited a cent less than the row says. */
  function HalfCentKeptBy(u: UserId): Event -> int {
    (e: Event) => if e.payload.sender == u && HalfCent(e.payload.amount) then 1 else 0
  }

  function HalfCentEvent(e: Event): int {
    if HalfCent(e.payload.amount) then 1 else 0
  }

  function BalanceAt(db: Db, u: UserId): int {
    if u in db.wallets then db.wallets[u].balance else 0
  }

  /** What one committed operation adds to the balance of u. */
  function Delta(op: Op, u: UserId): int {
    match op
    case TopUp(v, a) => if u == v then CreditCents(a) else 0
    case Create(o) => Moved(o.txn.sender, o.txn.receiver, o.txn.amount, u)
    case _ => 0
  }

  lemma ApplyDelta(db: Db, op: Op, db': Db, u: UserId)
    requires InRange(db.wallets) && Checked(op) && Apply(db, op) == Ok(db')
    ensures BalanceAt(db', u) == BalanceAt(db, u) + Delta(op, u)
  {
    match op
    case TopUp(v, a) => CreditEffect(db.wallets, v, a);
    case Create(o) => MoveMoneyEffect(db.wallets, o.txn, db'.wallets);
    case _ =>
  }

  /** The two inserts of a transfer. */
  lemma TransferRows(db: Db, o: Order, db': Db)
    requires FromService(o) && Transfer(db, o) == Ok(db')
    ensures o.txn.id !in db.txns && o.eventId !in db.outbox
    ensures db'.txns == db.txns[o.txn.id :=
              Txn(o.txn.sender, o.txn.receiver, CreditCents(o.txn.amount), o.txn.currency, Completed, o.startedAt)]
    ensures db'.outbox == db.outbox[o.eventId := Event(o.txn.id, o.event.payload, false, o.startedAt)]
    ensures 0 < CreditCents(o.txn.amount) < CENTS_LIMIT && Stored(o.txn.amount) == Some(CreditCents(o.txn.amount))
  {
    StoredExact(o.txn.amount);
  }

  /** How one committed operation changes the two table sums of the ledger equation. */
  lemma ApplySums(db: Db, op: Op, db': Db, u: UserId)
    requires Checked(op) && Apply(db, op) == Ok(db')
    ensures Sum(db'.txns, NetOf(u)) == Sum(db.txns, NetOf(u)) +
              if op.Create? then NetOf(u)(db'.txns[op.order.txn.id]) else 0
    ensures Sum(db'.outbox, HalfCentKeptBy(u)) == Sum(db.outbox, HalfCentKeptBy(u)) +
              if op.Create? then HalfCentKeptBy(u)(db'.outbox[op.order.eventId]) else 0
  {
    match op
    case Create(o) =>
      TransferRows(db, o, db');
      SumPut(db.txns, NetOf(u), o.txn.id, db'.txns[o.txn.id]);
      SumPut(db.outbox, HalfCentKeptBy(u), o.eventId, db'.outbox[o.eventId]);
    case Flag(id) => SumPut(db.txns, NetOf(u), id, db'.txns[id]);
    case Unflag(id) => SumPut(db.txns, NetOf(u), id, db'.txns[id]);
    case MarkPublished(e) =>
      if e in db.outbox { SumPut(db.outbox, HalfCentKeptBy(u), e, db'.outbox[e]); }
    case _ =>
  }

  /** The ledger equation, for amounts of any scale: a balance is the wallet's top-ups, plus
      what the transactions table says it received and minus what it says it sent, plus one
      cent for each half-cent amount it sent. */
  lemma {:induction false} LedgerEquation(ops: seq<Op>, db: Db, u: UserId)
    requires Run(ops, db)
    ensures BalanceAt(db, u) == ToppedUp(ops, u) + Sum(db.txns, NetOf(u)) + Sum(db.outbox, HalfCentKeptBy(u))
    decreases |ops|
  {
    if ops != [] {
      var init, before, op := LastStep(ops, db);
      LedgerEquation(init, before, u);
      BalancesStayInRange(init, before);
      ApplyDelta(before, op, db, u);
      ApplySums(before, op, db, u);
      if op.Create? {
        TransferRows(before, op.order, db);
        DebitCreditGap(op.order.txn.amount);
      }
    }
  }

  /** How one committed operation changes the total and the count of half-cent events. */
  lemma ApplyTotal(db: Db, op: Op, db': Db)
    requires InRange(db.wallets) && Checked(op) && Apply(db, op) == Ok(db')
    ensures Total(db'.wallets) - Sum(db'.outbox, HalfCentEvent) ==
            Total(db.wallets) - Sum(db.outbox, HalfCentEvent) + if op.TopUp? then CreditCents(op.amount) else 0
  {
    match op
    case CreateWallet(v) => SumPut(db.wallets, BalanceOf, v, db'.wallets[v]);
    case SetEnabled(v, _) => SumPut(db.wallets, BalanceOf, v, db'.wallets[v]);
    case TopUp(v, a) =>
      CreditEffect(db.wallets, v, a);
      ShiftTotal(db.wallets, v, CreditCents(a));
    case Create(o) =>
      MoveMoneyEffect(db.wallets, o.txn, db'.wallets);
      TransferRows(db, o, db');
      SumPut(db.outbox, HalfCentEvent, o.eventId, db'.outbox[o.eventId]);
    case MarkPublished(e) =>
      if e in db.outbox { SumPut(db.outbox, HalfCentEvent, e, db'.outbox[e]); }
    case _ =>
  }

  /** All the money there is: what top-ups brought in, plus one cent per committed half-cent amount. */
  lemma {:induction false} MoneySupply(ops: seq<Op>, db: Db)
    requires Run(ops, db)
    ensures Total(db.wallets) == AllToppedUp(ops) + Sum(db.outbox, HalfCentEvent)
    decreases |ops|
  {
    if ops != [] {
      var init, before, op := LastStep(ops, db);
      MoneySupply(init, before);
      BalancesStayInRange(init, before);
      ApplyTotal(before, op, db);
    }
  }

  /** Every amount in the run is a whole number of cents. */
  ghost predicate WholeCents(ops: seq<Op>) {
    forall op :: op in ops && op.Create? ==> TwoDecimal(op.order.txn.amount)
  }

  lemma {:induction false} WholeCentEvents(ops: seq<Op>, db: Db)
    requires Run(ops, db) && WholeCents(ops)
    ensures forall e :: e in db.outbox ==> !HalfCent(db.outbox[e].payload.amount)
    decreases |ops|
  {
    if ops != [] {
      var init, before, op := LastStep(ops, db);
      assert WholeCents(init);
      WholeCentEvents(init, before);
      if op.Create? {
        DebitCreditGap(op.order.txn.amount);
      }
    }
  }

  /** With amounts of at most two decimals the books balance to the cent, wallet by wallet and in total. */
  lemma BooksBalance(ops: seq<Op>, db: Db, u: UserId)
    requires Run(ops, db) && WholeCents(ops)
    ensures BalanceAt(db, u) == ToppedUp(ops, u) + Sum(db.txns, NetOf(u))
    ensures Total(db.wallets) == AllToppedUp(ops)
  {
    WholeCentEvents(ops, db);
    LedgerEquation(ops, db, u);
    MoneySupply(ops, db);
    SumZero(db.outbox, HalfCentKeptBy(u));
    SumZero(db.outbox, HalfCentEvent);
  }

  // --- freezing ---

  /** A frozen wallet keeps its balance, and every transfer has both its wallets enabled. */
  lemma FrozenWalletsKeepTheirBalance(db: Db, op: Op, db': Db, u: UserId)
    requires InRange(db.wallets) && Checked(op) && Apply(db, op) == Ok(db')
    ensures u in db.wallets && !db.wallets[u].enabled ==>
              u in db'.wallets && db'.wallets[u].balance == db.wallets[u].balance
    ensures op.Create? ==> Enabled(db.wallets, op.order.txn.sender) && Enabled(db.wallets, op.order.txn.receiver)
  {
  }

  /** Enabling and disabling touch nothing else, and a disabled wallet refuses every use. */
  lemma DisableTakesEffect(db: Db, u: UserId, enabled: bool, db': Db)
    requires InRange(db.wallets) && Apply(db, SetEnabled(u, enabled)) == Ok(db')
    ensures Enabled(db'.wallets, u) <==> enabled
    ensures BalanceAt(db', u) == BalanceAt(db, u) && db'.txns == db.txns && db'.outbox == db.outbox
    ensures forall v :: v in db.wallets && v != u ==> v in db'.wallets && db'.wallets[v] == db.wallets[v]
    ensures !enabled ==> forall a :: Apply(db', TopUp(u, a)) == Err(WalletDisabled)
    ensures !enabled ==> forall o: Order :: o.txn.sender == u ==> Apply(db', Create(o)) == Err(WalletDisabled)
    ensures !enabled ==> forall o: Order :: o.txn.receiver == u ==> Apply(db', Create(o)).Err?
  {
  }

  /** A new wallet is empty and ready for use. */
  lemma NewWalletTakesTopUps(db: Db, u: UserId, db': Db, a: Decimal)
    requires InRange(db.wallets) && Apply(db, CreateWallet(u)) == Ok(db')
    requires a.mantissa > 0 && CreditCents(a) < CENTS_LIMIT
    ensures u !in db.wallets && BalanceAt(db', u) == 0
    ensures Apply(db', TopUp(u, a)).Ok? && BalanceAt(Apply(db', TopUp(u, a)).value, u) == CreditCents(a)
  {
    CreditEffect(db'.wallets, u, a);
  }

  /** Freezing lasts: from any point of a run at which a wallet is disabled, and until it is enabled
      again, its balance stands still and it takes part in no transfer and no top-up. */
  lemma {:induction false} FrozenUntilEnabled(ops: seq<Op>, db: Db, more: seq<Op>, db': Db, u: UserId)
    requires Run(ops, db) && Run(ops + more, db')
    requires u in db.wallets && !db.wallets[u].enabled && SetEnabled(u, true) !in more
    ensures u in db'.wallets && db'.wallets[u] == db.wallets[u]
    ensures forall op :: op in more ==> !Uses(op, u)
    decreases |more|
  {
    if more == [] {
      assert ops + more == ops;
    } else {
      var n := |more| - 1;
      var init, before, op := LastStep(ops + more, db');
      assert init == ops + more[..n] && op == more[n];
      FrozenUntilEnabled(ops, db, more[..n], before, u);
      BalancesStayInRange(init, before);
      FrozenStep(before, op, db', u);
      assert more == more[..n] + [op];
    }
  }

  /** The operation moves money of u. */
  predicate Uses(op: Op, u: UserId) {
    match op
    case TopUp(v, _) => v == u
    case Create(o) => o.txn.sender == u || o.txn.receiver == u
    case _ => false
  }

  lemma FrozenStep(db: Db, op: Op, db': Db, u: UserId)
    requires InRange(db.wallets) && Checked(op) && Apply(db, op) == Ok(db') && op != SetEnabled(u, true)
    requires u in db.wallets && !db.wallets[u].enabled
    ensures u in db'.wallets && db'.wallets[u] == db.wallets[u] && !Uses(op, u)
  {
  }

  // --- which wallets there are, and which are enabled ---

  /** The wallets are exactly those a run created, each of them once. */
  lemma {:induction false} WalletsAreCreated(ops: seq<Op>, db: Db, u: UserId)
    requires Run(ops, db)
    ensures u in db.wallets <==> CreateWallet(u) in ops
    ensures multiset(ops)[CreateWallet(u)] == if u in db.wallets then 1 else 0
    decreases |ops|
  {
    if ops != [] {
      var init, before, op := LastStep(ops, db);
      WalletsAreCreated(init, before, u);
      ApplyGrows(before, op, db);
      assert multiset(ops) == multiset(init) + multiset{op};
    }
  }

  /** What the last toggle of u said; a wallet is enabled from the start. */
  function LastSwitch(ops: seq<Op>, u: UserId): bool {
    if ops == [] then true
    else
      var op := ops[|ops| - 1];
      if op.SetEnabled? && op.user == u then op.enabled else LastSwitch(ops[..|ops| - 1], u)
  }

  /** A wallet is enabled exactly if its last toggle enabled it, or it was never toggled. */
  lemma {:induction false} SwitchIsLastToggle(ops: seq<Op>, db: Db, u: UserId)
    requires Run(ops, db)
    ensures u in db.wallets ==> db.wallets[u].enabled == LastSwitch(ops, u)
    ensures u !in db.wallets ==> LastSwitch(ops, u)
    decreases |ops|
  {
    if ops != [] {
      var init, before, op := LastStep(ops, db);
      SwitchIsLastToggle(init, before, u);
      BalancesStayInRange(init, before);
      ApplySwitches(before, op, db, u);
    }
  }

  lemma ApplySwitches(db: Db, op: Op, db': Db, u: UserId)
    requires InRange(db.wallets) && Checked(op) && Apply(db, op) == Ok(db')
    ensures op.SetEnabled? && op.user == u ==> u in db'.wallets && db'.wallets[u].enabled == op.enabled
    ensures !(op.SetEnabled? && op.user == u) && u in db.wallets ==>
              u in db'.wallets && db'.wallets[u].enabled == db.wallets[u].enabled
    ensures u in db'.wallets && u !in db.wallets ==> db'.wallets[u].enabled
  {
    match op
    case Create(o) => MoveMoneyEffect(db.wallets, o.txn, db'.wallets);
    case _ =>
  }

  /** A wallet is created if and only if it is not there. */
  lemma CreateWalletVerdict(db: Db, u: UserId)
    ensures Apply(db, CreateWallet(u)).Ok? <==> u !in db.wallets
    ensures u in db.wallets ==> Apply(db, CreateWallet(u)) == Err(WalletAlreadyExists)
  {
  }

  /** A wallet is switched if and only if it is there, and then nothing else changes. */
  lemma SetEnabledVerdict(db: Db, u: UserId, enabled: bool)
    ensures Apply(db, SetEnabled(u, enabled)).Ok? <==> u in db.wallets
    ensures u !in db.wallets ==> Apply(db, SetEnabled(u, enabled)) == Err(WalletNotFound)
    ensures u in db.wallets ==>
              var db' := Apply(db, SetEnabled(u, enabled)).value;
              && db'.txns == db.txns && db'.outbox == db.outbox && db'.wallets.Keys == db.wallets.Keys
              && db'.wallets[u] == Wallet(db.wallets[u].balance, enabled)
              && forall v :: v in db.wallets && v != u ==> db'.wallets[v] == db.wallets[v]
  {
  }

  /** A top-up goes through if and only if the wallet is enabled and the balance stays below 10^16;
      missing is reported before disabled before overflow. */
  lemma TopUpVerdict(db: Db, u: UserId, a: Decimal)
    requires InRange(db.wallets) && a.mantissa > 0
    ensures var r := Apply(db, TopUp(u, a));
            if u !in db.wallets then r == Err(WalletNotFound)
            else if !db.wallets[u].enabled then r == Err(WalletDisabled)
            else if db.wallets[u].balance + CreditCents(a) >= 1_000_000_000_000_000_000 then r == Err(DatabaseError)
            else r.Ok? && r.value.txns == db.txns && r.value.outbox == db.outbox
                 && r.value.wallets == db.wallets[u := Wallet(db.wallets[u].balance + CreditCents(a), true)]
  {
    CreditEffect(db.wallets, u, a);
  }

  /** A transaction is flagged or unflagged if and only if it has the status to move from; a missing one
      is reported as missing. */
  lemma FlagVerdict(db: Db, id: TxnId)
    ensures Apply(db, Flag(id)).Ok? <==> id in db.txns && db.txns[id].status == Completed
    ensures Apply(db, Unflag(id)).Ok? <==> id in db.txns && db.txns[id].status == Flagged
    ensures id !in db.txns ==> Apply(db, Flag(id)) == Apply(db, Unflag(id)) == Err(TransactionNotFound)
    ensures id in db.txns && db.txns[id].status != Completed ==> Apply(db, Flag(id)) == Err(TransactionNotFlaggable)
    ensures id in db.txns && db.txns[id].status != Flagged ==> Apply(db, Unflag(id)) == Err(TransactionNotFlagged)
  {
  }

  // --- rows and events ---

  /** Nothing is ever deleted; a transaction row only changes its status and an event
      only gets marked published. */
  ghost predicate Grows(db: Db, db': Db) {
    && db.wallets.Keys <= db'.wallets.Keys
    && (forall id :: id in db.txns ==> id in db'.txns && db'.txns[id] == db.txns[id].(status := db'.txns[id].status))
    && (forall e :: e in db.outbox ==> e in db'.outbox && SameEvent(db.outbox[e], db'.outbox[e]))
  }

  predicate SameEvent(e: Event, e': Event) {
    e' == e || e' == e.(published := true)
  }

  lemma ApplyGrows(db: Db, op: Op, db': Db)
    requires Apply(db, op) == Ok(db')
    ensures Grows(db, db')
    ensures !op.Create? ==> db'.txns.Keys == db.txns.Keys && db'.outbox.Keys == db.outbox.Keys
    ensures db'.wallets.Keys == db.wallets.Keys + if op.CreateWallet? then {op.user} else {}
    ensures op.CreateWallet? ==> op.user !in db.wallets
  {
  }

  /** The event is about this row: same parties and currency, same time, and an amount that rounds to the row's. */
  predicate Describes(e: Event, id: TxnId, t: Txn) {
    && e.aggregateId == id == e.payload.txnId
    && e.payload.sender == t.sender && e.payload.receiver == t.receiver
    && e.payload.currency == t.currency
    && e.payload.amount.mantissa > 0 && Stored(e.payload.amount) == Some(t.amount)
    && e.createdAt == t.createdAt
  }

  /** Rows and events correspond one to one. */
  ghost predicate Paired(db: Db) {
    && (forall e :: e in db.outbox ==> db.outbox[e].aggregateId in db.txns)
    && (forall e :: e in db.outbox ==> Describes(db.outbox[e], db.outbox[e].aggregateId, db.txns[db.outbox[e].aggregateId]))
    && (forall id :: id in db.txns ==> exists e :: e in db.outbox && db.outbox[e].aggregateId == id)
    && (forall e, f :: e in db.outbox && f in db.outbox && db.outbox[e].aggregateId == db.outbox[f].aggregateId ==> e == f)
  }

  lemma {:induction false} RowsAndEventsPair(ops: seq<Op>, db: Db)
    requires Run(ops, db)
    ensures Paired(db)
    decreases |ops|
  {
    if ops != [] {
      var init, before, op := LastStep(ops, db);
      RowsAndEventsPair(init, before);
      ApplyKeepsPairs(before, op, db);
    }
  }

  lemma ApplyKeepsPairs(db: Db, op: Op, db': Db)
    requires Paired(db) && Checked(op) && Apply(db, op) == Ok(db')
    ensures Paired(db')
  {
    if op.Create? {
      TransferKeepsPairs(db, op.order, db');
    } else {
      ApplyGrows(db, op, db');
      GrowthKeepsPairs(db, db');
    }
  }

  lemma DescribesStill(e: Event, e': Event, id: TxnId, t: Txn, t': Txn)
    requires Describes(e, id, t) && SameEvent(e, e') && t' == t.(status := t'.status)
    ensures Describes(e', id, t')
  {
  }

  lemma GrowthKeepsPairs(db: Db, db': Db)
    requires Paired(db) && Grows(db, db') && db'.txns.Keys == db.txns.Keys && db'.outbox.Keys == db.outbox.Keys
    ensures Paired(db')
  {
    forall e | e in db'.outbox
      ensures db'.outbox[e].aggregateId == db.outbox[e].aggregateId
      ensures Describes(db'.outbox[e], db'.outbox[e].aggregateId, db'.txns[db'.outbox[e].aggregateId])
    {
      var id := db.outbox[e].aggregateId;
      DescribesStill(db.outbox[e], db'.outbox[e], id, db.txns[id], db'.txns[id]);
    }
    forall id | id in db'.txns ensures exists e :: e in db'.outbox && db'.outbox[e].aggregateId == id {
      var e :| e in db.outbox && db.outbox[e].aggregateId == id;
      assert e in db'.outbox;
    }
  }

  lemma TransferKeepsPairs(db: Db, o: Order, db': Db)
    requires Paired(db) && FromService(o) && Transfer(db, o) == Ok(db')
    ensures Paired(db')
  {
    TransferRows(db, o, db');
    assert Describes(db'.outbox[o.eventId], o.txn.id, db'.txns[o.txn.id]);
    forall id | id in db'.txns ensures exists e :: e in db'.outbox && db'.outbox[e].aggregateId == id {
      if id in db.txns {
        var e :| e in db.outbox && db.outbox[e].aggregateId == id;
        assert e in db'.outbox;
      } else {
        assert o.eventId in db'.outbox;
      }
    }
  }

  // --- flags ---

  /** The committed flag (true) and unflag (false) moves of one transaction, in order. */
  function Moves(ops: seq<Op>, id: TxnId): seq<bool> {
    if ops == [] then []
    else
      var op := ops[|ops| - 1];
      Moves(ops[..|ops| - 1], id) +
      if op == Flag(id) then [true] else if op == Unflag(id) then [false] else []
  }

  /** Where the flag machine of one transaction stands. */
  predicate FlagState(db: Db, id: TxnId, moves: seq<bool>) {
    && (forall i :: 0 <= i < |moves| ==> moves[i] == (i % 2 == 0))
    && (id !in db.txns ==> moves == [])
    && (id in db.txns ==> db.txns[id].status == if |moves| % 2 == 1 then Flagged else Completed)
  }

  lemma ApplyKeepsFlagState(db: Db, op: Op, db': Db, id: TxnId, moves: seq<bool>)
    requires Checked(op) && Apply(db, op) == Ok(db') && FlagState(db, id, moves)
    ensures op == Flag(id) ==> FlagState(db', id, moves + [true])
    ensures op == Unflag(id) ==> FlagState(db', id, moves + [false])
    ensures op != Flag(id) && op != Unflag(id) ==> FlagState(db', id, moves)
  {
  }

  /** Flags and unflags of a transaction alternate, a flag first, and its status says which came
      last: it is flagged after an odd number of moves and completed otherwise, never anything else. */
  lemma {:induction false} FlagHistory(ops: seq<Op>, db: Db, id: TxnId)
    requires Run(ops, db)
    ensures FlagState(db, id, Moves(ops, id))
    ensures multiset(ops)[Flag(id)] == multiset(ops)[Unflag(id)] + |Moves(ops, id)| % 2
    decreases |ops|
  {
    if ops != [] {
      var init, before, op := LastStep(ops, db);
      FlagHistory(init, before, id);
      ApplyKeepsFlagState(before, op, db, id, Moves(init, id));
      assert multiset(ops) == multiset(init) + multiset{op};
    }
  }

  /** Flags outnumber unflags by one exactly while the transaction is flagged. */
  lemma FlagCounts(ops: seq<Op>, db: Db, id: TxnId)
    requires Run(ops, db)
    ensures multiset(ops)[Flag(id)] ==
            multiset(ops)[Unflag(id)] + if id in db.txns && db.txns[id].status == Flagged then 1 else 0
    ensures id in db.txns ==> db.txns[id].status == Completed || db.txns[id].status == Flagged
  {
    FlagHistory(ops, db, id);
  }

  lemma {:induction false} MovesOfBoth(ops: seq<Op>, more: seq<Op>, id: TxnId)
    ensures Moves(ops + more, id) == Moves(ops, id) + Moves(more, id)
    decreases |more|
  {
    if more == [] {
      assert ops + more == ops;
    } else {
      var n := |more| - 1;
      MovesOfBoth(ops, more[..n], id);
      assert (ops + more)[..|ops + more| - 1] == ops + more[..n];
    }
  }

  /** The last of these moves was an unflag. */
  predicate EndsUnflagged(moves: seq<bool>) {
    moves != [] && !moves[|moves| - 1]
  }

  lemma MovesAfterFlag(ops: seq<Op>, more: seq<Op>, id: TxnId)
    ensures Moves(ops + [Flag(id)] + more, id) == Moves(ops, id) + [true] + Moves(more, id)
  {
    MovesOfBoth(ops + [Flag(id)], more, id);
    assert (ops + [Flag(id)])[..|ops|] == ops;
  }

  lemma EndIsEndOfRest(moves: seq<bool>, rest: seq<bool>)
    ensures EndsUnflagged(moves + [true] + rest) <==> EndsUnflagged(rest)
  {
  }

  /** A transaction that was ever flagged can be flagged exactly when its last move was an unflag. */
  lemma FlaggableIff(db: Db, id: TxnId, moves: seq<bool>)
    requires FlagState(db, id, moves) && moves != []
    ensures Apply(db, Flag(id)).Ok? <==> EndsUnflagged(moves)
    ensures Apply(db, Flag(id)).Err? ==> Apply(db, Flag(id)) == Err(TransactionNotFlaggable)
  {
  }

  /** After a flag, and whatever else was committed since, the transaction can be flagged again if and
      only if the moves made since then end with an unflag. */
  lemma FlagAgainIff(ops: seq<Op>, more: seq<Op>, db: Db, id: TxnId)
    requires Run(ops + [Flag(id)] + more, db)
    ensures Apply(db, Flag(id)).Ok? <==> EndsUnflagged(Moves(more, id))
    ensures !EndsUnflagged(Moves(more, id)) ==> Apply(db, Flag(id)) == Err(TransactionNotFlaggable)
  {
    FlagHistory(ops + [Flag(id)] + more, db, id);
    MovesAfterFlag(ops, more, id);
    EndIsEndOfRest(Moves(ops, id), Moves(more, id));
    FlaggableIff(db, id, Moves(ops, id) + [true] + Moves(more, id));
  }

  /** An unflag right after a flag restores the tables. */
  lemma UnflagUndoesFlag(db: Db, id: TxnId, db': Db)
    requires Apply(db, Flag(id)) == Ok(db')
    ensures Apply(db', Unflag(id)) == Ok(db)
  {
    assert db'.txns[id := db.txns[id]] == db.txns;
  }
}
