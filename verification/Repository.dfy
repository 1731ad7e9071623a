/** The repositories as they run when nothing else does: rows updated in place, branches on
    the number of rows affected, and a rollback on every early return. */
module Repository {
  import opened Wrappers
  import opened Numeric
  import opened Ledger

  /** The database: three tables, and the tables as they were when the open transaction began. */
  class Postgres {
    var wallets: Wallets
    var txns: map<TxnId, Txn>
    var outbox: Events
    var begun: Option<Db>

    constructor ()
      ensures Tables() == EMPTY && begun == None
    {
      wallets, txns, outbox, begun := map[], map[], map[], None;
    }

    function Tables(): Db
      reads this
    {
      Db(wallets, txns, outbox)
    }

    method Begin()
      modifies this
      ensures Tables() == old(Tables()) && begun == Some(old(Tables()))
    {
      begun := Some(Tables());
    }

    method Commit()
      modifies this
      ensures Tables() == old(Tables()) && begun == None
    {
      begun := None;
    }

    /** Does nothing after a commit. */
    method Rollback()
      modifies this
      ensures begun == None
      ensures Tables() == match old(begun) { case None => old(Tables()) case Some(db) => db }
    {
      if begun.Some? {
        wallets, txns, outbox := begun.value.wallets, begun.value.txns, begun.value.outbox;
        begun := None;
      }
    }

    /** Writing a balance: false is the overflow or CHECK error. */
    method SetBalance(u: UserId, balance: Option<int>) returns (ok: bool)
      requires u in wallets
      modifies this`wallets
      ensures ok <==> Store(old(wallets), u, balance).Ok?
      ensures wallets == if ok then Store(old(wallets), u, balance).value else old(wallets)
    {
      ok := balance.Some? && balance.value >= 0;
      if ok {
        wallets := wallets[u := wallets[u].(balance := balance.value)];
      }
    }
  }

  class WalletRepository {
    const db: Postgres

    constructor (db: Postgres)
      ensures this.db == db
    {
      this.db := db;
    }

    method Create(u: UserId) returns (r: Result<Wallet, Error>)
      modifies db`wallets
      ensures match Apply(old(db.Tables()), CreateWallet(u))
              case Ok(d) => db.Tables() == d && r == Ok(db.wallets[u])
              case Err(e) => db.Tables() == old(db.Tables()) && r == Err(e)
    {
      if u in db.wallets {
        return Err(WalletAlreadyExists);
      }
      db.wallets := db.wallets[u := Wallet(0, true)];
      return Ok(db.wallets[u]);
    }

    method GetByUserID(u: UserId) returns (r: Result<Wallet, Error>)
      ensures r == if u in db.wallets then Ok(db.wallets[u]) else Err(WalletNotFound)
    {
      r := if u in db.wallets then Ok(db.wallets[u]) else Err(WalletNotFound);
    }

    /** After an UPDATE that matched no row, the answer is the one error that every top-up, credit and
        debit of this wallet meets; only when a wallet turned up enabled meanwhile is it the fallback. */
    method ClassifyMissingOrDisabled(u: UserId) returns (e: Error)
      ensures !Enabled(db.wallets, u) ==> forall a :: Apply(db.Tables(), TopUp(u, a)) == Err(e)
      ensures !Enabled(db.wallets, u) ==>
                forall a :: Ledger.Credit(db.wallets, u, a) == Ledger.Debit(db.wallets, u, a) == Err(e)
      ensures Enabled(db.wallets, u) ==> e == WalletNotFound
    {
      if u !in db.wallets {
        return WalletNotFound;
      }
      if !db.wallets[u].enabled {
        return WalletDisabled;
      }
      return WalletNotFound;
    }

    method AddBalance(u: UserId, a: Decimal) returns (r: Result<Wallet, Error>)
      modifies db`wallets
      ensures match Apply(old(db.Tables()), TopUp(u, a))
              case Ok(d) => db.Tables() == d && r == Ok(db.wallets[u])
              case Err(e) => db.Tables() == old(db.Tables()) && r == Err(e)
    {
      if u in db.wallets && db.wallets[u].enabled {
        var ok := db.SetBalance(u, Plus(db.wallets[u].balance, a));
        if !ok {
          return Err(DatabaseError);
        }
        return Ok(db.wallets[u]);
      }
      var e := ClassifyMissingOrDisabled(u);
      return Err(e);
    }

    method SetEnabled(u: UserId, enabled: bool) returns (r: Result<Wallet, Error>)
      modifies db`wallets
      ensures match Apply(old(db.Tables()), Op.SetEnabled(u, enabled))
              case Ok(d) => db.Tables() == d && r == Ok(db.wallets[u])
              case Err(e) => db.Tables() == old(db.Tables()) && r == Err(e)
    {
      if u !in db.wallets {
        return Err(WalletNotFound);
      }
      db.wallets := db.wallets[u := db.wallets[u].(enabled := enabled)];
      return Ok(db.wallets[u]);
    }

    method Debit(u: UserId, a: Decimal) returns (r: Result<(), Error>)
      modifies db`wallets
      ensures match Ledger.Debit(old(db.wallets), u, a)
              case Ok(ws) => db.wallets == ws && r == Ok(())
              case Err(e) => db.wallets == old(db.wallets) && r == Err(e)
    {
      var affected := 0;
      if u in db.wallets && Covers(db.wallets[u].balance, a) && db.wallets[u].enabled {
        var ok := db.SetBalance(u, Minus(db.wallets[u].balance, a));
        if !ok {
          return Err(DatabaseError);
        }
        affected := 1;
      }
      if affected == 0 {
        if u !in db.wallets {
          return Err(WalletNotFound);
        }
        if !db.wallets[u].enabled {
          return Err(WalletDisabled);
        }
        return Err(InsufficientBalance);
      }
      return Ok(());
    }

    method Credit(u: UserId, a: Decimal) returns (r: Result<(), Error>)
      modifies db`wallets
      ensures match Ledger.Credit(old(db.wallets), u, a)
              case Ok(ws) => db.wallets == ws && r == Ok(())
              case Err(e) => db.wallets == old(db.wallets) && r == Err(e)
    {
      var affected := 0;
      if u in db.wallets && db.wallets[u].enabled {
        var ok := db.SetBalance(u, Plus(db.wallets[u].balance, a));
        if !ok {
          return Err(DatabaseError);
        }
        affected := 1;
      }
      if affected == 0 {
        if u !in db.wallets {
          return Err(WalletNotFound);
        }
        if !db.wallets[u].enabled {
          return Err(WalletDisabled);
        }
        return Err(WalletNotFound);
      }
      return Ok(());
    }
  }

  /** Where the connection fails during one Create, if it does. When it fails at the COMMIT, the commit
      may or may not have taken effect. */
  datatype Fault = NoFault | AtBegin | AtDebit | AtCredit | AtInsertTxn | AtInsertEvent | AtCommit(applied: bool)

  class TransactionRepository {
    const db: Postgres
    const walletRepo: WalletRepository

    constructor (db: Postgres, walletRepo: WalletRepository)
      requires walletRepo.db == db
      ensures this.db == db && this.walletRepo == walletRepo
    {
      this.db, this.walletRepo := db, walletRepo;
    }

    /** All of the transfer or nothing of it: all of it if the caller sees no error or only the answer to
        the COMMIT got lost, nothing in every other case. */
    method Create(o: Order, fault: Fault) returns (r: Result<(), Error>)
      requires walletRepo.db == db
      modifies db
      ensures match Transfer(old(db.Tables()), o)
              case Ok(d) => db.Tables() == if fault == NoFault || fault == AtCommit(true) then d else old(db.Tables())
              case Err(_) => db.Tables() == old(db.Tables())
      ensures fault == NoFault ==> match Transfer(old(db.Tables()), o) { case Ok(_) => r.Ok? case Err(e) => r == Err(e) }
      ensures fault != NoFault ==> r.Err?
    {
      if fault == AtBegin {
        return Err(DatabaseError);
      }
      db.Begin();
      r := Statements(o, fault);
      if r.Ok? {
        if fault == NoFault || fault == AtCommit(true) {
          db.Commit();
        }
        if fault.AtCommit? {
          r := Err(DatabaseError);
        }
      }
      db.Rollback();
    }

    /** The statements between BEGIN and COMMIT; an error leaves a partly done transaction behind. */
    method Statements(o: Order, fault: Fault) returns (r: Result<(), Error>)
      requires walletRepo.db == db
      modifies db
      ensures db.begun == old(db.begun)
      ensures r.Ok? ==> Transfer(old(db.Tables()), o) == Ok(db.Tables())
      ensures fault == NoFault || fault.AtCommit? ==>
                match Transfer(old(db.Tables()), o) { case Ok(_) => r.Ok? case Err(e) => r == Err(e) }
      ensures fault != NoFault && !fault.AtCommit? && fault != AtBegin ==> r.Err?
    {
      if fault == AtDebit {
        return Err(DatabaseError);
      }
      r := walletRepo.Debit(o.txn.sender, o.txn.amount);
      if r.Err? {
        return;
      }
      if fault == AtCredit {
        return Err(DatabaseError);
      }
      r := walletRepo.Credit(o.txn.receiver, o.txn.amount);
      if r.Err? {
        return;
      }
      var row := RowOf(o.txn, o.startedAt);
      if fault == AtInsertTxn || row.Err? || o.txn.id in db.txns {
        return Err(DatabaseError);
      }
      db.txns := db.txns[o.txn.id := row.value];
      if fault == AtInsertEvent || o.eventId in db.outbox {
        return Err(DatabaseError);
      }
      db.outbox := db.outbox[o.eventId := EventOf(o.event, o.startedAt)];
      return Ok(());
    }

    /** Moves a row from exactly one status to another, or says precisely why not. */
    method TransitionStatus(id: TxnId, from: Status, to: Status, ineligible: Error) returns (r: Result<Txn, Error>)
      modifies db`txns
      ensures match Transition(old(db.Tables()), id, from, to, ineligible)
              case Ok(d) => db.Tables() == d && r == Ok(db.txns[id])
              case Err(e) => db.Tables() == old(db.Tables()) && r == Err(e)
    {
      if id in db.txns && db.txns[id].status == from {
        db.txns := db.txns[id := db.txns[id].(status := to)];
        return Ok(db.txns[id]);
      }
      var found := id in db.txns;
      if !found {
        return Err(TransactionNotFound);
      }
      return Err(ineligible);
    }

    method Flag(id: TxnId) returns (r: Result<Txn, Error>)
      modifies db`txns
      ensures match Apply(old(db.Tables()), Op.Flag(id))
              case Ok(d) => db.Tables() == d && r == Ok(db.txns[id])
              case Err(e) => db.Tables() == old(db.Tables()) && r == Err(e)
    {
      r := TransitionStatus(id, Completed, Flagged, TransactionNotFlaggable);
    }

    method Unflag(id: TxnId) returns (r: Result<Txn, Error>)
      modifies db`txns
      ensures match Apply(old(db.Tables()), Op.Unflag(id))
              case Ok(d) => db.Tables() == d && r == Ok(db.txns[id])
              case Err(e) => db.Tables() == old(db.Tables()) && r == Err(e)
    {
      r := TransitionStatus(id, Flagged, Completed, TransactionNotFlagged);
    }
  }
}
