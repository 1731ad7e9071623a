/** The services: checks first, then one repository call, then at most one publish. */
module Service {
  import opened Wrappers
  import opened Numeric
  import opened Ledger
  import opened LedgerLaws
  import opened Repository
  import opened Announcements

  /** The auth service's answer about the receiver. */
  datatype Verification = Active | Inactive | Unknown | Unavailable

  const DEFAULT_FLAG_REASON := "Manually flagged by admin as suspicious"
  const DEFAULT_UNFLAG_REASON := "Reviewed by admin and cleared as not fraudulent"

  class TransactionService {
    const txnRepo: TransactionRepository
    var alerts: seq<AlertMessage>

    constructor (txnRepo: TransactionRepository)
      ensures this.txnRepo == txnRepo && alerts == []
    {
      this.txnRepo, alerts := txnRepo, [];
    }

    function OnDesk(): Desk
      reads this, txnRepo.db
    {
      Desk(txnRepo.db.Tables(), alerts)
    }

    /** `parsed` says that the amount parses as a positive float; `id`, `eventId` and `at` are
        the ids and the time drawn for this call. Whatever commits is one transfer, of an order
        built from one id, to a receiver the auth service knows as active. */
    method Create(sender: UserId, receiver: UserId, amount: Decimal, parsed: bool, currency: string,
                  verification: Verification, id: TxnId, eventId: EventId, at: nat, fault: Fault)
      returns (r: Result<NewTxn, Error>)
      requires txnRepo.walletRepo.db == txnRepo.db
      requires parsed ==> amount.mantissa > 0
      modifies txnRepo.db
      ensures var o := Compose(id, sender, receiver, amount, currency, eventId, at);
              r.Ok? ==>
                && parsed && verification == Active && FromService(o) && r.value == o.txn
                && Transfer(old(txnRepo.db.Tables()), o) == Ok(txnRepo.db.Tables())
      ensures r.Ok? ==>
                var c := if currency == "" then "INR" else currency;
                var before, after := old(txnRepo.db.Tables()), txnRepo.db.Tables();
                && r.value == NewTxn(id, sender, receiver, amount, c, Completed)
                && id !in before.txns && eventId !in before.outbox
                && after.txns == before.txns[id := Txn(sender, receiver, CreditCents(amount), c, Completed, at)]
                && after.outbox == before.outbox[eventId :=
                     Event(id, Payload(id, sender, receiver, amount, c, Completed), false, at)]
                && (InRange(before.wallets) ==>
                      && after.wallets.Keys == before.wallets.Keys
                      && forall u :: u in before.wallets ==>
                           after.wallets[u] == Wallet(before.wallets[u].balance + Moved(sender, receiver, amount, u),
                                                      before.wallets[u].enabled))
      ensures var o := Compose(id, sender, receiver, amount, currency, eventId, at);
              parsed && verification == Active && fault == NoFault ==>
                (match Transfer(old(txnRepo.db.Tables()), o)
                 case Ok(_) => r.Ok?
                 case Err(e) => r == Err(e))
      ensures var o := Compose(id, sender, receiver, amount, currency, eventId, at);
              r.Err? ==>
                || txnRepo.db.Tables() == old(txnRepo.db.Tables())
                || (parsed && verification == Active && fault == AtCommit(true)
                    && Transfer(old(txnRepo.db.Tables()), o) == Ok(txnRepo.db.Tables()))
      ensures !parsed ==> r == Err(InvalidAmount)
      ensures parsed && verification == Unknown ==> r == Err(ReceiverNotFound)
      ensures parsed && verification == Unavailable ==> r == Err(VerificationFailed)
      ensures parsed && verification == Inactive ==> r == Err(ReceiverInactive)
    {
      if !parsed {
        return Err(InvalidAmount);
      }
      var c := currency;
      if c == "" {
        c := "INR";
      }
      if verification == Unknown {
        return Err(ReceiverNotFound);
      }
      if verification == Unavailable {
        return Err(VerificationFailed);
      }
      if verification == Inactive {
        return Err(ReceiverInactive);
      }
      var txn := NewTxn(id, sender, receiver, amount, c, Completed);
      var event := NewEvent(id, Payload(id, sender, receiver, amount, c, txn.status));
      var done := txnRepo.Create(Order(txn, event, eventId, at), fault);
      if done.Err? {
        return Err(done.error);
      }
      TransferIs(old(txnRepo.db.Tables()), Order(txn, event, eventId, at), txnRepo.db.Tables());
      return Ok(txn);
    }

    /** The status change commits before the alert is written; a failed write undoes nothing. */
    method Flag(id: TxnId, reason: string, published: bool) returns (r: Result<Txn, Error>)
      modifies this, txnRepo.db`txns
      ensures match Apply(old(txnRepo.db.Tables()), Op.Flag(id))
              case Err(e) => r == Err(e) && alerts == old(alerts) && txnRepo.db.Tables() == old(txnRepo.db.Tables())
              case Ok(d) =>
                && txnRepo.db.Tables() == d
                && (published ==>
                      var t := d.txns[id];
                      && r == Ok(t)
                      && alerts == old(alerts) + [
                           AlertMessage(id, t.sender, t.receiver, t.amount, t.currency, 100, false,
                                        if reason == "" then DEFAULT_FLAG_REASON else reason)])
                && (!published ==> r == Err(PublishError) && alerts == old(alerts))
      ensures Handled(old(OnDesk()), Request(id, false, published), OnDesk())
      ensures r.Ok? ==> alerts != [] && alerts[|alerts| - 1].reason != ""
    {
      var why := reason;
      if why == "" {
        why := DEFAULT_FLAG_REASON;
      }
      r := txnRepo.Flag(id);
      if r.Err? {
        return;
      }
      if !published {
        return Err(PublishError);
      }
      var t := r.value;
      alerts := alerts + [AlertMessage(id, t.sender, t.receiver, t.amount, t.currency, 100, false, why)];
    }

    method Unflag(id: TxnId, reason: string, published: bool) returns (r: Result<Txn, Error>)
      modifies this, txnRepo.db`txns
      ensures match Apply(old(txnRepo.db.Tables()), Op.Unflag(id))
              case Err(e) => r == Err(e) && alerts == old(alerts) && txnRepo.db.Tables() == old(txnRepo.db.Tables())
              case Ok(d) =>
                && txnRepo.db.Tables() == d
                && (published ==>
                      var t := d.txns[id];
                      && r == Ok(t)
                      && alerts == old(alerts) + [
                           AlertMessage(id, t.sender, t.receiver, t.amount, t.currency, 0, true,
                                        if reason == "" then DEFAULT_UNFLAG_REASON else reason)])
                && (!published ==> r == Err(PublishError) && alerts == old(alerts))
      ensures Handled(old(OnDesk()), Request(id, true, published), OnDesk())
      ensures r.Ok? ==> alerts != [] && alerts[|alerts| - 1].reason != ""
    {
      var why := reason;
      if why == "" {
        why := DEFAULT_UNFLAG_REASON;
      }
      r := txnRepo.Unflag(id);
      if r.Err? {
        return;
      }
      if !published {
        return Err(PublishError);
      }
      var t := r.value;
      alerts := alerts + [AlertMessage(id, t.sender, t.receiver, t.amount, t.currency, 0, true, why)];
    }
  }

  /** What a transfer of a composed order leaves behind, field by field. */
  lemma TransferIs(db: Db, o: Order, db': Db)
    requires FromService(o) && Transfer(db, o) == Ok(db')
    ensures o.txn.id !in db.txns && o.eventId !in db.outbox
    ensures db'.txns == db.txns[o.txn.id :=
              Txn(o.txn.sender, o.txn.receiver, CreditCents(o.txn.amount), o.txn.currency, Completed, o.startedAt)]
    ensures db'.outbox == db.outbox[o.eventId := Event(o.txn.id, o.event.payload, false, o.startedAt)]
    ensures InRange(db.wallets) ==>
              && db'.wallets.Keys == db.wallets.Keys
              && forall u :: u in db.wallets ==>
                   db'.wallets[u] == Wallet(db.wallets[u].balance + Moved(o.txn.sender, o.txn.receiver, o.txn.amount, u),
                                            db.wallets[u].enabled)
  {
    TransferRows(db, o, db');
    if InRange(db.wallets) {
      MoveMoneyEffect(db.wallets, o.txn, db'.wallets);
    }
  }

  class WalletService {
    const walletRepo: WalletRepository

    constructor (walletRepo: WalletRepository)
      ensures this.walletRepo == walletRepo
    {
      this.walletRepo := walletRepo;
    }

    method TopUp(u: UserId, amount: Decimal, parsed: bool) returns (r: Result<Wallet, Error>)
      requires parsed ==> amount.mantissa > 0
      modifies walletRepo.db`wallets
      ensures !parsed ==> r == Err(InvalidAmount) && walletRepo.db.Tables() == old(walletRepo.db.Tables())
      ensures parsed ==> Checked(Op.TopUp(u, amount))
      ensures parsed ==>
                (match Apply(old(walletRepo.db.Tables()), Op.TopUp(u, amount))
                 case Ok(d) => walletRepo.db.Tables() == d && r == Ok(d.wallets[u])
                 case Err(e) => walletRepo.db.Tables() == old(walletRepo.db.Tables()) && r == Err(e))
    {
      if !parsed {
        return Err(InvalidAmount);
      }
      r := walletRepo.AddBalance(u, amount);
    }
  }
}
