/** What an admin's flag and unflag requests, one after another, leave in the tables and on the
    fraud-alerts topic. */
module Announcements {
  import opened Wrappers
  import opened Ledger
  import opened Machine

  /** The message on the fraud-alerts topic. */
  datatype AlertMessage = AlertMessage(
    txnId: TxnId, sender: UserId, receiver: UserId, cents: int, currency: string,
    totalScore: nat, cleared: bool, reason: string)

  /** What the service works on: the tables, and the messages it has published. */
  datatype Desk = Desk(db: Db, alerts: seq<AlertMessage>)

  /** A call of Flag or, with `cleared`, of Unflag; `published` says whether its Publish succeeds if it gets that far. */
  datatype Request = Request(txn: TxnId, cleared: bool, published: bool)

  /** The machine's view of a message. */
  function Kind(m: AlertMessage): Alert {
    Alert(m.txnId, m.cleared)
  }

  function Kinds(ms: seq<AlertMessage>): seq<Alert> {
    seq(|ms|, i requires 0 <= i < |ms| => Kind(ms[i]))
  }

  /** The request is accepted: the row has the status it moves from. */
  predicate Accepted(db: Db, q: Request) {
    q.txn in db.txns && db.txns[q.txn].status == if q.cleared then Flagged else Completed
  }

  /** A refused request changes nothing. An accepted one moves the status, and then adds a message of its
      kind, or none if that fails. */
  ghost predicate Handled(before: Desk, q: Request, after: Desk) {
    if !Accepted(before.db, q) then after == before
    else
      && Apply(before.db, FlagOp(q.txn, q.cleared)) == Ok(after.db)
      && if q.published then
           && |after.alerts| == |before.alerts| + 1 && after.alerts[..|before.alerts|] == before.alerts
           && Kind(after.alerts[|before.alerts|]) == Alert(q.txn, q.cleared)
         else after.alerts == before.alerts
  }

  /** The machine that this desk is part of is in state s. */
  ghost predicate Mirrors(s: State, d: Desk) {
    s.db == d.db && s.alerts == Kinds(d.alerts)
  }

  lemma KindsAppend(ms: seq<AlertMessage>, more: seq<AlertMessage>)
    requires |more| == |ms| + 1 && more[..|ms|] == ms
    ensures Kinds(more) == Kinds(ms) + [Kind(more[|ms|])]
  {
    forall i | 0 <= i < |ms| ensures Kinds(more)[i] == Kinds(ms)[i] {
      assert more[..|ms|][i] == ms[i];
    }
  }

  /** An accepted request is two steps of the machine, the status change and its announcement; a refused
      one is impossible there. */
  lemma RequestIsMachineSteps(s: State, before: Desk, q: Request, after: Desk) returns (mid: State, s': State)
    requires Mirrors(s, before) && Handled(before, q, after)
    ensures Accepted(before.db, q) <==> Next(s, FlagRow(q.txn, q.cleared)).Some?
    ensures Accepted(before.db, q) ==>
              && Next(s, FlagRow(q.txn, q.cleared)) == Some(mid)
              && Next(mid, Announce(Alert(q.txn, q.cleared), q.published)) == Some(s')
    ensures !Accepted(before.db, q) ==> s' == s
    ensures Mirrors(s', after)
  {
    mid, s' := s, s;
    FlagRowGoes(s, q);
    if Accepted(before.db, q) {
      mid := FlagNext(s, q.txn, q.cleared).value;
      AnnounceGoes(mid, Alert(q.txn, q.cleared), q.published);
      s' := AnnounceNext(mid, Alert(q.txn, q.cleared), q.published).value;
      MirrorsAfter(before, q, after, s');
    }
  }

  lemma MirrorsAfter(before: Desk, q: Request, after: Desk, s': State)
    requires Handled(before, q, after) && Accepted(before.db, q)
    requires Apply(before.db, FlagOp(q.txn, q.cleared)) == Ok(s'.db)
    requires s'.alerts == if q.published then Kinds(before.alerts) + [Alert(q.txn, q.cleared)] else Kinds(before.alerts)
    ensures Mirrors(s', after)
  {
    if q.published {
      KindsAppend(before.alerts, after.alerts);
    }
  }

  lemma FlagRowGoes(s: State, q: Request)
    ensures Accepted(s.db, q) <==> FlagNext(s, q.txn, q.cleared).Some?
    ensures Accepted(s.db, q) ==>
              var mid := FlagNext(s, q.txn, q.cleared).value;
              && Apply(s.db, FlagOp(q.txn, q.cleared)) == Ok(mid.db) && mid.alerts == s.alerts
              && Alert(q.txn, q.cleared) in mid.unsent
  {
  }

  lemma AnnounceGoes(s: State, a: Alert, published: bool)
    requires a in s.unsent
    ensures AnnounceNext(s, a, published).Some?
    ensures var s' := AnnounceNext(s, a, published).value;
            s'.db == s.db && s'.alerts == if published then s.alerts + [a] else s.alerts
  {
  }

  // --- the last message about a transaction ---

  function LastAbout(ms: seq<AlertMessage>, id: TxnId): Option<AlertMessage> {
    if ms == [] then None
    else if ms[|ms| - 1].txnId == id then Some(ms[|ms| - 1])
    else LastAbout(ms[..|ms| - 1], id)
  }

  /** These requests were handled one after another. */
  ghost predicate HandledAll(desks: seq<Desk>, qs: seq<Request>) {
    |desks| == |qs| + 1 && forall i :: 0 <= i < |qs| ==> Handled(desks[i], qs[i], desks[i + 1])
  }

  /** The accepted requests about id among the first n whose message failed, counted since the last one
      whose message did not. */
  function Unannounced(desks: seq<Desk>, qs: seq<Request>, n: nat, id: TxnId): nat
    requires |desks| == |qs| + 1 && n <= |qs|
  {
    if n == 0 then 0
    else
      var before, q := Unannounced(desks, qs, n - 1, id), qs[n - 1];
      if q.txn != id || !Accepted(desks[n - 1].db, q) then before
      else if q.published then 0
      else before + 1
  }

  /** The message tells the status of the row. */
  predicate Tells(m: AlertMessage, db: Db) {
    m.txnId in db.txns && db.txns[m.txnId].status == if m.cleared then Completed else Flagged
  }

  /** The message tells the opposite. */
  predicate TellsWrong(m: AlertMessage, db: Db) {
    m.txnId in db.txns && db.txns[m.txnId].status == if m.cleared then Flagged else Completed
  }

  lemma MessageMoves(before: Desk, q: Request, after: Desk, id: TxnId)
    requires Handled(before, q, after)
    ensures var got := Accepted(before.db, q) && q.txn == id;
            && (got && q.published ==>
                  var m := LastAbout(after.alerts, id); m.Some? && m.value.txnId == id && Tells(m.value, after.db))
            && (!(got && q.published) ==> LastAbout(after.alerts, id) == LastAbout(before.alerts, id))
            && (got ==> id in after.db.txns && after.db.txns[id].status == if q.cleared then Completed else Flagged)
            && (!got && id in before.db.txns ==> id in after.db.txns && after.db.txns[id] == before.db.txns[id])
  {
  }

  lemma {:induction false} LastIsAbout(ms: seq<AlertMessage>, id: TxnId)
    ensures LastAbout(ms, id).Some? ==> LastAbout(ms, id).value.txnId == id
    decreases |ms|
  {
    if ms != [] {
      LastIsAbout(ms[..|ms| - 1], id);
    }
  }

  lemma {:induction false} LastTellsByParity(desks: seq<Desk>, qs: seq<Request>, n: nat, id: TxnId)
    requires HandledAll(desks, qs) && n <= |qs| && desks[0].alerts == []
    ensures var m, even := LastAbout(desks[n].alerts, id), Unannounced(desks, qs, n, id) % 2 == 0;
            m.Some? ==> if even then Tells(m.value, desks[n].db) else TellsWrong(m.value, desks[n].db)
    decreases n
  {
    if n > 0 {
      LastTellsByParity(desks, qs, n - 1, id);
      assert Handled(desks[n - 1], qs[n - 1], desks[n - 1 + 1]);
      MessageMoves(desks[n - 1], qs[n - 1], desks[n], id);
      LastIsAbout(desks[n - 1].alerts, id);
    }
  }

  /** The exact condition. After any sequence of flag and unflag requests, the last message about a
      transaction says `cleared` if and only if its row is completed, exactly when an even number of
      accepted requests about it went unannounced since that message; otherwise it says the opposite. */
  lemma LastAlertAgreesIff(desks: seq<Desk>, qs: seq<Request>, id: TxnId)
    requires HandledAll(desks, qs) && desks[0].alerts == [] && LastAbout(desks[|qs|].alerts, id).Some?
    ensures var m, db := LastAbout(desks[|qs|].alerts, id).value, desks[|qs|].db;
            && id in db.txns && (db.txns[id].status == Completed || db.txns[id].status == Flagged)
            && ((m.cleared <==> db.txns[id].status == Completed) <==> Unannounced(desks, qs, |qs|, id) % 2 == 0)
  {
    LastTellsByParity(desks, qs, |qs|, id);
    LastIsAbout(desks[|qs|].alerts, id);
  }

  lemma {:induction false} NothingUnannounced(desks: seq<Desk>, qs: seq<Request>, n: nat, id: TxnId)
    requires |desks| == |qs| + 1 && n <= |qs| && forall i :: 0 <= i < |qs| ==> qs[i].published
    ensures Unannounced(desks, qs, n, id) == 0
    decreases n
  {
    if n > 0 {
      NothingUnannounced(desks, qs, n - 1, id);
    }
  }

  /** When every message gets through, the last one about a transaction always agrees with its row. */
  lemma LastAlertAgrees(desks: seq<Desk>, qs: seq<Request>, id: TxnId)
    requires HandledAll(desks, qs) && desks[0].alerts == [] && LastAbout(desks[|qs|].alerts, id).Some?
    requires forall i :: 0 <= i < |qs| ==> qs[i].published
    ensures id in desks[|qs|].db.txns
    ensures LastAbout(desks[|qs|].alerts, id).value.cleared <==> desks[|qs|].db.txns[id].status == Completed
  {
    NothingUnannounced(desks, qs, |qs|, id);
    LastAlertAgreesIff(desks, qs, id);
  }
}
