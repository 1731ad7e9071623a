/** What the admin list shows of the ledger. */
module Listing {
  import opened Ledger
  import opened LedgerLaws
  import opened Machine
  import opened Serializability
  import opened Filter
  import opened Paging

  /** A transaction as the list sees it, its id printed. */
  function Listed(id: TxnId, t: Txn, text: TxnId -> string): Row {
    Row(text(id), t.sender, t.receiver, t.status, t.createdAt)
  }

  function RowsOf(db: Db, text: TxnId -> string): set<Row> {
    set id | id in db.txns :: Listed(id, db.txns[id], text)
  }

  /** The list filtered by a status text alone. */
  function WithStatus(db: Db, text: TxnId -> string, status: string): set<Row> {
    Selected(RowsOf(db, text), ListFilter(status, "", []))
  }

  /** What the last committed move of a transaction makes of it. */
  function StatusAfter(moves: seq<bool>): string {
    if moves != [] && moves[|moves| - 1] then "flagged" else "completed"
  }

  /** After every run: "flagged" lists exactly the transactions whose last move is a flag, "completed"
      exactly the others, and any other status text none. */
  lemma RunStatusLists(ops: seq<Op>, db: Db, text: TxnId -> string, id: TxnId, status: string)
    requires Run(ops, db) && id in db.txns && status != ""
    ensures Listed(id, db.txns[id], text) in WithStatus(db, text, status) <==> status == StatusAfter(Moves(ops, id))
  {
    FlagHistory(ops, db, id);
    StatusByMoves(db, id, Moves(ops, id));
    ListedByStatus(db, text, id, status);
  }

  /** The same in every execution. */
  lemma StatusLists(steps: seq<Step>, s: State, text: TxnId -> string, id: TxnId, status: string)
    requires Reaches(steps, s) && id in s.db.txns && status != ""
    ensures Listed(id, s.db.txns[id], text) in WithStatus(s.db, text, status) <==>
            status == StatusAfter(Moves(CommitLog(steps), id))
  {
    Serializable(steps, s);
    RunStatusLists(CommitLog(steps), s.db, text, id, status);
  }

  lemma StatusByMoves(db: Db, id: TxnId, moves: seq<bool>)
    requires FlagState(db, id, moves) && id in db.txns
    ensures StatusText(db.txns[id].status) == StatusAfter(moves)
  {
    StatusLiterals();
  }

  lemma ListedByStatus(db: Db, text: TxnId -> string, id: TxnId, status: string)
    requires id in db.txns && status != ""
    ensures Listed(id, db.txns[id], text) in WithStatus(db, text, status) <==> StatusText(db.txns[id].status) == status
  {
    assert Listed(id, db.txns[id], text) in RowsOf(db, text);
  }

  lemma StatusLiterals()
    ensures StatusText(Pending) == "pending" && StatusText(Completed) == "completed"
    ensures StatusText(Failed) == "failed" && StatusText(Flagged) == "flagged"
    ensures forall s, t :: StatusText(s) == StatusText(t) ==> s == t
  {
    assert "pending"[0] == 'p' && "completed"[0] == 'c' && |"flagged"| == 7 && |"failed"| == 6;
  }

  /** A search for text without special characters lists exactly the ids that contain it, in any case. */
  lemma PlainSearchLists(table: set<Row>, search: string)
    requires search != "" && Like.Plain(search)
    ensures Selected(table, ListFilter("", search, [])) == set r | r in table && Like.ContainsAnyCase(r.idText, search)
  {
    forall r | r in table ensures Wanted(ListFilter("", search, []), r) <==> Like.ContainsAnyCase(r.idText, search) {
      Like.PlainSearchFinds(search, r.idText);
    }
  }

  /** A list of user ids lists the transactions one of them sent or received. */
  lemma PartiesList(table: set<Row>, users: seq<UserId>)
    requires users != []
    ensures Selected(table, ListFilter("", "", users)) ==
            set r | r in table && exists u :: u in users && (r.sender == u || r.receiver == u)
  {
    forall r | r in table
      ensures Wanted(ListFilter("", "", users), r) <==> exists u :: u in users && (r.sender == u || r.receiver == u)
    {
    }
  }

  /** Status narrows the search box; search text and user ids, the two halves of the box, add up. */
  lemma FiltersCombine(table: set<Row>, f: ListFilter)
    ensures Selected(table, f) ==
            Selected(table, ListFilter(f.status, "", [])) * Selected(table, ListFilter("", f.search, f.userIds))
    ensures f.search != "" && f.userIds != [] ==>
              Selected(table, ListFilter("", f.search, f.userIds)) ==
              Selected(table, ListFilter("", f.search, [])) + Selected(table, ListFilter("", "", f.userIds))
    ensures Selected(table, ListFilter("", "", [])) == table
  {
  }
}
