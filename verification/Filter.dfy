/** The WHERE clause of the admin list: how it is built, and what it means to the database. */
module Filter {
  import opened Wrappers
  import opened Ledger
  import Like

  /** A transaction row as the list sees it; `idText` is `id::text`. */
  datatype Row = Row(idText: string, sender: UserId, receiver: UserId, status: Status, createdAt: nat)

  datatype ListFilter = ListFilter(status: string, search: string, userIds: seq<UserId>)

  datatype Arg = Text(text: string) | Ids(ids: seq<UserId>) | Number(n: int)

  /** The clause word by word; n in `$n` counts the arguments from 1. */
  datatype Token =
    | StatusIs(n: nat)    // status = $n
    | IdLike(n: nat)      // id::text ILIKE $n
    | SenderAny(n: nat)   // sender_id = ANY($n)
    | ReceiverAny(n: nat) // receiver_id = ANY($n)
    | And | Or | Open | Close

  function StatusText(s: Status): string {
    match s
    case Pending => "pending"
    case Completed => "completed"
    case Failed => "failed"
    case Flagged => "flagged"
  }

  // --- how the database reads a clause ---

  datatype Parsed = Parsed(value: bool, rest: seq<Token>)

  /** A comparison with its bound argument; None is a missing or ill-typed argument. */
  function Atom(t: Token, args: seq<Arg>, row: Row): Option<bool> {
    if !(t.StatusIs? || t.IdLike? || t.SenderAny? || t.ReceiverAny?) || !(1 <= t.n <= |args|) then None
    else
      match (t, args[t.n - 1])
      case (StatusIs(_), Text(s)) => Some(StatusText(row.status) == s)
      case (IdLike(_), Text(p)) => Some(Like.ILike(p, row.idText))
      case (SenderAny(_), Ids(us)) => Some(row.sender in us)
      case (ReceiverAny(_), Ids(us)) => Some(row.receiver in us)
      case _ => None
  }

  /** factor := comparison | ( expr ) */
  function Factor(ts: seq<Token>, args: seq<Arg>, row: Row): (r: Option<Parsed>)
    ensures r.Some? ==> |r.value.rest| < |ts|
    decreases |ts|, 0
  {
    if ts == [] then None
    else if ts[0] == Open then
      match Expr(ts[1..], args, row)
      case None => None
      case Some(e) => if e.rest != [] && e.rest[0] == Close then Some(Parsed(e.value, e.rest[1..])) else None
    else
      match Atom(ts[0], args, row)
      case None => None
      case Some(v) => Some(Parsed(v, ts[1..]))
  }

  /** term := factor (AND term)?; AND binds tighter than OR. */
  function Term(ts: seq<Token>, args: seq<Arg>, row: Row): (r: Option<Parsed>)
    ensures r.Some? ==> |r.value.rest| < |ts|
    decreases |ts|, 1
  {
    match Factor(ts, args, row)
    case None => None
    case Some(l) =>
      if l.rest == [] || l.rest[0] != And then Some(l)
      else
        match Term(l.rest[1..], args, row)
        case None => None
        case Some(r) => Some(Parsed(l.value && r.value, r.rest))
  }

  /** expr := term (OR expr)? */
  function Expr(ts: seq<Token>, args: seq<Arg>, row: Row): (r: Option<Parsed>)
    ensures r.Some? ==> |r.value.rest| < |ts|
    decreases |ts|, 2
  {
    match Term(ts, args, row)
    case None => None
    case Some(l) =>
      if l.rest == [] || l.rest[0] != Or then Some(l)
      else
        match Expr(l.rest[1..], args, row)
        case None => None
        case Some(r) => Some(Parsed(l.value || r.value, r.rest))
  }

  /** Whether a row is selected; an empty clause selects all, and None is a malformed query. */
  function Selects(where: seq<Token>, args: seq<Arg>, row: Row): Option<bool> {
    if where == [] then Some(true)
    else
      match Expr(where, args, row)
      case None => None
      case Some(e) => if e.rest == [] then Some(e.value) else None
  }

  // --- how the repository builds it ---

  function Join(parts: seq<seq<Token>>, sep: Token): seq<Token> {
    if parts == [] then []
    else if |parts| == 1 then parts[0]
    else parts[0] + [sep] + Join(parts[1..], sep)
  }

  method BuildTransactionFilter(f: ListFilter) returns (where: seq<Token>, args: seq<Arg>)
    ensures where == Clause(f) && args == Args(f)
  {
    var conditions: seq<seq<Token>> := [];
    args := [];
    if f.status != "" {
      args := args + [Text(f.status)];
      conditions := conditions + [[StatusIs(|args|)]];
    }
    if f.search != "" || |f.userIds| > 0 {
      var searchConditions: seq<seq<Token>> := [];
      if f.search != "" {
        args := args + [Text("%" + f.search + "%")];
        searchConditions := searchConditions + [[IdLike(|args|)]];
      }
      if |f.userIds| > 0 {
        args := args + [Ids(f.userIds)];
        searchConditions := searchConditions + [UserTokens(|args|)];
      }
      if f.search != "" && |f.userIds| > 0 {
        JoinTwo(searchConditions[0], searchConditions[1], Or);
      }
      assert searchConditions == SearchConditions(f, if f.status == "" then 0 else 1);
      conditions := conditions + [Group(Join(searchConditions, Or))];
    }
    assert conditions == Conditions(f);
    where := Join(conditions, And);
  }

  lemma JoinTwo(a: seq<Token>, b: seq<Token>, sep: Token)
    ensures Join([a, b], sep) == a + [sep] + b
  {
  }

  /** Arguments in the order they are bound: status, search pattern, user ids, each only if given. */
  function Args(f: ListFilter): seq<Arg> {
    (if f.status == "" then [] else [Text(f.status)]) +
    (if f.search == "" then [] else [Text("%" + f.search + "%")]) +
    (if f.userIds == [] then [] else [Ids(f.userIds)])
  }

  function Group(inner: seq<Token>): seq<Token> {
    [Open] + inner + [Close]
  }

  /** (sender_id = ANY($n) OR receiver_id = ANY($n)) */
  function UserTokens(n: nat): seq<Token> {
    Group([SenderAny(n), Or] + [ReceiverAny(n)])
  }

  /** The halves of the search box, the first of them bound to $(n+1). */
  function SearchConditions(f: ListFilter, n: nat): seq<seq<Token>> {
    (if f.search == "" then [] else [[IdLike(n + 1)]]) +
    (if f.userIds == [] then [] else [UserTokens(if f.search == "" then n + 1 else n + 2)])
  }

  function SearchPart(f: ListFilter, n: nat): seq<Token> {
    if f.search == "" && f.userIds == [] then [] else Group(Join(SearchConditions(f, n), Or))
  }

  lemma SearchShape(f: ListFilter, n: nat)
    ensures f.search != "" && f.userIds == [] ==> SearchPart(f, n) == Group([IdLike(n + 1)])
    ensures f.search == "" && f.userIds != [] ==> SearchPart(f, n) == Group(UserTokens(n + 1))
    ensures f.search != "" && f.userIds != [] ==> SearchPart(f, n) == Group([IdLike(n + 1), Or] + UserTokens(n + 2))
  {
    JoinTwo([IdLike(n + 1)], UserTokens(n + 2), Or);
    assert [[IdLike(n + 1)]] + [UserTokens(n + 2)] == [[IdLike(n + 1)], UserTokens(n + 2)];
    assert [IdLike(n + 1)] + [Or] == [IdLike(n + 1), Or];
  }

  function Conditions(f: ListFilter): seq<seq<Token>> {
    var n := if f.status == "" then 0 else 1;
    (if f.status == "" then [] else [[StatusIs(1)]]) +
    (if SearchPart(f, n) == [] then [] else [SearchPart(f, n)])
  }

  function Clause(f: ListFilter): seq<Token> {
    Join(Conditions(f), And)
  }

  lemma ClauseShape(f: ListFilter)
    ensures f.status == "" ==> Clause(f) == SearchPart(f, 0)
    ensures f.status != "" && SearchPart(f, 1) == [] ==> Clause(f) == [StatusIs(1)]
    ensures f.status != "" && SearchPart(f, 1) != [] ==> Clause(f) == [StatusIs(1)] + ([And] + SearchPart(f, 1))
  {
    JoinTwo([StatusIs(1)], SearchPart(f, 1), And);
    assert [[StatusIs(1)]] + [SearchPart(f, 1)] == [[StatusIs(1)], SearchPart(f, 1)];
  }

  // --- what it means ---

  /** The filter as the caller understands it. */
  predicate Wanted(f: ListFilter, row: Row) {
    && (f.status == "" || StatusText(row.status) == f.status)
    && ((f.search == "" && f.userIds == []) || SearchHit(f, row))
  }

  predicate SearchHit(f: ListFilter, row: Row) {
    || (f.search != "" && Like.ILike("%" + f.search + "%", row.idText))
    || row.sender in f.userIds || row.receiver in f.userIds
  }

  lemma AtomFactor(t: Token, rest: seq<Token>, args: seq<Arg>, row: Row)
    requires Atom(t, args, row).Some?
    ensures Factor([t] + rest, args, row) == Some(Parsed(Atom(t, args, row).value, rest))
  {
  }

  /** A comparison not followed by AND is a term by itself. */
  lemma AtomTerm(t: Token, rest: seq<Token>, args: seq<Arg>, row: Row)
    requires Atom(t, args, row).Some? && (rest == [] || rest[0] != And)
    ensures Term([t] + rest, args, row) == Some(Parsed(Atom(t, args, row).value, rest))
  {
  }

  /** A factor at the end, or before a closing parenthesis, is an expression by itself. */
  lemma FactorExpr(ts: seq<Token>, args: seq<Arg>, row: Row, v: bool, rest: seq<Token>)
    requires Factor(ts, args, row) == Some(Parsed(v, rest)) && (rest == [] || rest[0] == Close)
    ensures Expr(ts, args, row) == Some(Parsed(v, rest))
  {
  }

  lemma OrExpr(t: Token, right: seq<Token>, args: seq<Arg>, row: Row, r: Parsed)
    requires Atom(t, args, row).Some? && Expr(right, args, row) == Some(r)
    ensures Expr([t, Or] + right, args, row) == Some(Parsed(Atom(t, args, row).value || r.value, r.rest))
  {
    assert [t, Or] + right == [t] + ([Or] + right);
    AtomTerm(t, [Or] + right, args, row);
    assert ([Or] + right)[1..] == right;
  }

  /** A parenthesised expression is a factor, and before a closing parenthesis an expression. */
  lemma GroupFactor(inner: seq<Token>, rest: seq<Token>, args: seq<Arg>, row: Row, v: bool)
    requires Expr(inner + ([Close] + rest), args, row) == Some(Parsed(v, [Close] + rest))
    ensures Factor(Group(inner) + rest, args, row) == Some(Parsed(v, rest))
    ensures rest == [] || rest[0] == Close ==> Expr(Group(inner) + rest, args, row) == Some(Parsed(v, rest))
  {
    var ts := Group(inner) + rest;
    assert ts[0] == Open && ts[1..] == inner + ([Close] + rest);
    assert ([Close] + rest)[1..] == rest;
    if rest == [] || rest[0] == Close {
      FactorExpr(ts, args, row, v, rest);
    }
  }

  lemma AtomBeforeClose(t: Token, rest: seq<Token>, args: seq<Arg>, row: Row)
    requires Atom(t, args, row).Some?
    ensures Expr([t] + ([Close] + rest), args, row) == Some(Parsed(Atom(t, args, row).value, [Close] + rest))
  {
    AtomFactor(t, [Close] + rest, args, row);
    FactorExpr([t] + ([Close] + rest), args, row, Atom(t, args, row).value, [Close] + rest);
  }

  /** ( comparison ) */
  lemma AtomGroup(t: Token, args: seq<Arg>, row: Row)
    requires Atom(t, args, row).Some?
    ensures Factor(Group([t]) + [], args, row) == Some(Parsed(Atom(t, args, row).value, []))
  {
    AtomBeforeClose(t, [], args, row);
    GroupFactor([t], [], args, row, Atom(t, args, row).value);
  }

  /** ( comparison OR tokens ), for tokens that read as an expression before a closing parenthesis. */
  lemma OrGroup(t: Token, right: seq<Token>, rest: seq<Token>, args: seq<Arg>, row: Row, v: bool)
    requires Atom(t, args, row).Some?
    requires Expr(right + ([Close] + rest), args, row) == Some(Parsed(v, [Close] + rest))
    ensures Factor(Group([t, Or] + right) + rest, args, row) == Some(Parsed(Atom(t, args, row).value || v, rest))
    ensures rest == [] || rest[0] == Close ==>
              Expr(Group([t, Or] + right) + rest, args, row) == Some(Parsed(Atom(t, args, row).value || v, rest))
  {
    OrExpr(t, right + ([Close] + rest), args, row, Parsed(v, [Close] + rest));
    assert ([t, Or] + right) + ([Close] + rest) == [t, Or] + (right + ([Close] + rest));
    GroupFactor([t, Or] + right, rest, args, row, Atom(t, args, row).value || v);
  }

  /** ( comparison OR comparison ), before a closing parenthesis. */
  lemma PairGroup(a: Token, b: Token, rest: seq<Token>, args: seq<Arg>, row: Row)
    requires Atom(a, args, row).Some? && Atom(b, args, row).Some? && rest != [] && rest[0] == Close
    ensures Expr(Group([a, Or] + [b]) + rest, args, row)
         == Some(Parsed(Atom(a, args, row).value || Atom(b, args, row).value, rest))
  {
    AtomBeforeClose(b, rest, args, row);
    OrGroup(a, [b], rest, args, row, Atom(b, args, row).value);
  }

  /** The sender-or-receiver group, before a closing parenthesis. */
  lemma UserGroup(n: nat, us: seq<UserId>, rest: seq<Token>, args: seq<Arg>, row: Row)
    requires 1 <= n <= |args| && args[n - 1] == Ids(us) && rest != [] && rest[0] == Close
    ensures Expr(UserTokens(n) + rest, args, row) == Some(Parsed(row.sender in us || row.receiver in us, rest))
  {
    PairGroup(SenderAny(n), ReceiverAny(n), rest, args, row);
  }

  predicate Bound(f: ListFilter, n: nat, args: seq<Arg>) {
    && (f.search != "" ==> n < |args| && args[n] == Text("%" + f.search + "%"))
    && (f.userIds != [] ==>
          var k := if f.search == "" then n else n + 1; k < |args| && args[k] == Ids(f.userIds))
  }

  /** The whole search box is one factor, and one expression. */
  lemma SearchFactor(f: ListFilter, n: nat, args: seq<Arg>, row: Row)
    requires SearchPart(f, n) != [] && Bound(f, n, args)
    ensures Factor(SearchPart(f, n), args, row) == Some(Parsed(SearchHit(f, row), []))
    ensures Expr(SearchPart(f, n), args, row) == Some(Parsed(SearchHit(f, row), []))
  {
    SearchShape(f, n);
    var part, end := SearchPart(f, n), [Close] + [];
    assert part + [] == part;
    if f.userIds == [] {
      AtomGroup(IdLike(n + 1), args, row);
    } else if f.search == "" {
      UserGroup(n + 1, f.userIds, end, args, row);
      GroupFactor(UserTokens(n + 1), [], args, row, SearchHit(f, row));
    } else {
      UserGroup(n + 2, f.userIds, end, args, row);
      OrGroup(IdLike(n + 1), UserTokens(n + 2), [], args, row, row.sender in f.userIds || row.receiver in f.userIds);
    }
    FactorExpr(part, args, row, SearchHit(f, row), []);
  }

  /** Filter meaning: the clause the repository builds, read with its numbered arguments (and with
      limit and offset appended to them), selects exactly the rows the caller asked for. */
  lemma ClauseMeansFilter(f: ListFilter, row: Row, extra: seq<Arg>)
    ensures Selects(Clause(f), Args(f) + extra, row) == Some(Wanted(f, row))
  {
    ClauseShape(f);
    var args := Args(f) + extra;
    var n := if f.status == "" then 0 else 1;
    var part := SearchPart(f, n);
    if part != [] {
      SearchFactor(f, n, args, row);
    }
    if f.status != "" {
      var first := Atom(StatusIs(1), args, row).value;
      if part == [] {
        AtomFactor(StatusIs(1), [], args, row);
        assert [StatusIs(1)] + [] == [StatusIs(1)];
        FactorExpr([StatusIs(1)], args, row, first, []);
      } else {
        AndExpr(StatusIs(1), part, args, row, SearchHit(f, row));
      }
    }
  }

  /** comparison AND factor */
  lemma AndExpr(t: Token, right: seq<Token>, args: seq<Arg>, row: Row, v: bool)
    requires Atom(t, args, row).Some? && Factor(right, args, row) == Some(Parsed(v, []))
    ensures Expr([t] + ([And] + right), args, row) == Some(Parsed(Atom(t, args, row).value && v, []))
  {
    AtomFactor(t, [And] + right, args, row);
    assert ([And] + right)[1..] == right;
    assert Term(right, args, row) == Some(Parsed(v, []));
    assert Term([t] + ([And] + right), args, row) == Some(Parsed(Atom(t, args, row).value && v, []));
  }

  predicate Numbered(t: Token) {
    t.StatusIs? || t.IdLike? || t.SenderAny? || t.ReceiverAny?
  }

  predicate Uses(where: seq<Token>, n: nat) {
    exists i :: 0 <= i < |where| && Numbered(where[i]) && where[i].n == n
  }

  lemma SearchPartUses(f: ListFilter, n: nat)
    ensures var k := (if f.search == "" then 0 else 1) + (if f.userIds == [] then 0 else 1);
            && (forall i :: 0 <= i < |SearchPart(f, n)| && Numbered(SearchPart(f, n)[i]) ==>
                  n < SearchPart(f, n)[i].n <= n + k)
            && (forall m :: n < m <= n + k ==> Uses(SearchPart(f, n), m))
  {
    SearchShape(f, n);
    var part := SearchPart(f, n);
    if f.search != "" {
      assert part[1] == IdLike(n + 1);
      if f.userIds != [] {
        assert UserTokens(n + 2)[1] == SenderAny(n + 2) && part[4] == SenderAny(n + 2);
      }
    } else if f.userIds != [] {
      assert UserTokens(n + 1)[1] == SenderAny(n + 1) && part[2] == SenderAny(n + 1);
    }
  }

  /** Placeholders are exactly $1 .. $k for the k arguments, none missing and none beyond. */
  lemma PlaceholdersMatchArguments(f: ListFilter)
    ensures forall n: nat :: Uses(Clause(f), n) <==> 1 <= n <= |Args(f)|
  {
    ClauseShape(f);
    var c, k := Clause(f), if f.status == "" then 0 else 1;
    SearchPartUses(f, k);
    var part := SearchPart(f, k);
    forall n: nat | 1 <= n <= |Args(f)| ensures Uses(c, n) {
      if n <= k {
        assert c[0] == StatusIs(1);
      } else {
        assert Uses(part, n);
        var i :| 0 <= i < |part| && Numbered(part[i]) && part[i].n == n;
        assert c[i + |c| - |part|] == part[i];
      }
    }
    forall i | 0 <= i < |c| && Numbered(c[i]) ensures 1 <= c[i].n <= |Args(f)| {
      if i >= |c| - |part| { assert c[i] == part[i - (|c| - |part|)]; }
    }
  }
}
