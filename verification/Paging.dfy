/** The paginated list: newest first, a page at a time. */
module Paging {
  import opened Wrappers
  import opened Filter

  /** The rows the filter selects. */
  function Selected(table: set<Row>, f: ListFilter): set<Row> {
    set r | r in table && Wanted(f, r)
  }

  /** `ORDER BY created_at DESC`: each row once, newest first; ties in any order. */
  ghost predicate NewestFirst(order: seq<Row>, rows: set<Row>) {
    && (forall r :: r in order <==> r in rows)
    && (forall i, j :: 0 <= i < j < |order| ==> order[i] != order[j])
    && (forall i, j :: 0 <= i < j < |order| ==> order[i].createdAt >= order[j].createdAt)
  }

  ghost predicate DistinctTimes(rows: set<Row>) {
    forall r, q :: r in rows && q in rows && r.createdAt == q.createdAt ==> r == q
  }

  function Min(a: nat, b: nat): nat {
    if a < b then a else b
  }

  /** LIMIT and OFFSET. */
  function Page(order: seq<Row>, limit: nat, offset: nat): seq<Row> {
    order[Min(offset, |order|)..Min(offset + limit, |order|)]
  }

  /** A page of these rows, newest first, for some order of the ties. */
  ghost predicate IsPage(page: seq<Row>, rows: set<Row>, limit: nat, offset: nat) {
    exists order :: NewestFirst(order, rows) && page == Page(order, limit, offset)
  }

  // --- what the database does with a query ---

  /** The rows a WHERE clause selects. */
  function Matching(table: set<Row>, where: seq<Token>, args: seq<Arg>): set<Row> {
    set r | r in table && Selects(where, args, r) == Some(true)
  }

  /** The number bound to $n. */
  function NumberAt(args: seq<Arg>, n: nat): Option<int> {
    if 1 <= n <= |args| && args[n - 1].Number? then Some(args[n - 1].n) else None
  }

  /** The database can make sense of the clause, whatever the row. */
  ghost predicate WellFormed(where: seq<Token>, args: seq<Arg>) {
    forall r: Row :: Selects(where, args, r).Some?
  }

  /** `SELECT COUNT(*)`. */
  method Count(table: set<Row>, where: seq<Token>, args: seq<Arg>) returns (total: nat)
    requires WellFormed(where, args)
    ensures total == |Matching(table, where, args)|
  {
    total := |Matching(table, where, args)|;
  }

  lemma {:induction false} NewestExists(rest: set<Row>) returns (newest: Row)
    requires rest != {}
    ensures newest in rest && forall r :: r in rest ==> r.createdAt <= newest.createdAt
    decreases rest
  {
    newest :| newest in rest;
    if rest - {newest} != {} {
      var other := NewestExists(rest - {newest});
      if other.createdAt > newest.createdAt {
        newest := other;
      }
    }
  }

  lemma NewestFirstGrows(order: seq<Row>, rows: set<Row>, r: Row)
    requires NewestFirst(order, rows) && r !in rows && forall q :: q in rows ==> q.createdAt >= r.createdAt
    ensures NewestFirst(order + [r], rows + {r})
  {
  }

  /** `SELECT * ... ORDER BY created_at DESC LIMIT $limitAt OFFSET $offsetAt`; which of several rows with the same
      time comes first is up to the database. */
  method Select(table: set<Row>, where: seq<Token>, limitAt: nat, offsetAt: nat, args: seq<Arg>)
    returns (rows: seq<Row>)
    requires WellFormed(where, args)
    requires NumberAt(args, limitAt).Some? && NumberAt(args, limitAt).value >= 0
    requires NumberAt(args, offsetAt).Some? && NumberAt(args, offsetAt).value >= 0
    ensures IsPage(rows, Matching(table, where, args), NumberAt(args, limitAt).value, NumberAt(args, offsetAt).value)
  {
    var sorted: seq<Row> := [];
    var matching := Matching(table, where, args);
    var rest := matching;
    while rest != {}
      invariant rest <= matching && NewestFirst(sorted, matching - rest)
      invariant forall r, q :: r in rest && q in matching - rest ==> q.createdAt >= r.createdAt
      decreases rest
    {
      ghost var newest := NewestExists(rest);
      var r :| r in rest && forall q :: q in rest ==> q.createdAt <= r.createdAt;
      NewestFirstGrows(sorted, matching - rest, r);
      assert matching - (rest - {r}) == matching - rest + {r};
      sorted := sorted + [r];
      rest := rest - {r};
    }
    assert matching - rest == matching;
    rows := Page(sorted, NumberAt(args, limitAt).value, NumberAt(args, offsetAt).value);
  }

  /** The clause the repository builds is well formed and selects the rows the caller asked for, with or
      without limit and offset appended to its arguments. */
  lemma MatchingIsSelected(table: set<Row>, f: ListFilter, extra: seq<Arg>)
    ensures WellFormed(Clause(f), Args(f) + extra)
    ensures Matching(table, Clause(f), Args(f) + extra) == Selected(table, f)
  {
    forall r: Row ensures Selects(Clause(f), Args(f) + extra, r) == Some(Wanted(f, r)) {
      ClauseMeansFilter(f, r, extra);
    }
  }

  /** The list query's placeholders are exactly $1 to $(k+2): the clause uses the first k, and the last two
      are bound to limit and offset. */
  lemma ListPlaceholders(f: ListFilter, limit: nat, offset: nat)
    ensures var k, args := |Args(f)|, Args(f) + [Number(limit), Number(offset)];
            && (forall n: nat :: Uses(Clause(f), n) || n == k + 1 || n == k + 2 <==> 1 <= n <= |args|)
            && !Uses(Clause(f), k + 1) && !Uses(Clause(f), k + 2)
            && NumberAt(args, k + 1) == Some(limit) && NumberAt(args, k + 2) == Some(offset)
  {
    PlaceholdersMatchArguments(f);
  }

  /** One list request: count with the filter's arguments, then fetch with limit and offset appended as
      the next two. */
  method List(table: set<Row>, f: ListFilter, limit: int, offset: int)
    returns (rows: seq<Row>, total: nat)
    ensures IsPage(rows, Selected(table, f), if limit <= 0 then 20 else limit, if offset < 0 then 0 else offset)
    ensures total == |Selected(table, f)|
  {
    var where, args := BuildTransactionFilter(f);
    var k := limit;
    if k <= 0 {
      k := 20;
    }
    var o := offset;
    if o < 0 {
      o := 0;
    }
    MatchingIsSelected(table, f, []);
    MatchingIsSelected(table, f, [Number(k), Number(o)]);
    assert args + [] == args;
    total := Count(table, where, args);
    var listArgs := args + [Number(k), Number(o)];
    rows := Select(table, where, |args| + 1, |args| + 2, listArgs);
  }

  lemma {:induction false} SizeOfOrder(order: seq<Row>, rows: set<Row>)
    requires NewestFirst(order, rows)
    ensures |order| == |rows|
    decreases |order|
  {
    if order != [] {
      Tail(order, rows);
      SizeOfOrder(order[1..], rows - {order[0]});
    } else {
      assert rows == {};
    }
  }

  lemma Tail(order: seq<Row>, rows: set<Row>)
    requires NewestFirst(order, rows) && order != []
    ensures order[0] in rows && NewestFirst(order[1..], rows - {order[0]})
    ensures forall r :: r in rows ==> r.createdAt <= order[0].createdAt
  {
  }

  /** With distinct times there is only one order, so every request sees the same one. */
  lemma {:induction false} OrderIsUnique(a: seq<Row>, b: seq<Row>, rows: set<Row>)
    requires DistinctTimes(rows) && NewestFirst(a, rows) && NewestFirst(b, rows)
    ensures a == b
    decreases |a|
  {
    SizeOfOrder(a, rows);
    SizeOfOrder(b, rows);
    if a != [] {
      Tail(a, rows);
      Tail(b, rows);
      assert a[0] == b[0];
      OrderIsUnique(a[1..], b[1..], rows - {a[0]});
      assert a == [a[0]] + a[1..] && b == [b[0]] + b[1..];
    }
  }

  /** Two rows with the same time can come out either way round. */
  lemma TiesCanSwap(order: seq<Row>, rows: set<Row>, i: nat)
    requires NewestFirst(order, rows) && i + 1 < |order| && order[i].createdAt == order[i + 1].createdAt
    ensures var swapped := order[i := order[i + 1]][i + 1 := order[i]];
            swapped != order && NewestFirst(swapped, rows)
  {
    var swapped := order[i := order[i + 1]][i + 1 := order[i]];
    assert order[i] != order[i + 1];
    forall r ensures r in swapped <==> r in order {
      if r in order {
        var j :| 0 <= j < |order| && order[j] == r;
        var k := if j == i then i + 1 else if j == i + 1 then i else j;
        assert swapped[k] == r;
      }
    }
  }

  lemma TieGivesAnother(order: seq<Row>, rows: set<Row>, i: nat, j: nat) returns (other: seq<Row>)
    requires NewestFirst(order, rows) && i < j < |order| && order[i].createdAt == order[j].createdAt
    ensures NewestFirst(other, rows) && other != order
  {
    assert order[i + 1].createdAt == order[i].createdAt;
    TiesCanSwap(order, rows, i);
    other := order[i := order[i + 1]][i + 1 := order[i]];
  }

  lemma TieHasPlaces(order: seq<Row>, rows: set<Row>) returns (i: nat, j: nat)
    requires NewestFirst(order, rows) && !DistinctTimes(rows)
    ensures i < j < |order| && order[i].createdAt == order[j].createdAt
  {
    var r, q :| r in rows && q in rows && r.createdAt == q.createdAt && r != q;
    assert r in order && q in order;
    i :| 0 <= i < |order| && order[i] == r;
    j :| 0 <= j < |order| && order[j] == q;
    if j < i {
      i, j := j, i;
    }
  }

  /** Requests are sure to agree on the order exactly when no two selected rows have the same time. */
  lemma OrderIsUniqueIff(order: seq<Row>, rows: set<Row>)
    requires NewestFirst(order, rows)
    ensures DistinctTimes(rows) <==> forall other :: NewestFirst(other, rows) ==> other == order
  {
    if DistinctTimes(rows) {
      forall other | NewestFirst(other, rows) ensures other == order {
        OrderIsUnique(order, other, rows);
      }
    } else {
      var i, j := TieHasPlaces(order, rows);
      var other := TieGivesAnother(order, rows, i, j);
    }
  }

  /** The first n pages of size k, page i taken from the order that request i saw. */
  function Pages(orders: seq<seq<Row>>, k: nat, n: nat): seq<Row>
    requires n <= |orders|
  {
    if n == 0 then [] else Pages(orders, k, n - 1) + Page(orders[n - 1], k, (n - 1) * k)
  }

  lemma PageExtendsPrefix(order: seq<Row>, k: nat, offset: nat)
    ensures order[..Min(offset, |order|)] + Page(order, k, offset) == order[..Min(offset + k, |order|)]
  {
  }

  lemma {:induction false} PagesArePrefix(orders: seq<seq<Row>>, order: seq<Row>, k: nat, n: nat)
    requires n <= |orders| && forall i :: 0 <= i < n ==> orders[i] == order
    ensures Pages(orders, k, n) == order[..Min(n * k, |order|)]
    decreases n
  {
    if n > 0 {
      PagesArePrefix(orders, order, k, n - 1);
      assert n * k == (n - 1) * k + k && (n - 1) * k >= 0;
      PageExtendsPrefix(order, k, (n - 1) * k);
    } else {
      assert n * k == 0;
    }
  }

  // --- when paging covers everything exactly once ---

  function Elements(s: seq<Row>): set<Row> {
    set r | r in s
  }

  lemma PrefixIsNewestFirst(order: seq<Row>, rows: set<Row>, c: nat)
    requires NewestFirst(order, rows) && c <= |order|
    ensures NewestFirst(order[..c], Elements(order[..c])) && |Elements(order[..c])| == c
  {
    SizeOfOrder(order[..c], Elements(order[..c]));
  }

  lemma SubsetIsSmaller(small: set<Row>, large: set<Row>)
    requires small <= large
    ensures |small| <= |large|
  {
    assert large == small + (large - small);
  }

  lemma NotOlderAt(a: seq<Row>, b: seq<Row>, rows: set<Row>, i: nat)
    requires NewestFirst(a, rows) && NewestFirst(b, rows) && i < |a| && i < |b|
    ensures a[i].createdAt >= b[i].createdAt
  {
    if a[i].createdAt < b[i].createdAt {
      forall r | r in Elements(b[..i + 1]) ensures r in Elements(a[..i]) {
        var j :| 0 <= j < i + 1 && b[j] == r;
        assert r in a;
        var h :| 0 <= h < |a| && a[h] == r;
        assert h < i && a[..i][h] == r;
      }
      PrefixIsNewestFirst(a, rows, i);
      PrefixIsNewestFirst(b, rows, i + 1);
      SubsetIsSmaller(Elements(b[..i + 1]), Elements(a[..i]));
    }
  }

  /** Whatever the ties do, the times come in the same order. */
  lemma TimesAgree(a: seq<Row>, b: seq<Row>, rows: set<Row>)
    requires NewestFirst(a, rows) && NewestFirst(b, rows)
    ensures |a| == |b| && forall i :: 0 <= i < |a| ==> a[i].createdAt == b[i].createdAt
  {
    SizeOfOrder(a, rows);
    SizeOfOrder(b, rows);
    forall i | 0 <= i < |a| ensures a[i].createdAt == b[i].createdAt {
      NotOlderAt(a, b, rows, i);
      NotOlderAt(b, a, rows, i);
    }
  }

  /** The rows on the two sides of place c have different times. */
  predicate CleanAt(order: seq<Row>, c: nat) {
    0 < c < |order| ==> order[c - 1].createdAt != order[c].createdAt
  }

  function Cut(m: nat, k: nat): nat {
    m * k
  }

  /** No two rows with the same time lie on two pages of size k. */
  ghost predicate NoTieAcrossPages(order: seq<Row>, k: nat) {
    forall m: nat :: CleanAt(order, Cut(m, k))
  }

  /** Between two clean places every order has the same rows. */
  lemma BlockWithin(a: seq<Row>, b: seq<Row>, rows: set<Row>, x: nat, y: nat, i: nat, j: nat)
    requires NewestFirst(a, rows) && NewestFirst(b, rows) && x <= y <= |b| && i < |a| && j < |b| && a[i] == b[j]
    requires CleanAt(b, x) && CleanAt(b, y)
    ensures x <= i < y <==> x <= j < y
  {
    TimesAgree(a, b, rows);
    assert b[i].createdAt == b[j].createdAt;
  }

  lemma BlockSame(a: seq<Row>, b: seq<Row>, rows: set<Row>, x: nat, y: nat)
    requires NewestFirst(a, rows) && NewestFirst(b, rows) && x <= y <= |b| && |a| == |b|
    requires CleanAt(b, x) && CleanAt(b, y)
    ensures forall r :: r in a[x..y] <==> r in b[x..y]
  {
    forall r | r in a[x..y] ensures r in b[x..y] {
      var i :| x <= i < y && a[i] == r;
      assert r in b;
      var j :| 0 <= j < |b| && b[j] == r;
      BlockWithin(a, b, rows, x, y, i, j);
      assert b[x..y][j - x] == r;
    }
    forall r | r in b[x..y] ensures r in a[x..y] {
      var j :| x <= j < y && b[j] == r;
      assert r in a;
      var i :| 0 <= i < |a| && a[i] == r;
      BlockWithin(a, b, rows, x, y, i, j);
      assert a[x..y][i - x] == r;
    }
  }

  /** q holds the first c rows of the order, up to ties. */
  ghost predicate SamePrefix(q: seq<Row>, order: seq<Row>, c: nat) {
    && c <= |order| && |q| == c
    && (forall i :: 0 <= i < c ==> q[i].createdAt == order[i].createdAt)
    && (forall i, j :: 0 <= i < j < c ==> q[i] != q[j])
    && forall r :: r in q <==> r in order[..c]
  }

  lemma MembersGrow(q: seq<Row>, order: seq<Row>, c: nat, c': nat, page: seq<Row>)
    requires c <= c' <= |order|
    requires (forall r :: r in q <==> r in order[..c]) && (forall r :: r in page <==> r in order[c..c'])
    ensures forall r :: r in q + page <==> r in order[..c']
  {
    assert order[..c'] == order[..c] + order[c..c'];
  }

  lemma PrefixGrows(q: seq<Row>, order: seq<Row>, rows: set<Row>, c: nat, c': nat, a: seq<Row>)
    requires NewestFirst(order, rows) && NewestFirst(a, rows) && SamePrefix(q, order, c) && c <= c' <= |order|
    requires CleanAt(order, c) && CleanAt(order, c') && |a| == |order|
    ensures SamePrefix(q + a[c..c'], order, c')
  {
    TimesAgree(a, order, rows);
    BlockSame(a, order, rows, c, c');
    MembersGrow(q, order, c, c', a[c..c']);
    var q' := q + a[c..c'];
    forall i, j | 0 <= i < j < c' ensures q'[i] != q'[j] {
      if i < c <= j {
        assert q'[j] == a[c..c'][j - c] && q'[i] == q[i];
        ApartInOrder(order, c, c', q'[i], q'[j]);
      }
    }
  }

  lemma ApartInOrder(order: seq<Row>, c: nat, c': nat, r: Row, q: Row)
    requires c <= c' <= |order| && r in order[..c] && q in order[c..c']
    requires forall i, j :: 0 <= i < j < |order| ==> order[i] != order[j]
    ensures r != q
  {
  }

  lemma {:induction false} CleanPages(orders: seq<seq<Row>>, order: seq<Row>, rows: set<Row>, k: nat, n: nat)
    requires n <= |orders| && NewestFirst(order, rows) && NoTieAcrossPages(order, k)
    requires forall i :: 0 <= i < n ==> NewestFirst(orders[i], rows)
    ensures SamePrefix(Pages(orders, k, n), order, Min(Cut(n, k), |order|))
    decreases n
  {
    if n > 0 {
      CleanPages(orders, order, rows, k, n - 1);
      NextCut(n - 1, k);
      assert CleanAt(order, Cut(n - 1, k)) && CleanAt(order, Cut(n, k));
      PageGrowsPrefix(Pages(orders, k, n - 1), order, rows, k, Cut(n - 1, k), orders[n - 1]);
    } else {
      NoCut(k);
    }
  }

  lemma PageGrowsPrefix(q: seq<Row>, order: seq<Row>, rows: set<Row>, k: nat, c: nat, a: seq<Row>)
    requires NewestFirst(order, rows) && NewestFirst(a, rows) && SamePrefix(q, order, Min(c, |order|))
    requires CleanAt(order, c) && CleanAt(order, c + k)
    ensures SamePrefix(q + Page(a, k, c), order, Min(c + k, |order|))
  {
    SizeOfOrder(a, rows);
    SizeOfOrder(order, rows);
    PrefixGrows(q, order, rows, Min(c, |order|), Min(c + k, |order|), a);
  }

  lemma NextCut(m: nat, k: nat)
    ensures Cut(m + 1, k) == Cut(m, k) + k
  {
  }

  lemma NoCut(k: nat)
    ensures Cut(0, k) == 0 == Cut(k, 0)
  {
  }

  lemma WholePrefix(q: seq<Row>, order: seq<Row>, rows: set<Row>)
    requires NewestFirst(order, rows) && SamePrefix(q, order, |order|)
    ensures NewestFirst(q, rows)
  {
    assert order[..|order|] == order;
  }

  lemma {:induction false} PagesGrow(orders: seq<seq<Row>>, k: nat, m: nat, n: nat)
    requires m <= n <= |orders|
    ensures Pages(orders, k, m) <= Pages(orders, k, n)
    decreases n
  {
    if m < n {
      PagesGrow(orders, k, m, n - 1);
    }
  }

  /** Orders under which page m repeats the last row of the page before. */
  function Repeating(order: seq<Row>, swapped: seq<Row>, m: nat, n: nat): (orders: seq<seq<Row>>)
    ensures |orders| == n && forall i :: 0 <= i < n ==> orders[i] == if i == m then swapped else order
  {
    seq(n, i requires 0 <= i < n => if i == m then swapped else order)
  }

  /** A tie across the end of a page can put one row on both pages. */
  lemma TieRepeatsRow(order: seq<Row>, rows: set<Row>, k: nat, m: nat, n: nat) returns (orders: seq<seq<Row>>)
    requires NewestFirst(order, rows) && 0 < Cut(m, k) < |order| && !CleanAt(order, Cut(m, k)) && m < n
    ensures |orders| == n && forall i :: 0 <= i < n ==> NewestFirst(orders[i], rows)
    ensures !NewestFirst(Pages(orders, k, n), rows)
  {
    var c := Cut(m, k);
    var swapped := order[c - 1 := order[c]][c := order[c - 1]];
    TiesCanSwap(order, rows, c - 1);
    orders := Repeating(order, swapped, m, n);
    PagesThenSwapped(orders, order, swapped, k, m);
    PagesGrow(orders, k, m + 1, n);
    NoCut(m);
    NextPageRepeats(order, swapped, k, c);
    RepeatedRow(Pages(orders, k, m + 1), Pages(orders, k, n), rows, c);
  }

  lemma PagesThenSwapped(orders: seq<seq<Row>>, order: seq<Row>, swapped: seq<Row>, k: nat, m: nat)
    requires m < |orders| && orders[m] == swapped && Cut(m, k) < |order|
    requires forall i :: 0 <= i < m ==> orders[i] == order
    ensures Pages(orders, k, m + 1) == order[..Cut(m, k)] + Page(swapped, k, Cut(m, k))
  {
    PagesArePrefix(orders, order, k, m);
  }

  lemma NextPageRepeats(order: seq<Row>, swapped: seq<Row>, k: nat, c: nat)
    requires 0 < c < |order| == |swapped| && k > 0 && swapped[c] == order[c - 1]
    ensures var both := order[..c] + Page(swapped, k, c); c < |both| && both[c - 1] == both[c]
  {
  }

  lemma RepeatedRow(both: seq<Row>, all: seq<Row>, rows: set<Row>, c: nat)
    requires 0 < c < |both| && both[c - 1] == both[c] && both <= all
    ensures !NewestFirst(all, rows)
  {
    assert all[c - 1] == all[c];
  }

  lemma CutsClimb(m: nat, n: nat, k: nat)
    requires m <= n
    ensures Cut(m, k) <= Cut(n, k)
  {
    assert n * k == m * k + (n - m) * k && (n - m) * k >= 0;
  }

  lemma CutBeforeEnd(m: nat, n: nat, k: nat, size: nat)
    requires Cut(m, k) < size <= n * k
    ensures m < n
  {
    if n <= m {
      CutsClimb(n, m, k);
    }
  }

  /** The exact condition. Paging through an unchanged table with pages of size k, each request with its
      own order of ties, is sure to give every selected row exactly once, newest first, if and only if no
      two selected rows with the same time lie on two pages. */
  lemma PagesCoverOnceIff(rows: set<Row>, order: seq<Row>, k: nat, n: nat)
    requires NewestFirst(order, rows) && n * k >= |rows|
    ensures (forall orders: seq<seq<Row>> :: |orders| == n && (forall i :: 0 <= i < n ==> NewestFirst(orders[i], rows))
               ==> NewestFirst(Pages(orders, k, n), rows))
       <==> NoTieAcrossPages(order, k)
  {
    SizeOfOrder(order, rows);
    if NoTieAcrossPages(order, k) {
      forall orders: seq<seq<Row>> | |orders| == n && (forall i :: 0 <= i < n ==> NewestFirst(orders[i], rows))
        ensures NewestFirst(Pages(orders, k, n), rows)
      {
        CleanPages(orders, order, rows, k, n);
        WholePrefix(Pages(orders, k, n), order, rows);
      }
    } else {
      var m: nat :| !CleanAt(order, Cut(m, k));
      CutBeforeEnd(m, n, k, |order|);
      var orders := TieRepeatsRow(order, rows, k, m, n);
    }
  }

  /** Paging through an unchanged table whose selected rows have distinct times: the pages at
      offsets 0, k, 2k, ... put together are the selected rows newest first, each exactly once,
      and as many as the total says. */
  lemma PagesCoverOnce(table: set<Row>, f: ListFilter, orders: seq<seq<Row>>, k: nat, n: nat)
    requires DistinctTimes(Selected(table, f)) && n <= |orders| && n > 0
    requires forall i :: 0 <= i < n ==> NewestFirst(orders[i], Selected(table, f))
    requires n * k >= |Selected(table, f)|
    ensures NewestFirst(Pages(orders, k, n), Selected(table, f))
    ensures |Pages(orders, k, n)| == |Selected(table, f)|
  {
    var rows := Selected(table, f);
    forall i | 0 <= i < n ensures orders[i] == orders[0] {
      OrderIsUnique(orders[i], orders[0], rows);
    }
    PagesArePrefix(orders, orders[0], k, n);
    SizeOfOrder(orders[0], rows);
    assert orders[0][..|orders[0]|] == orders[0];
  }
}
