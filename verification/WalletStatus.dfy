/** The wallet-status column of the admin's users table. */
module WalletStatus {
  import opened Wrappers
  import opened Ledger

  /** How the database reads the text of an id, and how it prints one. Several texts may be read as the
      same id (upper case, braces, no dashes); None is the error for text that is no id at all. */
  datatype Ids = Ids(read: string -> Option<UserId>, text: UserId -> string)

  ghost predicate ReadsBack(ids: Ids) {
    forall u: UserId :: ids.read(ids.text(u)) == Some(u)
  }

  /** The text is the one the database prints. */
  predicate Canonical(ids: Ids, t: string) {
    match ids.read(t)
    case None => false
    case Some(u) => ids.text(u) == t
  }

  /** A row as `SELECT * FROM wallets` returns it, its id printed. */
  datatype WalletRow = WalletRow(user: string, wallet: Wallet)

  /** One answer; `enabled` and `balance` are absent when there is no wallet. */
  datatype StatusRow = StatusRow(user: string, found: bool, enabled: Option<bool>, balance: Option<int>)

  /** What looking up one id alone gives: the database reads the text itself. */
  function StatusOf(ws: Wallets, ids: Ids, t: string): StatusRow {
    match ids.read(t)
    case Some(u) =>
      if u in ws then StatusRow(t, true, Some(ws[u].enabled), Some(ws[u].balance)) else StatusRow(t, false, None, None)
    case None => StatusRow(t, false, None, None)
  }

  /** Some requested text is read as u. */
  predicate Requested(ids: Ids, requested: seq<string>, u: UserId) {
    exists t :: t in requested && ids.read(t) == Some(u)
  }

  /** The row is the wallet of a requested id. */
  ghost predicate Comes(ws: Wallets, ids: Ids, requested: seq<string>, r: WalletRow) {
    exists u :: u in ws && r == WalletRow(ids.text(u), ws[u]) && Requested(ids, requested, u)
  }

  /** What `WHERE user_id = ANY($1)` may return: the rows of the requested wallets, in any order. Text
      that is no id fails the whole query. */
  ghost predicate IsSelection(ws: Wallets, ids: Ids, requested: seq<string>, found: seq<WalletRow>) {
    && (forall t :: t in requested ==> ids.read(t).Some?)
    && (forall i :: 0 <= i < |found| ==> Comes(ws, ids, requested, found[i]))
    && (forall i, j :: 0 <= i < j < |found| ==> found[i].user != found[j].user)
    && (forall u :: u in ws && Requested(ids, requested, u) ==> WalletRow(ids.text(u), ws[u]) in found)
  }

  /** The wallet a map filled row by row holds for t: the last one wins. */
  function LastFor(found: seq<WalletRow>, t: string): Option<Wallet> {
    if found == [] then None
    else if found[|found| - 1].user == t then Some(found[|found| - 1].wallet)
    else LastFor(found[..|found| - 1], t)
  }

  function Answer(t: string, w: Option<Wallet>): StatusRow {
    match w
    case None => StatusRow(t, false, None, None)
    case Some(v) => StatusRow(t, true, Some(v.enabled), Some(v.balance))
  }

  method NewWalletStatusList(requested: seq<string>, found: seq<WalletRow>) returns (statuses: seq<StatusRow>)
    ensures |statuses| == |requested|
    ensures forall i :: 0 <= i < |requested| ==> statuses[i] == Answer(requested[i], LastFor(found, requested[i]))
  {
    var byUser: map<string, Wallet> := map[];
    for i := 0 to |found|
      invariant forall t :: (if t in byUser then Some(byUser[t]) else None) == LastFor(found[..i], t)
    {
      assert found[..i + 1][..i] == found[..i];
      byUser := byUser[found[i].user := found[i].wallet];
    }
    assert found[..|found|] == found;
    statuses := [];
    for i := 0 to |requested|
      invariant |statuses| == i
      invariant forall j :: 0 <= j < i ==> statuses[j] == Answer(requested[j], LastFor(found, requested[j]))
    {
      var id := requested[i];
      if id in byUser {
        statuses := statuses + [StatusRow(id, true, Some(byUser[id].enabled), Some(byUser[id].balance))];
      } else {
        statuses := statuses + [StatusRow(id, false, None, None)];
      }
    }
  }

  lemma {:induction false} LastForFinds(found: seq<WalletRow>, t: string)
    ensures LastFor(found, t) == None <==> forall i :: 0 <= i < |found| ==> found[i].user != t
    ensures LastFor(found, t).Some? ==> WalletRow(t, LastFor(found, t).value) in found
    decreases |found|
  {
    if found != [] {
      var n := |found| - 1;
      LastForFinds(found[..n], t);
      if found[n].user == t {
        assert found[n] == WalletRow(t, found[n].wallet);
      }
    }
  }

  /** A found row under text t is the wallet of the id printed as t. */
  lemma FoundIsPrinted(ws: Wallets, ids: Ids, requested: seq<string>, found: seq<WalletRow>, t: string, w: Wallet)
    requires ReadsBack(ids) && IsSelection(ws, ids, requested, found) && WalletRow(t, w) in found
    ensures Canonical(ids, t) && ids.read(t).value in ws && w == ws[ids.read(t).value]
  {
    assert Comes(ws, ids, requested, WalletRow(t, w));
    var u :| u in ws && WalletRow(t, w) == WalletRow(ids.text(u), ws[u]) && Requested(ids, requested, u);
    assert ids.read(ids.text(u)) == Some(u);
  }

  /** What the bulk answer says of each requested text, whatever the order of the found rows. */
  lemma BulkAnswer(ws: Wallets, ids: Ids, requested: seq<string>, found: seq<WalletRow>, t: string)
    requires ReadsBack(ids) && IsSelection(ws, ids, requested, found) && t in requested
    ensures LastFor(found, t) ==
            if Canonical(ids, t) && ids.read(t).value in ws then Some(ws[ids.read(t).value]) else None
  {
    LastForFinds(found, t);
    if LastFor(found, t).Some? {
      FoundIsPrinted(ws, ids, requested, found, t, LastFor(found, t).value);
    } else if Canonical(ids, t) && ids.read(t).value in ws {
      var u := ids.read(t).value;
      assert Requested(ids, requested, u);
    }
  }

  /** Bulk status agrees with single lookup, whatever duplicates or unknown ids were requested, if and
      only if the id was written as the database prints it or has no wallet; otherwise an existing wallet
      is reported as missing. A missing wallet is never taken for a disabled one. */
  lemma BulkAgreesWithSingle(ws: Wallets, ids: Ids, requested: seq<string>, found: seq<WalletRow>, t: string)
    requires ReadsBack(ids) && IsSelection(ws, ids, requested, found) && t in requested
    ensures var u := ids.read(t).value;
            Answer(t, LastFor(found, t)) == StatusOf(ws, ids, t) <==> Canonical(ids, t) || u !in ws
    ensures !Canonical(ids, t) ==> !Answer(t, LastFor(found, t)).found
    ensures Canonical(ids, t) ==>
              var u := ids.read(t).value;
              && (Answer(t, LastFor(found, t)).found <==> u in ws)
              && (Answer(t, LastFor(found, t)).enabled == Some(false) <==> u in ws && !ws[u].enabled)
  {
    BulkAnswer(ws, ids, requested, found, t);
  }
}
