/** Fraud alerts against the flag transitions they announce. */
module Alerts {
  import opened Wrappers
  import opened Ledger
  import opened LedgerLaws
  import opened Machine
  import opened Serializability

  /** How many alerts of this kind were given up: the one call that publishes failed, and its message
      did not reach the topic. */
  function GivenUp(steps: seq<Step>, a: Alert): nat {
    if steps == [] then 0
    else GivenUp(steps[..|steps| - 1], a) + if steps[|steps| - 1] == Announce(a, false) then 1 else 0
  }

  /** Every committed flag or unflag has its alert published, still to publish, or given up. */
  ghost predicate AlertsInv(steps: seq<Step>, s: State) {
    forall a :: multiset(s.alerts)[a] + s.unsent[a] + GivenUp(steps, a) == multiset(s.history)[FlagOp(a.txn, a.cleared)]
  }

  lemma MoneySparesAlerts(s: State, p: Pid, m: MoneyStep, s': State)
    requires MoneyNext(s, p, m) == Some(s')
    ensures s'.alerts == s.alerts && s'.unsent == s.unsent
  {
  }

  lemma RelaySparesAlerts(s: State, r: RelayStep, s': State)
    requires RelayNext(s, r) == Some(s')
    ensures s'.alerts == s.alerts && s'.unsent == s.unsent
  {
  }

  lemma OthersSpareAlerts(s: State, step: Step, s': State)
    requires Next(s, step) == Some(s') && !step.FlagRow? && !step.Announce?
    ensures s'.alerts == s.alerts && s'.unsent == s.unsent
  {
    match step
    case Money(p, m) => MoneySparesAlerts(s, p, m, s');
    case Relay(r) => RelaySparesAlerts(s, r, s');
    case _ =>
  }

  lemma GivesUp(steps: seq<Step>, step: Step)
    ensures forall a :: GivenUp(steps + [step], a) == GivenUp(steps, a) + if step == Announce(a, false) then 1 else 0
  {
  }

  lemma FlagKeepsAlerts(steps: seq<Step>, s: State, id: TxnId, cleared: bool, s': State)
    requires AlertsInv(steps, s) && FlagNext(s, id, cleared) == Some(s')
    ensures AlertsInv(steps + [FlagRow(id, cleared)], s')
  {
    GivesUp(steps, FlagRow(id, cleared));
    assert s'.history == s.history + [FlagOp(id, cleared)];
  }

  lemma AnnounceKeepsAlerts(steps: seq<Step>, s: State, a: Alert, appended: bool, s': State)
    requires AlertsInv(steps, s) && AnnounceNext(s, a, appended) == Some(s')
    ensures AlertsInv(steps + [Announce(a, appended)], s')
  {
    GivesUp(steps, Announce(a, appended));
  }

  /** Only flagging steps commit flags and unflags. */
  lemma OthersCommitNoFlags(s: State, step: Step, s': State)
    requires Inv(s) && Next(s, step) == Some(s') && !step.FlagRow?
    ensures forall id, cleared :: multiset(s'.history)[FlagOp(id, cleared)] == multiset(s.history)[FlagOp(id, cleared)]
  {
    StepSimulates(s, step, s');
    match Committed(s, step)
    case None =>
    case Some(op) => assert !op.Flag? && !op.Unflag?;
  }

  lemma OthersKeepAlerts(steps: seq<Step>, s: State, step: Step, s': State)
    requires Inv(s) && AlertsInv(steps, s) && Next(s, step) == Some(s') && !step.FlagRow? && !step.Announce?
    ensures AlertsInv(steps + [step], s')
  {
    OthersSpareAlerts(s, step, s');
    OthersCommitNoFlags(s, step, s');
    GivesUp(steps, step);
  }

  lemma StepKeepsAlerts(steps: seq<Step>, s: State, step: Step, s': State)
    requires Inv(s) && AlertsInv(steps, s) && Next(s, step) == Some(s')
    ensures AlertsInv(steps + [step], s')
  {
    match step
    case FlagRow(id, cleared) => FlagKeepsAlerts(steps, s, id, cleared, s');
    case Announce(a, appended) => AnnounceKeepsAlerts(steps, s, a, appended, s');
    case _ => OthersKeepAlerts(steps, s, step, s');
  }

  lemma {:induction false} ReachableAlerts(steps: seq<Step>, s: State)
    requires Reaches(steps, s)
    ensures AlertsInv(steps, s)
    decreases |steps|
  {
    if steps != [] {
      var init, before, step := LastMove(steps, s);
      ReachableAlerts(init, before);
      ReachableInv(init, before);
      StepKeepsAlerts(init, before, step, s);
    }
  }

  /** Over every execution: the committed transitions of each kind are exactly the alerts of that kind
      published, still to publish and given up. */
  lemma AlertsAccountForTransitions(steps: seq<Step>, s: State, a: Alert)
    requires Reaches(steps, s)
    ensures multiset(CommitLog(steps))[FlagOp(a.txn, a.cleared)] ==
            multiset(s.alerts)[a] + s.unsent[a] + GivenUp(steps, a)
  {
    ReachableAlerts(steps, s);
    HistoryIsLog(steps, s);
  }

  /** Over every execution: each kind of published alert injects into the committed transitions
      of that kind, and flags outnumber unflags by one exactly while the transaction is flagged. */
  lemma AlertsInjectIntoTransitions(steps: seq<Step>, s: State, id: TxnId)
    requires Reaches(steps, s)
    ensures var log := multiset(CommitLog(steps));
            && multiset(s.alerts)[Alert(id, false)] <= log[Flag(id)]
            && multiset(s.alerts)[Alert(id, true)] <= log[Unflag(id)]
            && log[Flag(id)] == log[Unflag(id)] + if id in s.db.txns && s.db.txns[id].status == Flagged then 1 else 0
    ensures id in s.db.txns ==> s.db.txns[id].status == Completed || s.db.txns[id].status == Flagged
  {
    AlertsAccountForTransitions(steps, s, Alert(id, false));
    AlertsAccountForTransitions(steps, s, Alert(id, true));
    Serializable(steps, s);
    FlagCounts(CommitLog(steps), s.db, id);
  }

  // --- retrying a flag ---

  /** What later steps commit comes after what earlier steps committed. */
  lemma {:induction false} LogExtends(steps: seq<Step>, more: seq<Step>, s: State)
    requires Reaches(steps + more, s)
    ensures CommitLog(steps) <= CommitLog(steps + more)
    decreases |more|
  {
    if more == [] {
      assert steps + more == steps;
    } else {
      var init, before, step := LastMove(steps + more, s);
      assert init == steps + more[..|more| - 1];
      LogExtends(steps, more[..|more| - 1], before);
    }
  }

  lemma {:induction false} PrefixIsReached(steps: seq<Step>, more: seq<Step>, s: State) returns (t: State)
    requires Reaches(steps + more, s)
    ensures Reaches(steps, t)
    decreases |more|
  {
    if more == [] {
      assert steps + more == steps;
      t := s;
    } else {
      var init, before, step := LastMove(steps + more, s);
      assert init == steps + more[..|more| - 1];
      t := PrefixIsReached(steps, more[..|more| - 1], before);
    }
  }

  lemma {:induction false} GivenUpOnce(steps: seq<Step>, a: Alert)
    requires Announce(a, false) in steps
    ensures GivenUp(steps, a) >= 1
    decreases |steps|
  {
    var n := |steps| - 1;
    if steps[n] != Announce(a, false) {
      assert steps == steps[..n] + [steps[n]];
      GivenUpOnce(steps[..n], a);
    }
  }

  /** What is committed after a flag. */
  function Since(steps: seq<Step>, more: seq<Step>): seq<Op> {
    var log, n := CommitLog(steps + more), |CommitLog(steps)|;
    if n <= |log| then log[n..] else []
  }

  /** A flag whose alert failed cannot be retried. Once the alert of a committed flag is given up, then
      in every continuation some committed flag of that transaction has no alert, published or to come;
      and the flag can be repeated if and only if the transitions committed since then end with an unflag. */
  lemma FailedAlertCannotBeRetried(steps: seq<Step>, more: seq<Step>, s: State, id: TxnId)
    requires Reaches(steps + [FlagRow(id, false)] + more, s) && Announce(Alert(id, false), false) in more
    ensures var flagged := steps + [FlagRow(id, false)];
            && CommitLog(flagged + more) == CommitLog(steps) + [Flag(id)] + Since(flagged, more)
            && (Next(s, FlagRow(id, false)).Some? <==> EndsUnflagged(Moves(Since(flagged, more), id)))
    ensures multiset(s.alerts)[Alert(id, false)] + s.unsent[Alert(id, false)]
            < multiset(CommitLog(steps + [FlagRow(id, false)] + more))[Flag(id)]
  {
    var flagged := steps + [FlagRow(id, false)];
    FlagIsLogged(steps, more, s, id);
    Serializable(flagged + more, s);
    FlagAgainIff(CommitLog(steps), Since(flagged, more), s.db, id);
    AlertsAccountForTransitions(flagged + more, s, Alert(id, false));
    GivenUpOnce(flagged + more, Alert(id, false));
  }

  lemma SplitAt(log: seq<Op>, n: nat)
    requires n <= |log|
    ensures log == log[..n] + log[n..]
  {
  }

  lemma LogSplits(steps: seq<Step>, more: seq<Step>, s: State)
    requires Reaches(steps + more, s)
    ensures CommitLog(steps + more) == CommitLog(steps) + Since(steps, more)
  {
    LogExtends(steps, more, s);
    SplitAt(CommitLog(steps + more), |CommitLog(steps)|);
  }

  lemma FlagAddsItself(steps: seq<Step>, t: State, id: TxnId)
    requires Reaches(steps + [FlagRow(id, false)], t)
    ensures CommitLog(steps + [FlagRow(id, false)]) == CommitLog(steps) + [Flag(id)]
  {
    var init, before, step := LastMove(steps + [FlagRow(id, false)], t);
    assert init == steps;
  }

  lemma FlagIsLogged(steps: seq<Step>, more: seq<Step>, s: State, id: TxnId)
    requires Reaches(steps + [FlagRow(id, false)] + more, s)
    ensures var flagged := steps + [FlagRow(id, false)];
            CommitLog(flagged + more) == CommitLog(steps) + [Flag(id)] + Since(flagged, more)
  {
    var t := PrefixIsReached(steps + [FlagRow(id, false)], more, s);
    FlagAddsItself(steps, t, id);
    LogSplits(steps + [FlagRow(id, false)], more, s);
  }
}
