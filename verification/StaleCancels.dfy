// Where whole calls and single statements differ: a cancellation reads its campaign without a lock and
// writes it without a guard. Exactly when such a cancellation replaces an outcome that a worker reported.

module StaleCancels {
  import opened Prelude
  import opened Records
  import opened Transactions
  import opened TransactionSafety

  // Completed or Failed.
  predicate HasOutcome(status: RunStatus) {
    status.Completed? || status.Failed?
  }

  predicate CampaignHasOutcome(status: CampaignStatus) {
    status.Completed? || status.Failed?
  }

  // The campaign a cancellation is about to write or has written, and the status it read before.
  function AfterReading(pc: Pc): Option<(Id, CampaignStatus)> {
    match pc
    case CancelCampaign(cid, seen) => Some((cid, seen))
    case CancelRuns(cid, seen) => Some((cid, seen))
    case Done(CancelWrote(cid, seen)) => Some((cid, seen))
    case _ => None
  }

  // The campaign a cancellation has written and holds locked, and the status it read before.
  function AfterLocking(pc: Pc): Option<(Id, CampaignStatus)> {
    match pc
    case CancelRuns(cid, seen) => Some((cid, seen))
    case Done(CancelWrote(cid, seen)) => Some((cid, seen))
    case _ => None
  }

  predicate HasRead(s: Sys, t: nat, c: Id, seen: CampaignStatus) {
    t in s.txs && AfterReading(s.txs[t].pc) == Some((c, seen))
  }

  predicate HasLocked(s: Sys, t: nat, c: Id, seen: CampaignStatus) {
    t in s.txs && AfterLocking(s.txs[t].pc) == Some((c, seen))
  }

  // Step `k` is the read of cancellation `t`: it finds campaign `c` as `seen`, not terminal.
  ghost predicate ReadsAt(b: seq<Sys>, actions: seq<Action>, k: nat, t: nat, c: Id, seen: CampaignStatus)
    requires |b| == |actions| + 1
  {
    && k < |actions| && actions[k].Statement? && actions[k].t == t
    && t in b[k].txs && b[k].txs[t].pc == CancelRead(c)
    && c in b[k].db.campaigns && b[k].db.campaigns[c].status == seen && !seen.IsTerminal()
  }

  // Step `m` is the update of the campaign by cancellation `t`: it takes the row's lock.
  ghost predicate LocksAt(b: seq<Sys>, actions: seq<Action>, m: nat, t: nat, c: Id, seen: CampaignStatus)
    requires |b| == |actions| + 1
  {
    && m < |actions| && actions[m].Statement? && actions[m].t == t
    && t in b[m].txs && b[m].txs[t].pc == CancelCampaign(c, seen)
    && c in b[m].db.campaigns
  }

  // One cancellation of campaign `c` from its read at `k` over its lock at `m` to its commit at `i`.
  ghost predicate Cancels(b: seq<Sys>, actions: seq<Action>, k: nat, m: nat, i: nat, t: nat, c: Id,
                          seen: CampaignStatus)
    requires |b| == |actions| + 1
  {
    && k < m < i < |actions|
    && ReadsAt(b, actions, k, t, c, seen)
    && LocksAt(b, actions, m, t, c, seen)
    && actions[i] == Commit(t) && t in b[i].txs && b[i].txs[t].pc == Done(CancelWrote(c, seen))
    && (forall j: nat :: k < j <= i ==> HasRead(b[j], t, c, seen))
    && (forall j: nat :: m < j <= i ==> HasLocked(b[j], t, c, seen))
  }

  // ----- every cancellation reads, then locks, then commits -----

  lemma ReadIsKept(s: Sys, a: Action, t: nat, c: Id, seen: CampaignStatus)
    requires Enabled(s, a) && HasRead(Apply(s, a), t, c, seen) && t in s.txs && AfterReading(s.txs[t].pc).Some?
    ensures HasRead(s, t, c, seen)
  {
  }

  lemma ReadIsMade(s: Sys, a: Action, t: nat, c: Id, seen: CampaignStatus)
    requires Enabled(s, a) && HasRead(Apply(s, a), t, c, seen) && !(t in s.txs && AfterReading(s.txs[t].pc).Some?)
    ensures a.Statement? && a.t == t && t in s.txs && s.txs[t].pc == CancelRead(c)
    ensures c in s.db.campaigns && s.db.campaigns[c].status == seen && !seen.IsTerminal()
  {
  }

  lemma {:induction false} FindRead(b: seq<Sys>, actions: seq<Action>, i: nat, t: nat, c: Id, seen: CampaignStatus)
    returns (k: nat)
    requires Behaviour(b, actions) && i < |b| && HasRead(b[i], t, c, seen)
    ensures k < i && ReadsAt(b, actions, k, t, c, seen)
    ensures forall j: nat :: k < j <= i ==> HasRead(b[j], t, c, seen)
  {
    k := i - 1;
    assert StepAt(b, actions, k);
    if t in b[k].txs && AfterReading(b[k].txs[t].pc).Some? {
      ReadIsKept(b[k], actions[k], t, c, seen);
      k := FindRead(b, actions, k, t, c, seen);
    } else {
      ReadIsMade(b[k], actions[k], t, c, seen);
    }
  }

  lemma LockIsKept(s: Sys, a: Action, t: nat, c: Id, seen: CampaignStatus)
    requires Enabled(s, a) && HasLocked(Apply(s, a), t, c, seen) && t in s.txs && AfterLocking(s.txs[t].pc).Some?
    ensures HasLocked(s, t, c, seen)
  {
  }

  lemma LockIsTaken(s: Sys, a: Action, t: nat, c: Id, seen: CampaignStatus)
    requires Inv(s) && Enabled(s, a) && HasLocked(Apply(s, a), t, c, seen)
    requires !(t in s.txs && AfterLocking(s.txs[t].pc).Some?)
    ensures a.Statement? && a.t == t && t in s.txs && s.txs[t].pc == CancelCampaign(c, seen) && c in s.db.campaigns
  {
    assert t in s.txs ==> TxOk(s.db, s.txs[t]);
  }

  lemma {:induction false} FindLock(b: seq<Sys>, actions: seq<Action>, i: nat, t: nat, c: Id, seen: CampaignStatus)
    returns (m: nat)
    requires Behaviour(b, actions) && i < |b| && HasLocked(b[i], t, c, seen)
    ensures m < i && LocksAt(b, actions, m, t, c, seen)
    ensures forall j: nat :: m < j <= i ==> HasLocked(b[j], t, c, seen)
  {
    m := i - 1;
    assert StepAt(b, actions, m);
    if t in b[m].txs && AfterLocking(b[m].txs[t].pc).Some? {
      LockIsKept(b[m], actions[m], t, c, seen);
      m := FindLock(b, actions, m, t, c, seen);
    } else {
      BehaviourKeepsInv(b, actions, m);
      LockIsTaken(b[m], actions[m], t, c, seen);
    }
  }

  lemma LockedHasRead(s: Sys, t: nat, c: Id, seen: CampaignStatus)
    requires HasLocked(s, t, c, seen)
    ensures HasRead(s, t, c, seen)
  {
  }

  // A cancellation that commits its writes read the campaign itself, in a state where it was not
  // terminal, and locked it only later.
  lemma EveryCancelReadsThenLocks(b: seq<Sys>, actions: seq<Action>, i: nat, t: nat, c: Id, seen: CampaignStatus)
    returns (k: nat, m: nat)
    requires Behaviour(b, actions) && i < |actions| && actions[i] == Commit(t)
    requires t in b[i].txs && b[i].txs[t].pc == Done(CancelWrote(c, seen))
    ensures Cancels(b, actions, k, m, i, t, c, seen)
  {
    m := FindLock(b, actions, i, t, c, seen);
    k := FindRead(b, actions, m, t, c, seen);
    forall j: nat | k < j <= i ensures HasRead(b[j], t, c, seen) {
      if j > m {
        LockedHasRead(b[j], t, c, seen);
      }
    }
  }

  // ----- what the lock protects -----

  lemma StepKeepsLockedCampaign(s: Sys, a: Action, t: nat, c: Id, seen: CampaignStatus)
    requires Inv(s) && Enabled(s, a) && HasLocked(s, t, c, seen) && t in Apply(s, a).txs && c in s.db.campaigns
    ensures c in Apply(s, a).db.campaigns && Apply(s, a).db.campaigns[c] == s.db.campaigns[c]
  {
    assert TxOk(s.db, s.txs[t]);
    if a.Commit? {
      assert c in s.txs[t].w.campaigns && c !in s.txs[a.t].w.campaigns;
    }
  }

  // From its lock on, the committed campaign stays what the cancellation found there.
  lemma {:induction false} LockedCampaignStands(b: seq<Sys>, actions: seq<Action>, m: nat, i: nat, t: nat, c: Id,
                                                seen: CampaignStatus)
    requires Behaviour(b, actions) && m < i < |b| && LocksAt(b, actions, m, t, c, seen)
    requires forall j: nat :: m < j <= i ==> HasLocked(b[j], t, c, seen)
    ensures c in b[i].db.campaigns && b[i].db.campaigns[c] == b[m].db.campaigns[c]
    decreases i
  {
    assert StepAt(b, actions, i - 1);
    if i > m + 1 {
      LockedCampaignStands(b, actions, m, i - 1, t, c, seen);
      BehaviourKeepsInv(b, actions, i - 1);
      assert HasLocked(b[i - 1], t, c, seen) && HasLocked(b[i], t, c, seen);
      StepKeepsLockedCampaign(b[i - 1], actions[i - 1], t, c, seen);
    }
  }

  // The buffer of a committing cancellation holds the run of its campaign, cancelled.
  lemma CancelHoldsItsRun(db: Db, tx: Tx, c: Id, seen: CampaignStatus, r: Id)
    requires TxOk(db, tx) && tx.pc == Done(CancelWrote(c, seen)) && Owns(db.runs, r, c)
    ensures r in tx.w.runs && Merge(db, tx.w).runs[r].status.Cancelled?
  {
  }

  // The exact condition: a cancellation replaces an outcome when it commits if and only if the campaign
  // already had one when it took the lock. Its UPDATE has no guard that looks.
  lemma CancelOverwritesIff(b: seq<Sys>, actions: seq<Action>, k: nat, m: nat, i: nat, t: nat, c: Id,
                            seen: CampaignStatus, r: Id)
    requires Behaviour(b, actions) && Cancels(b, actions, k, m, i, t, c, seen) && Owns(b[i].db.runs, r, c)
    ensures r in b[i + 1].db.runs && b[i + 1].db.runs[r].status.Cancelled?
    ensures HasOutcome(b[i].db.runs[r].status) <==> CampaignHasOutcome(b[m].db.campaigns[c].status)
  {
    BehaviourKeepsInv(b, actions, i);
    assert StepAt(b, actions, i);
    assert TxOk(b[i].db, b[i].txs[t]);
    CancelHoldsItsRun(b[i].db, b[i].txs[t], c, seen, r);
    LockedCampaignStands(b, actions, m, i, t, c, seen);
    assert RunMirrored(b[i].db.campaigns, b[i].db.runs[r]);
  }

  // ----- only such cancellations -----

  // Step `i` commits a cancellation of campaign `c`.
  predicate CommitsCancelOf(b: seq<Sys>, actions: seq<Action>, i: nat, c: Id)
    requires |b| == |actions| + 1 && i < |actions|
  {
    && actions[i].Commit? && actions[i].t in b[i].txs
    && var pc := b[i].txs[actions[i].t].pc; pc.Done? && pc.result.CancelWrote? && pc.result.campaignId == c
  }

  // Step `j` commits a `finish_run` that writes run `r`.
  predicate CommitsFinishOf(b: seq<Sys>, actions: seq<Action>, j: nat, r: Id)
    requires |b| == |actions| + 1 && j < |actions|
  {
    && actions[j].Commit? && actions[j].t in b[j].txs
    && b[j].txs[actions[j].t].pc == Done(Finished) && r in b[j].txs[actions[j].t].w.runs
  }

  lemma OnlyCommitsChangeRuns(s: Sys, a: Action, r: Id)
    requires Enabled(s, a) && r in s.db.runs && r in Apply(s, a).db.runs && Apply(s, a).db.runs[r] != s.db.runs[r]
    ensures a.Commit? && a.t in s.txs && r in s.txs[a.t].w.runs && Apply(s, a).db.runs[r] == s.txs[a.t].w.runs[r]
  {
  }

  lemma LateWriterIsCancel(db: Db, tx: Tx, r: Id)
    requires tx.pc.Done? && TxOk(db, tx) && r in db.runs && HasOutcome(db.runs[r].status) && r in tx.w.runs
    ensures tx.pc.result.CancelWrote? && tx.pc.result.campaignId == db.runs[r].campaignId
  {
    assert RunMirrored(tx.w.campaigns, tx.w.runs[r]);
  }

  lemma OutcomeWriterIsFinish(db: Db, tx: Tx, r: Id)
    requires tx.pc.Done? && TxOk(db, tx) && r in db.runs && r in tx.w.runs && HasOutcome(tx.w.runs[r].status)
    ensures tx.pc.result == Finished
  {
    assert Advances(db.runs[r].status, tx.w.runs[r].status);
  }

  // A run that got an outcome between two states got it from a `finish_run` that committed in between.
  lemma {:induction false} FinishedInBetween(b: seq<Sys>, actions: seq<Action>, k: nat, m: nat, r: Id) returns (j: nat)
    requires Behaviour(b, actions) && k <= m < |b| && r in b[k].db.runs && !HasOutcome(b[k].db.runs[r].status)
    requires r in b[m].db.runs && HasOutcome(b[m].db.runs[r].status)
    ensures k <= j < m && CommitsFinishOf(b, actions, j, r)
    decreases m
  {
    j := m - 1;
    BehaviourKeepsInv(b, actions, j);
    assert StepAt(b, actions, j);
    StatusNeverRegresses(b, actions, k, j, r);
    if HasOutcome(b[j].db.runs[r].status) {
      j := FinishedInBetween(b, actions, k, j, r);
    } else {
      OnlyCommitsChangeRuns(b[j], actions[j], r);
      assert TxOk(b[j].db, b[j].txs[actions[j].t]);
      OutcomeWriterIsFinish(b[j].db, b[j].txs[actions[j].t], r);
    }
  }

  lemma {:induction false} OwnerIsKept(b: seq<Sys>, actions: seq<Action>, k: nat, i: nat, r: Id, c: Id)
    requires Behaviour(b, actions) && k <= i < |b| && Owns(b[k].db.runs, r, c)
    ensures Owns(b[i].db.runs, r, c)
    decreases i
  {
    if k < i {
      OwnerIsKept(b, actions, k, i - 1, r, c);
      BehaviourKeepsInv(b, actions, i - 1);
      assert StepAt(b, actions, i - 1);
      StepAdvancesRuns(b[i - 1], actions[i - 1], r);
    }
  }

  // The run of a committed campaign was already its run in every state that has the campaign.
  lemma OwnerSince(b: seq<Sys>, actions: seq<Action>, k: nat, i: nat, r: Id, c: Id)
    requires Behaviour(b, actions) && k <= i < |b| && c in b[k].db.campaigns && Owns(b[i].db.runs, r, c)
    ensures Owns(b[k].db.runs, r, c)
  {
    BehaviourKeepsInv(b, actions, k);
    BehaviourKeepsInv(b, actions, i);
    assert HasRun(b[k].db.runs, c);
    var q :| q in b[k].db.runs && Owns(b[k].db.runs, q, c);
    OwnerIsKept(b, actions, k, i, q, c);
  }

  // A step of a behaviour replaces a committed Completed or Failed if and only if it commits a
  // cancellation of the run's campaign. That cancellation read the campaign, not terminal, at `k` and
  // locked it at `m`; the finish it overwrites committed at `j` in between.
  lemma OverwriteIsAStaleCancel(b: seq<Sys>, actions: seq<Action>, i: nat, r: Id) returns (k: nat, j: nat, m: nat)
    requires Behaviour(b, actions) && i < |actions| && r in b[i].db.runs && HasOutcome(b[i].db.runs[r].status)
    ensures r in b[i + 1].db.runs
    ensures b[i + 1].db.runs[r].status != b[i].db.runs[r].status
            <==> CommitsCancelOf(b, actions, i, b[i].db.runs[r].campaignId)
    ensures b[i + 1].db.runs[r].status != b[i].db.runs[r].status ==>
      && b[i + 1].db.runs[r].status.Cancelled?
      && var t, c := actions[i].t, b[i].db.runs[r].campaignId;
         && Cancels(b, actions, k, m, i, t, c, b[i].txs[t].pc.result.seen)
         && CampaignHasOutcome(b[m].db.campaigns[c].status)
         && k < j < m && CommitsFinishOf(b, actions, j, r)
  {
    k, j, m := 0, 0, 0;
    BehaviourKeepsInv(b, actions, i);
    assert StepAt(b, actions, i);
    StepAdvancesRuns(b[i], actions[i], r);
    var c := b[i].db.runs[r].campaignId;
    if CommitsCancelOf(b, actions, i, c) {
      k, j, m := StaleCancelHistory(b, actions, i, r);
    } else if b[i + 1].db.runs[r].status != b[i].db.runs[r].status {
      OnlyCommitsChangeRuns(b[i], actions[i], r);
      assert TxOk(b[i].db, b[i].txs[actions[i].t]);
      LateWriterIsCancel(b[i].db, b[i].txs[actions[i].t], r);
    }
  }

  lemma StaleCancelHistory(b: seq<Sys>, actions: seq<Action>, i: nat, r: Id) returns (k: nat, j: nat, m: nat)
    requires Behaviour(b, actions) && i < |actions| && r in b[i].db.runs && HasOutcome(b[i].db.runs[r].status)
    requires CommitsCancelOf(b, actions, i, b[i].db.runs[r].campaignId)
    ensures r in b[i + 1].db.runs && b[i + 1].db.runs[r].status.Cancelled?
    ensures var t, c := actions[i].t, b[i].db.runs[r].campaignId;
            && Cancels(b, actions, k, m, i, t, c, b[i].txs[t].pc.result.seen)
            && CampaignHasOutcome(b[m].db.campaigns[c].status)
            && k < j < m && CommitsFinishOf(b, actions, j, r)
  {
    var t, c := actions[i].t, b[i].db.runs[r].campaignId;
    var seen := b[i].txs[t].pc.result.seen;
    k, m := EveryCancelReadsThenLocks(b, actions, i, t, c, seen);
    CancelOverwritesIff(b, actions, k, m, i, t, c, seen, r);
    OwnerSince(b, actions, k, i, r, c);
    OwnerSince(b, actions, m, i, r, c);
    BehaviourKeepsInv(b, actions, k);
    BehaviourKeepsInv(b, actions, m);
    assert RunMirrored(b[k].db.campaigns, b[k].db.runs[r]) && RunMirrored(b[m].db.campaigns, b[m].db.runs[r]);
    j := FinishedInBetween(b, actions, k, m, r);
  }

  // Step `i` leaves an outcome of run `r` as it is.
  predicate OutcomeKept(b: seq<Sys>, i: nat, r: Id)
    requires i + 1 < |b|
  {
    r in b[i].db.runs && HasOutcome(b[i].db.runs[r].status) ==>
      r in b[i + 1].db.runs && b[i + 1].db.runs[r].status == b[i].db.runs[r].status
  }

  // No cancellation that commits found an outcome when it locked its campaign.
  ghost predicate LocksFindNoOutcome(b: seq<Sys>, actions: seq<Action>)
    requires |b| == |actions| + 1
  {
    forall k: nat, m: nat, i: nat, t: nat, c, seen ::
      Cancels(b, actions, k, m, i, t, c, seen) ==> !CampaignHasOutcome(b[m].db.campaigns[c].status)
  }

  // Outcomes are final in a behaviour if and only if every such lock found the campaign without one.
  lemma OutcomesAreFinalIff(b: seq<Sys>, actions: seq<Action>)
    requires Behaviour(b, actions)
    ensures (forall i: nat, r :: i < |actions| ==> OutcomeKept(b, i, r)) <==> LocksFindNoOutcome(b, actions)
  {
    if forall i: nat, r :: i < |actions| ==> OutcomeKept(b, i, r) {
      forall k: nat, m: nat, i: nat, t: nat, c, seen | Cancels(b, actions, k, m, i, t, c, seen)
        ensures !CampaignHasOutcome(b[m].db.campaigns[c].status)
      {
        var r := RunUnderCancel(b, actions, k, m, i, t, c, seen);
        CancelOverwritesIff(b, actions, k, m, i, t, c, seen, r);
        assert OutcomeKept(b, i, r);
      }
    }
    if LocksFindNoOutcome(b, actions) {
      forall i: nat, r | i < |actions| ensures OutcomeKept(b, i, r) {
        if r in b[i].db.runs && HasOutcome(b[i].db.runs[r].status) {
          var k, j, m := OverwriteIsAStaleCancel(b, actions, i, r);
        }
      }
    }
  }

  lemma RunUnderCancel(b: seq<Sys>, actions: seq<Action>, k: nat, m: nat, i: nat, t: nat, c: Id, seen: CampaignStatus)
    returns (r: Id)
    requires Behaviour(b, actions) && Cancels(b, actions, k, m, i, t, c, seen)
    ensures Owns(b[i].db.runs, r, c)
  {
    LockedCampaignStands(b, actions, m, i, t, c, seen);
    BehaviourKeepsInv(b, actions, i);
    assert HasRun(b[i].db.runs, c);
    r :| r in b[i].db.runs && Owns(b[i].db.runs, r, c);
  }
}
