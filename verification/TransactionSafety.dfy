// What every statement-level interleaving of the store's transactions keeps.

module TransactionSafety {
  import opened Prelude
  import opened Records
  import opened Transactions

  // ----- one step -----

  lemma {:induction false} StatementKeepsTx(db: Db, tx: Tx, newId: Id)
    requires Consistent(db) && TxOk(db, tx)
    requires tx.pc.InsertCampaign? ==> newId !in db.campaigns
    requires tx.pc.InsertRun? ==> newId !in db.runs
    ensures TxOk(db, Execute(db, tx, newId))
  {
    match tx.pc
    case InsertCampaign(_) => InsertKeepsTx(db, tx, newId);
    case InsertRun(_) => InsertKeepsTx(db, tx, newId);
    case InsertJob(_, _) => InsertKeepsTx(db, tx, newId);
    case StartRun(_) => StartRunKeepsTx(db, tx, newId);
    case StartRunWait(_) => StartRunKeepsTx(db, tx, newId);
    case StartDeleteFindings(_, _) => StartRunKeepsTx(db, tx, newId);
    case StartCampaign(_, _) => StartCampaignKeepsTx(db, tx, newId);
    case StartCampaignWait(_, _) => StartCampaignKeepsTx(db, tx, newId);
    case FinishRun(_, _) => FinishKeepsTx(db, tx, newId);
    case FinishRunWait(_, _) => FinishKeepsTx(db, tx, newId);
    case FinishCampaign(_, _, _) => FinishKeepsTx(db, tx, newId);
    case FinishFindings(_, _) => FinishKeepsTx(db, tx, newId);
    case CancelRead(_) => UntouchedBalanced(db, tx.w);
    case CancelCampaign(_, _) =>
    case CancelRuns(_, _) => CancelRunsKeepsTx(db, tx, newId);
    case Done(_) =>
  }

  lemma InsertKeepsTx(db: Db, tx: Tx, newId: Id)
    requires Consistent(db) && TxOk(db, tx)
    requires tx.pc.InsertCampaign? || tx.pc.InsertRun? || tx.pc.InsertJob?
    requires tx.pc.InsertCampaign? ==> newId !in db.campaigns
    requires tx.pc.InsertRun? ==> newId !in db.runs
    ensures TxOk(db, Execute(db, tx, newId))
  {
    if tx.pc.InsertRun? {
      SingleRunBalanced(db, Execute(db, tx, newId).w, newId, tx.pc.cid);
    }
  }

  lemma StartRunKeepsTx(db: Db, tx: Tx, newId: Id)
    requires Consistent(db) && TxOk(db, tx)
    requires tx.pc.StartRun? || tx.pc.StartRunWait? || tx.pc.StartDeleteFindings?
    ensures TxOk(db, Execute(db, tx, newId))
  {
    if tx.pc.StartRun? || tx.pc.StartRunWait? {
      UntouchedBalanced(db, tx.w);
    }
  }

  lemma FinishKeepsTx(db: Db, tx: Tx, newId: Id)
    requires Consistent(db) && TxOk(db, tx)
    requires tx.pc.FinishRun? || tx.pc.FinishRunWait? || tx.pc.FinishCampaign? || tx.pc.FinishFindings?
    ensures TxOk(db, Execute(db, tx, newId))
  {
    if tx.pc.FinishRun? || tx.pc.FinishRunWait? {
      UntouchedBalanced(db, tx.w);
    } else if tx.pc.FinishCampaign? {
      assert RunMirrored(db.campaigns, db.runs[tx.pc.rid]);
      SingleRunBalanced(db, Execute(db, tx, newId).w, tx.pc.rid, tx.pc.cid);
    }
  }

  lemma UntouchedBalanced(db: Db, w: Writes)
    requires Untouched(w)
    ensures Balanced(db, w)
  {
  }

  // `start_run` holds the run's lock while it is committed Pending, so the campaign is Queued and
  // both guards on it pass.
  lemma StartCampaignKeepsTx(db: Db, tx: Tx, newId: Id)
    requires Consistent(db) && TxOk(db, tx) && (tx.pc.StartCampaign? || tx.pc.StartCampaignWait?)
    ensures TxOk(db, Execute(db, tx, newId))
    ensures tx.pc.StartCampaign? ==> Execute(db, tx, newId).pc.StartCampaignWait?
    ensures tx.pc.StartCampaignWait? ==> tx.pc.cid in Execute(db, tx, newId).w.campaigns
  {
    assert RunMirrored(db.campaigns, db.runs[tx.pc.rid]);
    if tx.pc.StartCampaignWait? {
      SingleRunBalanced(db, Execute(db, tx, newId).w, tx.pc.rid, tx.pc.cid);
    }
  }

  lemma CancelRunsKeepsTx(db: Db, tx: Tx, newId: Id)
    requires Consistent(db) && tx.pc.CancelRuns? && TxOk(db, tx)
    ensures TxOk(db, Execute(db, tx, newId))
  {
    var cid := tx.pc.cid;
    var w' := Execute(db, tx, newId).w;
    assert HasRun(db.runs, cid);
    var r :| r in db.runs && Owns(db.runs, r, cid);
    assert RunMirrored(db.campaigns, db.runs[r]);
    forall q | q in w'.runs ensures q == r {
      assert Owns(db.runs, q, cid);
    }
    assert w'.runs.Keys == {r};
    SingleRunBalanced(db, w', r, cid);
  }

  // A buffer with one campaign and its one run, alike, is balanced.
  lemma SingleRunBalanced(db: Db, w: Writes, rid: Id, cid: Id)
    requires Consistent(db)
    requires w.runs.Keys == {rid} && w.campaigns.Keys == {cid}
    requires w.runs[rid].campaignId == cid && RunMirrored(w.campaigns, w.runs[rid])
    requires if rid in db.runs
             then db.runs[rid].campaignId == cid && Advances(db.runs[rid].status, w.runs[rid].status)
             else cid !in db.campaigns
    ensures Balanced(db, w)
  {
    assert Owns(w.runs, rid, cid);
    forall r, c | Owns(db.runs, r, c) && c in w.campaigns ensures r in w.runs {
      assert RunMirrored(db.campaigns, db.runs[r]);
      assert rid in db.runs ==> Owns(db.runs, rid, cid);
    }
  }

  // The rows a statement locks are held by nobody else.
  lemma NewLocksAreFree(s: Sys, t: nat, newId: Id)
    requires Inv(s) && t in s.txs && CanStep(s, t, newId)
    ensures var w, w' := s.txs[t].w, Execute(s.db, s.txs[t], newId).w;
            && (forall r :: r in w'.runs && r !in w.runs ==> RunFree(s, t, r))
            && (forall c :: c in w'.campaigns && c !in w.campaigns ==> CampaignFree(s, t, c))
            && w'.campaigns.Keys <= s.used + {newId} && w'.runs.Keys <= s.used + {newId}
  {
    assert TxOk(s.db, s.txs[t]);
  }

  // A statement locks only rows nobody else holds.
  lemma StatementKeepsLocks(s: Sys, t: nat, newId: Id)
    requires Inv(s) && t in s.txs && CanStep(s, t, newId)
    ensures var s' := s.(txs := s.txs[t := Execute(s.db, s.txs[t], newId)], used := s.used + {newId});
            Exclusive(s') && IdsUsed(s')
  {
    NewLocksAreFree(s, t, newId);
    LocksStayExclusive(s, t, Execute(s.db, s.txs[t], newId), newId);
  }

  lemma LocksStayExclusive(s: Sys, t: nat, tx': Tx, newId: Id)
    requires Exclusive(s) && IdsUsed(s) && t in s.txs
    requires forall r :: r in tx'.w.runs && r !in s.txs[t].w.runs ==> RunFree(s, t, r)
    requires forall c :: c in tx'.w.campaigns && c !in s.txs[t].w.campaigns ==> CampaignFree(s, t, c)
    requires tx'.w.campaigns.Keys <= s.used + {newId} && tx'.w.runs.Keys <= s.used + {newId}
    ensures var s' := s.(txs := s.txs[t := tx'], used := s.used + {newId}); Exclusive(s') && IdsUsed(s')
  {
  }

  // Committing a balanced buffer keeps the tables consistent.
  lemma MergeKeepsConsistent(db: Db, w: Writes)
    requires Consistent(db) && Balanced(db, w)
    ensures Consistent(Merge(db, w))
  {
    var db' := Merge(db, w);
    forall r | r in db'.runs ensures RunMirrored(db'.campaigns, db'.runs[r]) {
      if r in w.runs {
        assert RunMirrored(w.campaigns, w.runs[r]);
      } else {
        assert RunMirrored(db.campaigns, db.runs[r]);
        assert Owns(db.runs, r, db.runs[r].campaignId);
      }
    }
    forall r, q, c | Owns(db'.runs, r, c) && Owns(db'.runs, q, c) ensures r == q {
      MergedOwner(db, w, r, c);
      MergedOwner(db, w, q, c);
    }
    forall c | c in db'.campaigns ensures HasRun(db'.runs, c) {
      if c in w.campaigns {
        assert HasRun(w.runs, c);
        var r :| Owns(w.runs, r, c);
        assert Owns(db'.runs, r, c);
      } else {
        assert HasRun(db.runs, c);
        var r :| Owns(db.runs, r, c);
        assert Owns(db'.runs, r, c);
      }
    }
  }

  lemma MergedOwner(db: Db, w: Writes, r: Id, c: Id)
    requires Consistent(db) && Balanced(db, w) && Owns(Merge(db, w).runs, r, c)
    ensures if c in w.campaigns then Owns(w.runs, r, c) else Owns(db.runs, r, c)
  {
    if r in w.runs {
      assert RunMirrored(w.campaigns, w.runs[r]);
    } else {
      assert Owns(db.runs, r, c);
    }
  }

  // A commit by another transaction leaves what `tx` relies on alone: its rows are locked.
  lemma MergeKeepsOtherTx(db: Db, w: Writes, tx: Tx)
    requires Consistent(db) && Balanced(db, w) && TxOk(db, tx)
    requires w.campaigns.Keys !! tx.w.campaigns.Keys && w.runs.Keys !! tx.w.runs.Keys
    ensures TxOk(Merge(db, w), tx)
  {
    if Balanced(db, tx.w) {
      MergeKeepsOtherBalanced(db, w, tx.w);
    }
  }

  lemma MergeKeepsOtherBalanced(db: Db, w: Writes, other: Writes)
    requires Consistent(db) && Balanced(db, w) && Balanced(db, other)
    requires w.campaigns.Keys !! other.campaigns.Keys && w.runs.Keys !! other.runs.Keys
    ensures Balanced(Merge(db, w), other)
  {
    forall r, c | Owns(Merge(db, w).runs, r, c) && c in other.campaigns ensures r in other.runs {
      MergedOwner(db, w, r, c);
    }
  }

  lemma CommitKeepsInv(s: Sys, t: nat)
    requires Inv(s) && Enabled(s, Commit(t))
    ensures Inv(Apply(s, Commit(t)))
  {
    var s' := Apply(s, Commit(t));
    var w := s.txs[t].w;
    assert TxOk(s.db, s.txs[t]);
    MergeKeepsConsistent(s.db, w);
    forall u | u in s'.txs ensures TxOk(s'.db, s'.txs[u]) {
      assert TxOk(s.db, s.txs[u]);
      MergeKeepsOtherTx(s.db, w, s.txs[u]);
    }
    CommitKeepsStartedOnce(s, t);
  }

  // The committing start found its run Pending, so the run was not in the log.
  lemma CommitKeepsStartedOnce(s: Sys, t: nat)
    requires StartedOnce(s) && Enabled(s, Commit(t)) && TxOk(s.db, s.txs[t])
    ensures StartedOnce(Apply(s, Commit(t)))
  {
  }

  lemma StepKeepsInv(s: Sys, a: Action)
    requires Inv(s) && Enabled(s, a)
    ensures Inv(Apply(s, a))
  {
    match a
    case Begin(_, _, _) => BeginKeepsInv(s, a);
    case Statement(t, newId) =>
      StatementKeepsTx(s.db, s.txs[t], newId);
      StatementKeepsLocks(s, t, newId);
    case Commit(t) => CommitKeepsInv(s, t);
    case Abort(_) => BeginKeepsInv(s, a);
    case Claim(_, _) => ClaimKeepsInv(s, a);
  }

  lemma BeginKeepsInv(s: Sys, a: Action)
    requires Inv(s) && Enabled(s, a) && (a.Begin? || a.Abort?)
    ensures Inv(Apply(s, a))
  {
  }

  lemma ClaimKeepsInv(s: Sys, a: Action)
    requires Inv(s) && Enabled(s, a) && a.Claim?
    ensures Inv(Apply(s, a))
  {
    var s' := Apply(s, a);
    forall u | u in s'.txs ensures TxOk(s'.db, s'.txs[u]) {
      assert TxOk(s.db, s.txs[u]);
    }
  }

  // What one step does to a committed run row: nothing is deleted, and the status either stays or advances.
  lemma StepAdvancesRuns(s: Sys, a: Action, r: Id)
    requires Inv(s) && Enabled(s, a) && r in s.db.runs
    ensures var s' := Apply(s, a);
            && r in s'.db.runs
            && s'.db.runs[r].campaignId == s.db.runs[r].campaignId
            && (s'.db.runs[r].status == s.db.runs[r].status || Advances(s.db.runs[r].status, s'.db.runs[r].status))
  {
    if a.Commit? {
      assert TxOk(s.db, s.txs[a.t]);
      MergeAdvances(s.db, s.txs[a.t].w, r);
    }
  }

  lemma MergeAdvances(db: Db, w: Writes, r: Id)
    requires Balanced(db, w) && r in db.runs
    ensures var db' := Merge(db, w);
            && r in db'.runs
            && db'.runs[r].campaignId == db.runs[r].campaignId
            && (db'.runs[r].status == db.runs[r].status || Advances(db.runs[r].status, db'.runs[r].status))
  {
  }

  // ----- whole behaviours -----

  lemma {:induction false} BehaviourKeepsInv(b: seq<Sys>, actions: seq<Action>, i: nat)
    requires Behaviour(b, actions) && i < |b|
    ensures Inv(b[i])
  {
    if i > 0 {
      BehaviourKeepsInv(b, actions, i - 1);
      assert StepAt(b, actions, i - 1);
      StepKeepsInv(b[i - 1], actions[i - 1]);
    }
  }

  // In every interleaving, each committed campaign has exactly one committed run and mirrors it.
  lemma CommittedStatusesMirror(b: seq<Sys>, actions: seq<Action>, i: nat)
    requires Behaviour(b, actions) && i < |b|
    ensures forall r :: r in b[i].db.runs ==> RunMirrored(b[i].db.campaigns, b[i].db.runs[r])
    ensures forall c :: c in b[i].db.campaigns ==> exists r :: Owns(b[i].db.runs, r, c)
    ensures forall r, q, c :: Owns(b[i].db.runs, r, c) && Owns(b[i].db.runs, q, c) ==> r == q
  {
    BehaviourKeepsInv(b, actions, i);
    forall c | c in b[i].db.campaigns ensures exists r :: Owns(b[i].db.runs, r, c) {
      assert HasRun(b[i].db.runs, c);
    }
  }

  // The stages a committed run status passes through.
  function Stage(status: RunStatus): nat {
    match status
    case Pending => 0
    case Running => 1
    case Completed => 2
    case Failed => 2
    case Cancelled => 3
  }

  // Committed runs never disappear and never go back a stage; a status kept at its stage is unchanged.
  lemma {:induction false} StatusNeverRegresses(b: seq<Sys>, actions: seq<Action>, i: nat, j: nat, r: Id)
    requires Behaviour(b, actions) && i <= j < |b| && r in b[i].db.runs
    ensures r in b[j].db.runs
    ensures var before, after := b[i].db.runs[r].status, b[j].db.runs[r].status;
            Stage(before) < Stage(after) || before == after
  {
    if i < j {
      StatusNeverRegresses(b, actions, i, j - 1, r);
      BehaviourKeepsInv(b, actions, j - 1);
      assert StepAt(b, actions, j - 1);
      StepAdvancesRuns(b[j - 1], actions[j - 1], r);
    }
  }

  // Once Cancelled is committed for a run, no racing `start_run` or `finish_run` ever overwrites it,
  // on the run or on its campaign.
  lemma CancelledIsForever(b: seq<Sys>, actions: seq<Action>, i: nat, j: nat, r: Id)
    requires Behaviour(b, actions) && i <= j < |b| && r in b[i].db.runs && b[i].db.runs[r].status.Cancelled?
    ensures r in b[j].db.runs && b[j].db.runs[r].status.Cancelled?
    ensures b[j].db.runs[r].campaignId in b[j].db.campaigns
    ensures b[j].db.campaigns[b[j].db.runs[r].campaignId].status.Cancelled?
  {
    StatusNeverRegresses(b, actions, i, j, r);
    BehaviourKeepsInv(b, actions, j);
    assert RunMirrored(b[j].db.campaigns, b[j].db.runs[r]);
  }

  // At most one `start_run` transaction ever commits as started for a run, so at most one worker is
  // ever told to invoke the runner for it.
  lemma StartCommitsAtMostOnce(b: seq<Sys>, actions: seq<Action>, i: nat)
    requires Behaviour(b, actions) && i < |b|
    ensures Distinct(b[i].started)
    ensures forall r :: r in b[i].started ==> r in b[i].db.runs && !b[i].db.runs[r].status.Pending?
  {
    BehaviourKeepsInv(b, actions, i);
  }

  // No two open transactions ever hold the same row.
  lemma LocksAreExclusive(b: seq<Sys>, actions: seq<Action>, i: nat, t: nat, u: nat)
    requires Behaviour(b, actions) && i < |b| && t in b[i].txs && u in b[i].txs && t != u
    ensures b[i].txs[t].w.runs.Keys !! b[i].txs[u].w.runs.Keys
    ensures b[i].txs[t].w.campaigns.Keys !! b[i].txs[u].w.campaigns.Keys
  {
    BehaviourKeepsInv(b, actions, i);
  }
}
