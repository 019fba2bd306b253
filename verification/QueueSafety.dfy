// The job queue in every statement-level interleaving: `create_campaign` commits its run and its job
// together, so no run is ever without its one job.

module QueueSafety {
  import opened Prelude
  import opened Records
  import Store
  import opened Transactions
  import opened TransactionSafety

  // A buffer holds a job exactly when its transaction has created one, and then just that, for its run.
  ghost predicate JobsHeld(db: Db, tx: Tx) {
    var jobs := tx.w.jobs;
    if tx.pc.Done? && tx.pc.result.Created? then
      && jobs != map[]
      && (forall j :: j in jobs ==>
           j !in db.jobs && jobs[j].runId == tx.pc.result.runId && jobs[j].campaignId == tx.pc.result.campaignId)
      && (forall j, k :: j in jobs && k in jobs ==> j == k)
    else jobs == map[]
  }

  ghost predicate QueueInv(s: Sys) {
    && OneJobEach(s.db)
    && s.db.jobs.Keys <= s.used
    && (forall t :: t in s.txs ==> JobsHeld(s.db, s.txs[t]) && s.txs[t].w.jobs.Keys <= s.used)
    && (forall t, u :: t in s.txs && u in s.txs && t != u ==> s.txs[t].w.jobs.Keys !! s.txs[u].w.jobs.Keys)
  }

  // A buffer about to commit brings a new run only together with its job.
  lemma MergeKeepsJobs(db: Db, tx: Tx)
    requires OneJobEach(db) && TxOk(db, tx) && tx.pc.Done? && JobsHeld(db, tx)
    ensures OneJobEach(Merge(db, tx.w))
  {
    if tx.pc.result.Created? {
      MergeKeepsCreatedJob(db, tx);
    } else {
      Store.SameQueueKeepsJobs(db, Merge(db, tx.w));
    }
  }

  lemma MergeKeepsCreatedJob(db: Db, tx: Tx)
    requires OneJobEach(db) && TxOk(db, tx) && tx.pc.Done? && tx.pc.result.Created? && JobsHeld(db, tx)
    ensures OneJobEach(Merge(db, tx.w))
  {
    var db' := Merge(db, tx.w);
    var cid, rid := tx.pc.result.campaignId, tx.pc.result.runId;
    var jid :| jid in tx.w.jobs;
    assert RunMirrored(tx.w.campaigns, tx.w.runs[rid]);
    forall j | j in db'.jobs ensures Owns(db'.runs, db'.jobs[j].runId, db'.jobs[j].campaignId) {
      assert j !in tx.w.jobs ==> Owns(db.runs, db.jobs[j].runId, db.jobs[j].campaignId);
    }
    forall j, k, r | Serves(db'.jobs, j, r) && Serves(db'.jobs, k, r) ensures j == k {
      assert j != jid ==> Serves(db.jobs, j, r) && Owns(db.runs, r, db.jobs[j].campaignId);
      assert k != jid ==> Serves(db.jobs, k, r) && Owns(db.runs, r, db.jobs[k].campaignId);
    }
    forall r | r in db'.runs ensures HasJob(db'.jobs, r) {
      if r == rid {
        assert Serves(db'.jobs, jid, r);
      } else {
        assert HasJob(db.jobs, r);
        var j :| j in db.jobs && Serves(db.jobs, j, r);
        assert Serves(db'.jobs, j, r);
      }
    }
  }

  lemma StatementKeepsJobs(s: Sys, a: Action)
    requires QueueInv(s) && Enabled(s, a) && a.Statement?
    ensures QueueInv(Apply(s, a))
  {
    var tx := s.txs[a.t];
    var tx' := Execute(s.db, tx, a.newId);
    assert JobsHeld(s.db, tx);
    assert tx'.w.jobs == tx.w.jobs || (tx.pc.InsertJob? && tx'.w.jobs.Keys == {a.newId} && a.newId !in s.used);
  }

  lemma CommitKeepsJobs(s: Sys, t: nat)
    requires Inv(s) && QueueInv(s) && Enabled(s, Commit(t))
    ensures QueueInv(Apply(s, Commit(t)))
  {
    var s' := Apply(s, Commit(t));
    assert TxOk(s.db, s.txs[t]);
    MergeKeepsJobs(s.db, s.txs[t]);
    forall u | u in s'.txs ensures JobsHeld(s'.db, s'.txs[u]) {
      assert JobsHeld(s.db, s.txs[u]);
    }
  }

  lemma StepKeepsQueue(s: Sys, a: Action)
    requires Inv(s) && QueueInv(s) && Enabled(s, a)
    ensures QueueInv(Apply(s, a))
  {
    match a
    case Begin(_, _, _) =>
    case Statement(_, _) => StatementKeepsJobs(s, a);
    case Commit(t) => CommitKeepsJobs(s, t);
    case Abort(_) =>
    case Claim(_, _) => Store.SameQueueKeepsJobs(s.db, Apply(s, a).db);
  }

  lemma {:induction false} BehaviourKeepsQueue(b: seq<Sys>, actions: seq<Action>, i: nat)
    requires Behaviour(b, actions) && i < |b|
    ensures QueueInv(b[i])
  {
    if i > 0 {
      BehaviourKeepsQueue(b, actions, i - 1);
      BehaviourKeepsInv(b, actions, i - 1);
      assert StepAt(b, actions, i - 1);
      StepKeepsQueue(b[i - 1], actions[i - 1]);
    }
  }

  // In every interleaving, each committed campaign has exactly one committed run and one committed job,
  // and the job names both.
  lemma OneRunAndJobEach(b: seq<Sys>, actions: seq<Action>, i: nat, c: Id) returns (r: Id, j: Id)
    requires Behaviour(b, actions) && i < |b| && c in b[i].db.campaigns
    ensures Owns(b[i].db.runs, r, c) && forall q :: Owns(b[i].db.runs, q, c) ==> q == r
    ensures j in b[i].db.jobs && b[i].db.jobs[j].runId == r && b[i].db.jobs[j].campaignId == c
    ensures forall k :: k in b[i].db.jobs && (b[i].db.jobs[k].campaignId == c || b[i].db.jobs[k].runId == r) ==> k == j
  {
    var db := b[i].db;
    BehaviourKeepsInv(b, actions, i);
    BehaviourKeepsQueue(b, actions, i);
    assert HasRun(db.runs, c);
    r :| r in db.runs && Owns(db.runs, r, c);
    assert HasJob(db.jobs, r);
    j :| j in db.jobs && Serves(db.jobs, j, r);
    assert Owns(db.runs, r, db.jobs[j].campaignId);
    forall k | k in db.jobs && (db.jobs[k].campaignId == c || db.jobs[k].runId == r) ensures k == j {
      assert Owns(db.runs, db.jobs[k].runId, db.jobs[k].campaignId);
      assert Serves(db.jobs, k, r);
    }
  }
}
