// The `Store` calls as atomic steps on the tables: what each call does when nothing interleaves with
// it. `PgStore` and `MockStore` are both proved against these functions.

module Store {
  import opened Prelude
  import opened Records

  datatype ClaimedJob = ClaimedJob(jobId: Id, campaignId: Id, runId: Id, attempts: int)

  function CreateCampaign(db: Db, input: NewCampaign, cid: Id, rid: Id, jid: Id, now: Time): Db {
    db.(campaigns := db.campaigns[cid := Campaign(input, CampaignStatus.Queued, now)],
        runs := db.runs[rid := NewRun(cid)],
        jobs := db.jobs[jid := Job(cid, rid, None, 0, now)])
  }

  function CancelCampaign(db: Db, cid: Id, now: Time): (Db, Option<Campaign>) {
    if cid !in db.campaigns || !HasRun(db.runs, cid) then (db, None)
    else if db.campaigns[cid].status.IsTerminal() then (db, Some(db.campaigns[cid]))
    else
      var cancelled := db.campaigns[cid].(status := CampaignStatus.Cancelled);
      (db.(campaigns := db.campaigns[cid := cancelled],
           runs := db.runs + CancelledRunsOf(db, cid, now)),
       Some(cancelled))
  }

  predicate Claimable(db: Db, j: Id) {
    && j in db.jobs
    && db.jobs[j].claimedBy.None?
    && db.jobs[j].runId in db.runs
    && db.runs[db.jobs[j].runId].status.Pending?
  }

  function ClaimRow(db: Db, j: Id, worker: string): Db
    requires j in db.jobs
  {
    db.(jobs := db.jobs[j := db.jobs[j].(claimedBy := Some(worker), attempts := db.jobs[j].attempts + 1)])
  }

  // Some claimable job is claimed and reported, or there is none.
  ghost predicate ClaimsAny(db: Db, worker: string, db': Db, claimed: Option<ClaimedJob>) {
    match claimed
    case None => db' == db && forall j :: j in db.jobs ==> !Claimable(db, j)
    case Some(job) =>
      && Claimable(db, job.jobId)
      && db' == ClaimRow(db, job.jobId, worker)
      && var row := db'.jobs[job.jobId];
         job == ClaimedJob(job.jobId, row.campaignId, row.runId, row.attempts)
  }

  // The claimed job is an oldest claimable one; ties are broken arbitrarily, so this is a relation.
  ghost predicate ClaimsOldest(db: Db, worker: string, db': Db, claimed: Option<ClaimedJob>) {
    && ClaimsAny(db, worker, db', claimed)
    && (claimed.Some? ==>
          forall j :: j in db.jobs && Claimable(db, j)
            ==> db.jobs[claimed.value.jobId].createdAt <= db.jobs[j].createdAt)
  }

  function StartRun(db: Db, rid: Id, now: Time): (Db, bool) {
    if rid in db.runs && db.runs[rid].status.Pending? then
      var cid := db.runs[rid].campaignId;
      (db.(runs := db.runs[rid := StartedRow(db.runs[rid], now)],
           findings := FindingsNotOf(db.findings, rid),
           campaigns := if cid in db.campaigns && db.campaigns[cid].status.Queued?
                        then db.campaigns[cid := db.campaigns[cid].(status := CampaignStatus.Running)]
                        else db.campaigns),
       true)
    else (db, false)
  }

  function FindingRows(rid: Id, bodies: seq<NewFinding>, ids: seq<Id>, now: Time): seq<Finding>
    requires |ids| == |bodies|
  {
    seq(|bodies|, i requires 0 <= i < |bodies| => Finding(ids[i], rid, bodies[i], now))
  }

  // None is the store's error: findings reference a run that does not exist.
  function FinishRun(db: Db, rid: Id, finish: RunFinish, ids: seq<Id>, now: Time): Option<Db>
    requires |ids| == |finish.findings|
  {
    var rows := FindingRows(rid, finish.findings, ids, now);
    if rid !in db.runs then (if finish.findings == [] then Some(db) else None)
    else if !db.runs[rid].status.Running? then Some(db.(findings := db.findings + rows))
    else
      var cid := db.runs[rid].campaignId;
      Some(db.(runs := db.runs[rid := FinishedRow(db.runs[rid], finish, now)],
               campaigns := if cid in db.campaigns
                            then db.campaigns[cid := db.campaigns[cid].(status := finish.status.ToCampaignStatus())]
                            else db.campaigns,
               findings := db.findings + rows))
  }

  // ----- what each call does, column by column -----

  // Every row but that of `key` is the same.
  ghost predicate SameBut<V>(rows: map<Id, V>, rows': map<Id, V>, key: Id) {
    rows'.Keys == rows.Keys + {key} && forall k :: k in rows && k != key ==> rows'[k] == rows[k]
  }

  lemma CreateDecides(db: Db, input: NewCampaign, cid: Id, rid: Id, jid: Id, now: Time)
    ensures var db' := CreateCampaign(db, input, cid, rid, jid, now);
            && SameBut(db.campaigns, db'.campaigns, cid) && SameBut(db.runs, db'.runs, rid)
            && SameBut(db.jobs, db'.jobs, jid) && db'.findings == db.findings
            && db'.campaigns[cid] == Campaign(input, CampaignStatus.Queued, now)
            && db'.runs[rid] == Run(cid, RunStatus.Pending, 0, None, None, None)
            && db'.jobs[jid] == Job(cid, rid, None, 0, now)
  {
  }

  // The claimed job waited unclaimed for a pending run, and is now claimed by the worker, once more.
  lemma ClaimDecides(db: Db, worker: string, db': Db, claimed: Option<ClaimedJob>)
    requires ClaimsOldest(db, worker, db', claimed)
    ensures claimed.None? ==> db' == db
    ensures claimed.None? <==> forall j :: j in db.jobs && db.jobs[j].claimedBy == None && db.jobs[j].runId in db.runs
                                       ==> db.runs[db.jobs[j].runId].status != RunStatus.Pending
    ensures claimed.Some? ==>
      var j, job := claimed.value.jobId, claimed.value;
      && j in db.jobs && db.jobs[j].claimedBy == None
      && db.jobs[j].runId in db.runs && db.runs[db.jobs[j].runId].status == RunStatus.Pending
      && db'.campaigns == db.campaigns && db'.runs == db.runs && db'.findings == db.findings
      && SameBut(db.jobs, db'.jobs, j)
      && db'.jobs[j] == Job(job.campaignId, job.runId, Some(worker), db.jobs[j].attempts + 1, db.jobs[j].createdAt)
      && job.campaignId == db.jobs[j].campaignId && job.runId == db.jobs[j].runId
      && job.attempts == db.jobs[j].attempts + 1
  {
    if claimed.None? {
      forall j | j in db.jobs && db.jobs[j].claimedBy == None && db.jobs[j].runId in db.runs
        ensures db.runs[db.jobs[j].runId].status != RunStatus.Pending
      {
        assert !Claimable(db, j);
      }
    }
  }

  // The rows of a run that is started, and of its campaign; the findings of an earlier attempt are gone.
  ghost predicate StartedFrom(db: Db, db': Db, rid: Id, now: Time)
    requires rid in db.runs && db.runs[rid].campaignId in db.campaigns
  {
    var run := db.runs[rid];
    var cid := run.campaignId;
    && SameBut(db.runs, db'.runs, rid) && SameBut(db.campaigns, db'.campaigns, cid) && db'.jobs == db.jobs
    && db'.runs[rid] == Run(cid, RunStatus.Running, run.iterations, Some(now), run.finishedAt, run.logTail)
    && db'.campaigns[cid]
       == Campaign(db.campaigns[cid].input, CampaignStatus.Running, db.campaigns[cid].createdAt)
    && FindingsOf(db'.findings, rid) == []
    && forall r :: r != rid ==> FindingsOf(db'.findings, r) == FindingsOf(db.findings, r)
  }

  // A run starts exactly if it is pending.
  lemma StartDecides(db: Db, rid: Id, now: Time)
    requires Consistent(db)
    ensures var (db', started) := StartRun(db, rid, now);
            && (started <==> rid in db.runs && db.runs[rid].status == RunStatus.Pending)
            && (!started ==> db' == db)
            && (started ==> db.runs[rid].campaignId in db.campaigns && StartedFrom(db, db', rid, now))
  {
    if rid in db.runs && db.runs[rid].status.Pending? {
      assert RunMirrored(db.campaigns, db.runs[rid]);
      forall r ensures FindingsOf(FindingsNotOf(db.findings, rid), r)
                       == if r == rid then [] else FindingsOf(db.findings, r)
      {
        OthersFindings(db.findings, rid, r);
      }
    }
  }

  lemma {:induction false} OthersFindings(findings: seq<Finding>, rid: Id, r: Id)
    ensures FindingsOf(FindingsNotOf(findings, rid), r) == if r == rid then [] else FindingsOf(findings, r)
  {
    if findings != [] {
      var others := FindingsNotOf(findings[1..], rid);
      assert FindingsNotOf(findings, rid) == if findings[0].runId == rid then others else [findings[0]] + others;
      OthersFindings(findings[1..], rid, r);
    }
  }

  // The findings of a report follow those already there, in order.
  ghost predicate Appended(findings: seq<Finding>, findings': seq<Finding>, rid: Id, bodies: seq<NewFinding>,
                           ids: seq<Id>, now: Time)
    requires |ids| == |bodies|
  {
    && |findings'| == |findings| + |bodies| && findings'[..|findings|] == findings
    && forall i :: 0 <= i < |bodies| ==> findings'[|findings| + i] == Finding(ids[i], rid, bodies[i], now)
  }

  // The rows of a running run that is finished, and of its campaign: the same outcome word on both, the
  // report's columns and nothing else.
  ghost predicate FinishedAs(db: Db, db': Db, rid: Id, finish: RunFinish, ids: seq<Id>, now: Time)
    requires rid in db.runs && db.runs[rid].campaignId in db.campaigns && |ids| == |finish.findings|
  {
    var run, cid := db.runs[rid], db.runs[rid].campaignId;
    && SameBut(db.runs, db'.runs, rid) && SameBut(db.campaigns, db'.campaigns, cid) && db'.jobs == db.jobs
    && var run', campaign, campaign' := db'.runs[rid], db.campaigns[cid], db'.campaigns[cid];
    && SaysOutcome(run'.status, finish.status)
    && (campaign'.status == CampaignStatus.Completed <==> finish.status == FinishStatus.Completed)
    && (campaign'.status == CampaignStatus.Cancelled <==> finish.status == FinishStatus.Cancelled)
    && (campaign'.status == CampaignStatus.Failed <==> finish.status == FinishStatus.Failed)
    && run'.iterations == finish.iterations && run'.logTail == finish.logTail && run'.finishedAt == Some(now)
    && run'.campaignId == run.campaignId && run'.startedAt == run.startedAt
    && campaign'.input == campaign.input && campaign'.createdAt == campaign.createdAt
    && Appended(db.findings, db'.findings, rid, finish.findings, ids, now)
  }

  // A finish writes the outcome exactly if the run is running, and adds the findings in any case; it
  // fails exactly if there are findings and no such run.
  lemma FinishDecides(db: Db, rid: Id, finish: RunFinish, ids: seq<Id>, now: Time)
    requires Consistent(db) && |ids| == |finish.findings|
    ensures var finished := FinishRun(db, rid, finish, ids, now);
            && (finished.None? <==> rid !in db.runs && finish.findings != [])
            && (rid in db.runs && db.runs[rid].status == RunStatus.Running ==>
                 db.runs[rid].campaignId in db.campaigns && FinishedAs(db, finished.value, rid, finish, ids, now))
            && (finished.Some? && !(rid in db.runs && db.runs[rid].status == RunStatus.Running) ==>
                 && finished.value.campaigns == db.campaigns && finished.value.runs == db.runs
                 && finished.value.jobs == db.jobs
                 && Appended(db.findings, finished.value.findings, rid, finish.findings, ids, now))
  {
    if rid in db.runs && db.runs[rid].status.Running? {
      FinishRunningDecides(db, rid, finish, ids, now);
    }
  }

  lemma FinishRunningDecides(db: Db, rid: Id, finish: RunFinish, ids: seq<Id>, now: Time)
    requires Consistent(db) && |ids| == |finish.findings| && rid in db.runs && db.runs[rid].status.Running?
    ensures db.runs[rid].campaignId in db.campaigns
    ensures FinishRun(db, rid, finish, ids, now).Some?
    ensures FinishedAs(db, FinishRun(db, rid, finish, ids, now).value, rid, finish, ids, now)
  {
    assert RunMirrored(db.campaigns, db.runs[rid]);
  }

  // A cancellation rewrites the status of a campaign that is not terminal, and every run it has.
  lemma CancelDecides(db: Db, cid: Id, now: Time)
    requires Consistent(db)
    ensures var (db', found) := CancelCampaign(db, cid, now);
            && (found.None? <==> cid !in db.campaigns)
            && (cid in db.campaigns ==> cid in db'.campaigns && found == Some(db'.campaigns[cid]))
            && (cid !in db.campaigns || db.campaigns[cid].status.IsTerminal() ==> db' == db)
            && (cid in db.campaigns && !db.campaigns[cid].status.IsTerminal() ==>
                 && SameBut(db.campaigns, db'.campaigns, cid) && db'.jobs == db.jobs && db'.findings == db.findings
                 && db'.campaigns[cid]
                    == Campaign(db.campaigns[cid].input, CampaignStatus.Cancelled, db.campaigns[cid].createdAt)
                 && db'.runs.Keys == db.runs.Keys
                 && forall r :: r in db.runs ==>
                      var run := db.runs[r];
                      db'.runs[r] == if run.campaignId != cid then run
                                     else Run(cid, RunStatus.Cancelled, run.iterations, run.startedAt, Some(now),
                                              run.logTail))
  {
    assert cid in db.campaigns ==> HasRun(db.runs, cid);
  }

  // ----- what the calls keep -----

  lemma CreateKeepsConsistent(db: Db, input: NewCampaign, cid: Id, rid: Id, jid: Id, now: Time)
    requires Consistent(db) && cid !in db.campaigns && rid !in db.runs
    ensures Consistent(CreateCampaign(db, input, cid, rid, jid, now))
  {
    var db' := CreateCampaign(db, input, cid, rid, jid, now);
    forall r, q, c | Owns(db'.runs, r, c) && Owns(db'.runs, q, c) ensures r == q {
      assert r != rid ==> Owns(db.runs, r, c) && RunMirrored(db.campaigns, db.runs[r]);
      assert q != rid ==> Owns(db.runs, q, c) && RunMirrored(db.campaigns, db.runs[q]);
    }
    forall r | r in db'.runs ensures RunMirrored(db'.campaigns, db'.runs[r]) {
      assert r != rid ==> RunMirrored(db.campaigns, db.runs[r]);
    }
    forall c | c in db'.campaigns ensures HasRun(db'.runs, c) {
      if c == cid {
        assert Owns(db'.runs, rid, c);
      } else {
        assert HasRun(db.runs, c);
        var r :| r in db.runs && Owns(db.runs, r, c);
        assert Owns(db'.runs, r, c);
      }
    }
  }

  lemma CreateKeepsJobs(db: Db, input: NewCampaign, cid: Id, rid: Id, jid: Id, now: Time)
    requires OneJobEach(db) && rid !in db.runs && jid !in db.jobs
    ensures OneJobEach(CreateCampaign(db, input, cid, rid, jid, now))
  {
    var db' := CreateCampaign(db, input, cid, rid, jid, now);
    forall j, k, r | Serves(db'.jobs, j, r) && Serves(db'.jobs, k, r) ensures j == k {
      assert j != jid ==> Serves(db.jobs, j, r) && Owns(db.runs, r, db.jobs[j].campaignId);
      assert k != jid ==> Serves(db.jobs, k, r) && Owns(db.runs, r, db.jobs[k].campaignId);
    }
    forall r | r in db'.runs ensures HasJob(db'.jobs, r) {
      if r == rid {
        assert Serves(db'.jobs, jid, r);
      } else {
        assert HasJob(db.jobs, r);
        var j :| j in db.jobs && Serves(db.jobs, j, r);
        assert Serves(db'.jobs, j, r);
      }
    }
  }

  // Tables with the same runs, owners and jobs, whatever their statuses and claims.
  ghost predicate SameQueue(db: Db, db': Db) {
    && db'.runs.Keys == db.runs.Keys && db'.jobs.Keys == db.jobs.Keys
    && (forall r :: r in db.runs ==> db'.runs[r].campaignId == db.runs[r].campaignId)
    && (forall j :: j in db.jobs ==>
         db'.jobs[j].runId == db.jobs[j].runId && db'.jobs[j].campaignId == db.jobs[j].campaignId)
  }

  lemma SameQueueKeepsJobs(db: Db, db': Db)
    requires OneJobEach(db) && SameQueue(db, db')
    ensures OneJobEach(db')
  {
    forall j | j in db'.jobs ensures Owns(db'.runs, db'.jobs[j].runId, db'.jobs[j].campaignId) {
      assert Owns(db.runs, db.jobs[j].runId, db.jobs[j].campaignId);
    }
    forall j, k, r | Serves(db'.jobs, j, r) && Serves(db'.jobs, k, r) ensures j == k {
      assert Serves(db.jobs, j, r) && Serves(db.jobs, k, r);
    }
    forall r | r in db'.runs ensures HasJob(db'.jobs, r) {
      assert HasJob(db.jobs, r);
      var j :| j in db.jobs && Serves(db.jobs, j, r);
      assert Serves(db'.jobs, j, r);
    }
  }

  // No other call adds, drops or redirects a job.
  lemma CancelKeepsJobs(db: Db, cid: Id, now: Time)
    requires OneJobEach(db)
    ensures OneJobEach(CancelCampaign(db, cid, now).0)
  {
    SameQueueKeepsJobs(db, CancelCampaign(db, cid, now).0);
  }

  lemma ClaimKeepsJobs(db: Db, jid: Id, worker: string)
    requires OneJobEach(db) && jid in db.jobs
    ensures OneJobEach(ClaimRow(db, jid, worker))
  {
    SameQueueKeepsJobs(db, ClaimRow(db, jid, worker));
  }

  lemma StartKeepsJobs(db: Db, rid: Id, now: Time)
    requires OneJobEach(db)
    ensures OneJobEach(StartRun(db, rid, now).0)
  {
    SameQueueKeepsJobs(db, StartRun(db, rid, now).0);
  }

  lemma FinishKeepsJobs(db: Db, rid: Id, finish: RunFinish, ids: seq<Id>, now: Time)
    requires OneJobEach(db) && |ids| == |finish.findings|
    ensures FinishRun(db, rid, finish, ids, now).Some? ==> OneJobEach(FinishRun(db, rid, finish, ids, now).value)
  {
    if FinishRun(db, rid, finish, ids, now).Some? {
      SameQueueKeepsJobs(db, FinishRun(db, rid, finish, ids, now).value);
    }
  }

  // Rewriting one run and its campaign alike keeps the tables consistent.
  lemma RewriteKeepsConsistent(db: Db, db': Db, rid: Id)
    requires Consistent(db) && rid in db.runs
    requires db'.runs.Keys == db.runs.Keys && db'.campaigns.Keys == db.campaigns.Keys
    requires db'.runs[rid].campaignId == db.runs[rid].campaignId && RunMirrored(db'.campaigns, db'.runs[rid])
    requires forall r :: r in db.runs && r != rid ==> db'.runs[r] == db.runs[r]
    requires forall c :: c in db.campaigns && c != db.runs[rid].campaignId ==> db'.campaigns[c] == db.campaigns[c]
    ensures Consistent(db')
  {
    forall r | r in db'.runs && r != rid ensures RunMirrored(db'.campaigns, db'.runs[r]) {
      assert RunMirrored(db.campaigns, db.runs[r]);
      assert Owns(db.runs, r, db.runs[r].campaignId);
      assert Owns(db.runs, rid, db.runs[rid].campaignId);
    }
    forall r, q, c | Owns(db'.runs, r, c) && Owns(db'.runs, q, c) ensures r == q {
      assert Owns(db.runs, r, c) && Owns(db.runs, q, c);
    }
    forall c | c in db'.campaigns ensures HasRun(db'.runs, c) {
      assert HasRun(db.runs, c);
      var r :| r in db.runs && Owns(db.runs, r, c);
      assert Owns(db'.runs, r, c);
    }
  }

  lemma StartKeepsConsistent(db: Db, rid: Id, now: Time)
    requires Consistent(db)
    ensures Consistent(StartRun(db, rid, now).0)
  {
    if rid in db.runs && db.runs[rid].status.Pending? {
      assert RunMirrored(db.campaigns, db.runs[rid]);
      RewriteKeepsConsistent(db, StartRun(db, rid, now).0, rid);
    }
  }

  lemma FinishKeepsConsistent(db: Db, rid: Id, finish: RunFinish, ids: seq<Id>, now: Time)
    requires Consistent(db) && |ids| == |finish.findings|
    ensures FinishRun(db, rid, finish, ids, now).Some? ==> Consistent(FinishRun(db, rid, finish, ids, now).value)
  {
    if rid in db.runs && db.runs[rid].status.Running? {
      assert RunMirrored(db.campaigns, db.runs[rid]);
      RewriteKeepsConsistent(db, FinishRun(db, rid, finish, ids, now).value, rid);
    }
  }

  // The run of a campaign: the one row the JOIN finds.
  ghost function RunOf(db: Db, cid: Id): (r: Id)
    requires Consistent(db) && cid in db.campaigns
    ensures Owns(db.runs, r, cid)
  {
    assert HasRun(db.runs, cid);
    var r :| r in db.runs && Owns(db.runs, r, cid);
    r
  }

  // Cancelling rewrites exactly the campaign and its one run.
  lemma CancelRewritesOneRun(db: Db, cid: Id, now: Time)
    requires Consistent(db) && cid in db.campaigns && !db.campaigns[cid].status.IsTerminal()
    ensures var r := RunOf(db, cid);
            CancelCampaign(db, cid, now).0
            == db.(campaigns := db.campaigns[cid := db.campaigns[cid].(status := CampaignStatus.Cancelled)],
                   runs := db.runs[r := CancelledRow(db.runs[r], now)])
  {
    var r := RunOf(db, cid);
    assert HasRun(db.runs, cid);
    forall q | q in db.runs && db.runs[q].campaignId == cid ensures q == r {
      assert Owns(db.runs, q, cid);
    }
    assert CancelCampaign(db, cid, now).0.runs == db.runs[r := CancelledRow(db.runs[r], now)];
  }

  lemma CancelKeepsConsistent(db: Db, cid: Id, now: Time)
    requires Consistent(db)
    ensures Consistent(CancelCampaign(db, cid, now).0)
  {
    if cid in db.campaigns && !db.campaigns[cid].status.IsTerminal() {
      CancelRewritesOneRun(db, cid, now);
      var r := RunOf(db, cid);
      assert RunMirrored(db.campaigns, db.runs[r]);
      RewriteKeepsConsistent(db, CancelCampaign(db, cid, now).0, r);
    }
  }

  // With whole calls atomic, no call touches a terminal run or its campaign.
  lemma TerminalIsFinal(db: Db, r: Id, rid: Id, cid: Id, finish: RunFinish, ids: seq<Id>, now: Time)
    requires Consistent(db) && |ids| == |finish.findings|
    requires r in db.runs && db.runs[r].status.IsTerminal()
    ensures RowsStand(db, StartRun(db, rid, now).0, r)
    ensures RowsStand(db, CancelCampaign(db, cid, now).0, r)
    ensures FinishRun(db, rid, finish, ids, now).Some? ==> RowsStand(db, FinishRun(db, rid, finish, ids, now).value, r)
  {
    assert RunMirrored(db.campaigns, db.runs[r]);
    forall q | q in db.runs && !db.runs[q].status.IsTerminal() ensures db.runs[q].campaignId != db.runs[r].campaignId {
      assert RunMirrored(db.campaigns, db.runs[q]);
    }
  }

  // The rows of run `r` and of its campaign are the same in both.
  predicate RowsStand(db: Db, db': Db, r: Id)
    requires r in db.runs
  {
    var c := db.runs[r].campaignId;
    && r in db'.runs && db'.runs[r] == db.runs[r]
    && c in db.campaigns && c in db'.campaigns && db'.campaigns[c] == db.campaigns[c]
  }

  // Cancelling twice is cancelling once, and the second call reports the same record.
  lemma CancelTwice(db: Db, cid: Id, now: Time, later: Time)
    requires Consistent(db)
    ensures var first := CancelCampaign(db, cid, now);
            CancelCampaign(first.0, cid, later) == first
  {
    if cid in db.campaigns && !db.campaigns[cid].status.IsTerminal() {
      CancelKeepsConsistent(db, cid, now);
      assert HasRun(CancelCampaign(db, cid, now).0.runs, cid);
    }
  }
}
