// The in-memory store: four vectors scanned and updated in place, proved call by call to do what the
// `Store` functions say of the tables. Each method stands for one call that nothing interleaves with;
// fresh ids and the clock are parameters.

module MockStore {
  import opened Prelude
  import opened Records
  import S = Store
  import Listing

  datatype MockRun = MockRun(
    id: Id,
    campaignId: Id,
    status: RunStatus,
    iterations: int,
    startedAt: Option<Time>,
    finishedAt: Option<Time>,
    logTail: Option<string>)

  datatype MockJob = MockJob(id: Id, campaignId: Id, runId: Id, claimedBy: Option<string>, attempts: int)

  datatype FindingRecord = FindingRecord(id: Id, runId: Id, campaignId: Id, targetId: string, body: NewFinding,
                                         createdAt: Time)

  function CampaignRow(c: CampaignRecord): Campaign {
    Campaign(c.input, c.status, c.createdAt)
  }

  function RunRow(r: MockRun): Run {
    Run(r.campaignId, r.status, r.iterations, r.startedAt, r.finishedAt, r.logTail)
  }

  // A mock job does not store its creation time; it is its campaign's.
  function JobRow(j: MockJob, createdAt: Time): Job {
    Job(j.campaignId, j.runId, j.claimedBy, j.attempts, createdAt)
  }

  function FindingRow(f: FindingRecord): Finding {
    Finding(f.id, f.runId, f.body, f.createdAt)
  }

  function FindingTable(findings: seq<FindingRecord>): seq<Finding> {
    seq(|findings|, i requires 0 <= i < |findings| => FindingRow(findings[i]))
  }

  // Position `i` of the three vectors belongs to the campaign created `i`-th.
  ghost predicate Aligned(campaigns: seq<CampaignRecord>, runs: seq<MockRun>, jobs: seq<MockJob>) {
    && |campaigns| == |runs| == |jobs|
    && forall i {:trigger campaigns[i]} {:trigger runs[i]} {:trigger jobs[i]} :: 0 <= i < |campaigns| ==>
         && runs[i].campaignId == campaigns[i].id && campaigns[i].runId == runs[i].id
         && jobs[i].campaignId == campaigns[i].id && jobs[i].runId == runs[i].id
  }

  // The vectors hold exactly the rows of the tables: every position is a row under its id, two
  // positions never share an id, and there are no other rows.
  ghost predicate HoldsCampaigns(campaigns: seq<CampaignRecord>, table: map<Id, Campaign>) {
    && (forall i ::
         0 <= i < |campaigns| ==> campaigns[i].id in table && table[campaigns[i].id] == CampaignRow(campaigns[i]))
    && (forall i, k :: 0 <= i < k < |campaigns| ==> campaigns[i].id != campaigns[k].id)
    && (forall c {:trigger ListsCampaign(campaigns, c)} :: c in table ==> ListsCampaign(campaigns, c))
  }

  ghost predicate ListsCampaign(campaigns: seq<CampaignRecord>, c: Id) {
    exists i :: 0 <= i < |campaigns| && campaigns[i].id == c
  }

  ghost predicate HoldsRuns(runs: seq<MockRun>, table: map<Id, Run>) {
    && (forall i :: 0 <= i < |runs| ==> runs[i].id in table && table[runs[i].id] == RunRow(runs[i]))
    && (forall i, k :: 0 <= i < k < |runs| ==> runs[i].id != runs[k].id)
    && (forall r {:trigger ListsRun(runs, r)} :: r in table ==> ListsRun(runs, r))
  }

  ghost predicate ListsRun(runs: seq<MockRun>, r: Id) {
    exists i :: 0 <= i < |runs| && runs[i].id == r
  }

  ghost predicate HoldsJobs(jobs: seq<MockJob>, campaigns: seq<CampaignRecord>, table: map<Id, Job>)
    requires |jobs| == |campaigns|
  {
    && (forall i :: 0 <= i < |jobs| ==>
         jobs[i].id in table && table[jobs[i].id] == JobRow(jobs[i], campaigns[i].createdAt))
    && (forall i, k :: 0 <= i < k < |jobs| ==> jobs[i].id != jobs[k].id)
    && (forall j {:trigger ListsJob(jobs, j)} :: j in table ==> ListsJob(jobs, j))
  }

  ghost predicate ListsJob(jobs: seq<MockJob>, j: Id) {
    exists i :: 0 <= i < |jobs| && jobs[i].id == j
  }

  ghost predicate Holds(campaigns: seq<CampaignRecord>, runs: seq<MockRun>, jobs: seq<MockJob>, db: Db) {
    && Aligned(campaigns, runs, jobs)
    && HoldsCampaigns(campaigns, db.campaigns)
    && HoldsRuns(runs, db.runs)
    && HoldsJobs(jobs, campaigns, db.jobs)
  }

  lemma PushFinding(findings: seq<FindingRecord>, f: FindingRecord)
    ensures FindingTable(findings + [f]) == FindingTable(findings) + [FindingRow(f)]
  {
  }

  function CreationTimes(campaigns: seq<CampaignRecord>): seq<Time> {
    seq(|campaigns|, i requires 0 <= i < |campaigns| => campaigns[i].createdAt)
  }

  ghost predicate Ascending(times: seq<Time>) {
    forall i, k :: 0 <= i < k < |times| ==> times[i] <= times[k]
  }

  // Creation times follow insertion order.
  ghost predicate InOrder(campaigns: seq<CampaignRecord>) {
    Ascending(CreationTimes(campaigns))
  }

  lemma PutKeepsTimes(campaigns: seq<CampaignRecord>, i: nat, c: CampaignRecord)
    requires i < |campaigns| && c.createdAt == campaigns[i].createdAt
    ensures CreationTimes(campaigns[i := c]) == CreationTimes(campaigns)
  {
  }

  lemma PushHoldsCampaigns(campaigns: seq<CampaignRecord>, table: map<Id, Campaign>, c: CampaignRecord)
    requires HoldsCampaigns(campaigns, table) && c.id !in table
    ensures HoldsCampaigns(campaigns + [c], table[c.id := CampaignRow(c)])
  {
    var pushed := campaigns + [c];
    forall id | id in table[c.id := CampaignRow(c)] ensures ListsCampaign(pushed, id) {
      if id == c.id {
        assert pushed[|campaigns|].id == id;
      } else {
        assert ListsCampaign(campaigns, id);
        var i :| 0 <= i < |campaigns| && campaigns[i].id == id;
        assert pushed[i].id == id;
      }
    }
  }

  // A campaign created no earlier than any other keeps the order.
  lemma PushKeepsOrder(campaigns: seq<CampaignRecord>, table: map<Id, Campaign>, c: CampaignRecord)
    requires HoldsCampaigns(campaigns, table) && InOrder(campaigns)
    requires forall id :: id in table ==> table[id].createdAt <= c.createdAt
    ensures InOrder(campaigns + [c])
  {
    var pushed := campaigns + [c];
    forall i, k | 0 <= i < k < |pushed| ensures CreationTimes(pushed)[i] <= CreationTimes(pushed)[k] {
      if k < |campaigns| {
        assert CreationTimes(campaigns)[i] <= CreationTimes(campaigns)[k];
      } else {
        assert campaigns[i].id in table && table[campaigns[i].id].createdAt <= c.createdAt;
      }
    }
  }

  lemma PushHoldsRuns(runs: seq<MockRun>, table: map<Id, Run>, r: MockRun)
    requires HoldsRuns(runs, table) && r.id !in table
    ensures HoldsRuns(runs + [r], table[r.id := RunRow(r)])
  {
    var pushed := runs + [r];
    forall id | id in table[r.id := RunRow(r)] ensures ListsRun(pushed, id) {
      if id == r.id {
        assert pushed[|runs|].id == id;
      } else {
        assert ListsRun(runs, id);
        var i :| 0 <= i < |runs| && runs[i].id == id;
        assert pushed[i].id == id;
      }
    }
  }

  lemma PushHoldsJobs(jobs: seq<MockJob>, campaigns: seq<CampaignRecord>, table: map<Id, Job>, j: MockJob,
                      c: CampaignRecord)
    requires |jobs| == |campaigns| && HoldsJobs(jobs, campaigns, table) && j.id !in table
    ensures HoldsJobs(jobs + [j], campaigns + [c], table[j.id := JobRow(j, c.createdAt)])
  {
    var pushed := jobs + [j];
    forall id | id in table[j.id := JobRow(j, c.createdAt)] ensures ListsJob(pushed, id) {
      if id == j.id {
        assert pushed[|jobs|].id == id;
      } else {
        assert ListsJob(jobs, id);
        var i :| 0 <= i < |jobs| && jobs[i].id == id;
        assert pushed[i].id == id;
      }
    }
  }

  lemma PutHoldsCampaigns(campaigns: seq<CampaignRecord>, table: map<Id, Campaign>, i: nat, c: CampaignRecord)
    requires HoldsCampaigns(campaigns, table) && i < |campaigns| && c.id == campaigns[i].id
    ensures HoldsCampaigns(campaigns[i := c], table[c.id := CampaignRow(c)])
  {
    var put := campaigns[i := c];
    forall id | id in table[c.id := CampaignRow(c)] ensures ListsCampaign(put, id) {
      assert ListsCampaign(campaigns, id);
      var k :| 0 <= k < |campaigns| && campaigns[k].id == id;
      assert put[k].id == id;
    }
  }

  lemma PutHoldsRuns(runs: seq<MockRun>, table: map<Id, Run>, i: nat, r: MockRun)
    requires HoldsRuns(runs, table) && i < |runs| && r.id == runs[i].id
    ensures HoldsRuns(runs[i := r], table[r.id := RunRow(r)])
  {
    var put := runs[i := r];
    forall id | id in table[r.id := RunRow(r)] ensures ListsRun(put, id) {
      assert ListsRun(runs, id);
      var k :| 0 <= k < |runs| && runs[k].id == id;
      assert put[k].id == id;
    }
  }

  lemma PutHoldsJobs(jobs: seq<MockJob>, campaigns: seq<CampaignRecord>, table: map<Id, Job>, i: nat, j: MockJob)
    requires |jobs| == |campaigns| && HoldsJobs(jobs, campaigns, table) && i < |jobs| && j.id == jobs[i].id
    ensures HoldsJobs(jobs[i := j], campaigns, table[j.id := JobRow(j, campaigns[i].createdAt)])
  {
    var put := jobs[i := j];
    forall id | id in table[j.id := JobRow(j, campaigns[i].createdAt)] ensures ListsJob(put, id) {
      assert ListsJob(jobs, id);
      var k :| 0 <= k < |jobs| && jobs[k].id == id;
      assert put[k].id == id;
    }
  }

  // Rewriting the statuses of the `i`-th campaign and run moves nothing else.
  lemma PutHolds(campaigns: seq<CampaignRecord>, runs: seq<MockRun>, jobs: seq<MockJob>, db: Db, i: nat,
                 c: CampaignRecord, r: MockRun)
    requires Holds(campaigns, runs, jobs, db) && i < |campaigns|
    requires c == campaigns[i].(status := c.status)
    requires r.id == runs[i].id && r.campaignId == runs[i].campaignId
    ensures Holds(campaigns[i := c], runs[i := r], jobs,
                  db.(campaigns := db.campaigns[c.id := CampaignRow(c)], runs := db.runs[r.id := RunRow(r)]))
  {
    PutHoldsCampaigns(campaigns, db.campaigns, i, c);
    PutHoldsRuns(runs, db.runs, i, r);
  }

  function Drop(findings: seq<FindingRecord>, runId: Id): seq<FindingRecord> {
    if findings == [] then []
    else (if findings[0].runId == runId then [] else [findings[0]]) + Drop(findings[1..], runId)
  }

  lemma {:induction false} DropIsFindingsNotOf(findings: seq<FindingRecord>, runId: Id)
    ensures FindingTable(Drop(findings, runId)) == FindingsNotOf(FindingTable(findings), runId)
  {
    if findings != [] {
      var rest := findings[1..];
      DropIsFindingsNotOf(rest, runId);
      assert FindingTable(findings)[1..] == FindingTable(rest);
    }
  }

  // The first claimable job is the oldest one, if creation times follow insertion order.
  lemma FirstIsOldest(jobs: seq<MockJob>, campaigns: seq<CampaignRecord>, db: Db, i: nat)
    requires |jobs| == |campaigns| && HoldsJobs(jobs, campaigns, db.jobs) && i <= |jobs|
    requires forall k :: 0 <= k < i ==> !S.Claimable(db, jobs[k].id)
    ensures i == |jobs| ==> forall j :: j in db.jobs ==> !S.Claimable(db, j)
    ensures i < |jobs| && InOrder(campaigns) ==>
      forall j :: j in db.jobs && S.Claimable(db, j) ==> db.jobs[jobs[i].id].createdAt <= db.jobs[j].createdAt
  {
    forall j | j in db.jobs && S.Claimable(db, j)
      ensures i < |jobs| && (InOrder(campaigns) ==> db.jobs[jobs[i].id].createdAt <= db.jobs[j].createdAt)
    {
      assert ListsJob(jobs, j);
      var k :| 0 <= k < |jobs| && jobs[k].id == j;
      assert i <= k;
      assert InOrder(campaigns) ==> CreationTimes(campaigns)[i] <= CreationTimes(campaigns)[k];
    }
  }

  // A finding's denormalised campaign and target are those of its run.
  ghost predicate Attributed(findings: seq<FindingRecord>, db: Db) {
    forall f :: f in findings ==>
      && f.runId in db.runs && f.campaignId == db.runs[f.runId].campaignId
      && f.campaignId in db.campaigns && f.targetId == db.campaigns[f.campaignId].input.targetId
  }

  // No call changes what a finding is attributed by.
  ghost predicate KeepsOwners(before: Db, after: Db) {
    && (forall r :: r in before.runs ==> r in after.runs && after.runs[r].campaignId == before.runs[r].campaignId)
    && (forall c ::
         c in before.campaigns ==> c in after.campaigns && after.campaigns[c].input == before.campaigns[c].input)
  }

  lemma AttributionKept(findings: seq<FindingRecord>, kept: seq<FindingRecord>, before: Db, after: Db)
    requires Attributed(findings, before) && KeepsOwners(before, after) && forall f :: f in kept ==> f in findings
    ensures Attributed(kept, after)
  {
  }

  lemma {:induction false} DropKeepsOnlyOld(findings: seq<FindingRecord>, runId: Id)
    ensures forall f :: f in Drop(findings, runId) ==> f in findings
  {
    if findings != [] {
      DropKeepsOnlyOld(findings[1..], runId);
    }
  }

  ghost predicate Represents(campaigns: seq<CampaignRecord>, runs: seq<MockRun>, jobs: seq<MockJob>,
                             findings: seq<FindingRecord>, db: Db)
  {
    && Holds(campaigns, runs, jobs, db)
    && FindingTable(findings) == db.findings
    && Attributed(findings, db)
    && Consistent(db)
  }

  // `create_campaign`, `start_run` and `cancel_campaign` on the values of the vectors.
  lemma CreateRepresents(campaigns: seq<CampaignRecord>, runs: seq<MockRun>, jobs: seq<MockJob>,
                         findings: seq<FindingRecord>, db: Db,
                         record: CampaignRecord, run: MockRun, job: MockJob)
    requires Represents(campaigns, runs, jobs, findings, db)
    requires record.id !in db.campaigns && run.id !in db.runs && job.id !in db.jobs
    requires record == CampaignRecord(record.id, record.input, CampaignStatus.Queued, run.id, record.createdAt)
    requires run == MockRun(run.id, record.id, RunStatus.Pending, 0, None, None, None)
    requires job == MockJob(job.id, record.id, run.id, None, 0)
    ensures Represents(campaigns + [record], runs + [run], jobs + [job], findings,
                       S.CreateCampaign(db, record.input, record.id, run.id, job.id, record.createdAt))
  {
    PushHoldsCampaigns(campaigns, db.campaigns, record);
    PushHoldsRuns(runs, db.runs, run);
    PushHoldsJobs(jobs, campaigns, db.jobs, job, record);
    S.CreateKeepsConsistent(db, record.input, record.id, run.id, job.id, record.createdAt);
    AttributionKept(findings, findings, db,
                    S.CreateCampaign(db, record.input, record.id, run.id, job.id, record.createdAt));
  }

  lemma StartRepresents(campaigns: seq<CampaignRecord>, runs: seq<MockRun>, jobs: seq<MockJob>,
                        findings: seq<FindingRecord>, db: Db,
                        i: nat, now: Time)
    requires Represents(campaigns, runs, jobs, findings, db) && i < |runs| && runs[i].status.Pending?
    ensures campaigns[i].status.Queued?
    ensures Represents(campaigns[i := campaigns[i].(status := CampaignStatus.Running)],
                       runs[i := runs[i].(status := RunStatus.Running, startedAt := Some(now))], jobs,
                         Drop(findings, runs[i].id),
                       S.StartRun(db, runs[i].id, now).0)
  {
    var runId := runs[i].id;
    S.StartKeepsConsistent(db, runId, now);
    assert RunMirrored(db.campaigns, db.runs[runId]);
    DropIsFindingsNotOf(findings, runId);
    DropKeepsOnlyOld(findings, runId);
    AttributionKept(findings, Drop(findings, runId), db, S.StartRun(db, runId, now).0);
    PutHolds(campaigns, runs, jobs, db, i, campaigns[i].(status := CampaignStatus.Running),
             runs[i].(status := RunStatus.Running, startedAt := Some(now)));
  }

  lemma CancelRepresents(campaigns: seq<CampaignRecord>, runs: seq<MockRun>, jobs: seq<MockJob>,
                         findings: seq<FindingRecord>, db: Db,
                         i: nat, now: Time)
    requires Represents(campaigns, runs, jobs, findings, db) && i < |campaigns| && !campaigns[i].status.IsTerminal()
    ensures Represents(campaigns[i := campaigns[i].(status := CampaignStatus.Cancelled)],
                       runs[i := runs[i].(status := RunStatus.Cancelled, finishedAt := Some(now))], jobs, findings,
                       S.CancelCampaign(db, campaigns[i].id, now).0)
  {
    var id := campaigns[i].id;
    assert Owns(db.runs, runs[i].id, id) && HasRun(db.runs, id);
    S.CancelKeepsConsistent(db, id, now);
    S.CancelRewritesOneRun(db, id, now);
    AttributionKept(findings, findings, db, S.CancelCampaign(db, id, now).0);
    PutHolds(campaigns, runs, jobs, db, i, campaigns[i].(status := CampaignStatus.Cancelled),
             runs[i].(status := RunStatus.Cancelled, finishedAt := Some(now)));
  }

  class MockStore {
    var campaigns: seq<CampaignRecord>
    var runs: seq<MockRun>
    var jobs: seq<MockJob>
    var findings: seq<FindingRecord>
    ghost var db: Db

    ghost predicate Valid()
      reads this
    {
      Represents(campaigns, runs, jobs, findings, db)
    }

    constructor ()
      ensures Valid() && db == EMPTY_DB
    {
      campaigns, runs, jobs, findings := [], [], [], [];
      db := EMPTY_DB;
    }

    method FindCampaign(id: Id) returns (i: nat)
      ensures i <= |campaigns| && (i < |campaigns| ==> campaigns[i].id == id)
      ensures forall k :: 0 <= k < i ==> campaigns[k].id != id
    {
      i := 0;
      while i < |campaigns| && campaigns[i].id != id
        invariant 0 <= i <= |campaigns|
        invariant forall k :: 0 <= k < i ==> campaigns[k].id != id
      {
        i := i + 1;
      }
    }

    method FindRun(id: Id) returns (i: nat)
      ensures i <= |runs| && (i < |runs| ==> runs[i].id == id)
      ensures forall k :: 0 <= k < i ==> runs[k].id != id
    {
      i := 0;
      while i < |runs| && runs[i].id != id
        invariant 0 <= i <= |runs|
        invariant forall k :: 0 <= k < i ==> runs[k].id != id
      {
        i := i + 1;
      }
    }

    function ListCampaigns(filter: Listing.CampaignFilter): seq<CampaignRecord>
      reads this
    {
      Listing.Page(Listing.Listed(campaigns, filter), filter.offset, filter.limit)
    }

    // What a client collects that asks for page after page from `offset` on until one is empty.
    function ReadPages(filter: Listing.CampaignFilter, offset: nat, limit: nat): seq<CampaignRecord>
      requires limit >= 1
      reads this
      decreases |Listing.Listed(campaigns, filter)| - offset
    {
      Listing.ListedIgnoresPaging(campaigns, filter, offset, limit);
      var page := ListCampaigns(filter.(offset := offset, limit := limit));
      if page == [] then [] else page + ReadPages(filter, offset + limit, limit)
    }

    // Reading every page of a store that stands still yields each matching campaign exactly once,
    // newest first, ties in creation order.
    lemma PagesListEverything(filter: Listing.CampaignFilter, limit: nat)
      requires limit >= 1
      ensures var all := ReadPages(filter, 0, limit);
              && Listing.Descending(all)
              && (forall c :: multiset(all)[c] == if Listing.Matches(filter, c) then multiset(campaigns)[c] else 0)
              && (forall t :: Listing.CreatedAt(all, t) == Listing.CreatedAt(Listing.Matched(campaigns, filter), t))
    {
      ReadPagesFrom(filter, 0, limit);
      Listing.PagesListEverything(campaigns, filter, limit);
    }

    lemma {:induction false} ReadPagesFrom(filter: Listing.CampaignFilter, offset: nat, limit: nat)
      requires limit >= 1
      ensures ReadPages(filter, offset, limit) == Listing.PagesFrom(Listing.Listed(campaigns, filter), offset, limit)
      decreases |Listing.Listed(campaigns, filter)| - offset
    {
      Listing.ListedIgnoresPaging(campaigns, filter, offset, limit);
      if offset < |Listing.Listed(campaigns, filter)| {
        ReadPagesFrom(filter, offset + limit, limit);
      }
    }

    method FindCampaignOfRun(runId: Id) returns (i: nat)
      ensures i <= |campaigns| && (i < |campaigns| ==> campaigns[i].runId == runId)
      ensures forall k :: 0 <= k < i ==> campaigns[k].runId != runId
    {
      i := 0;
      while i < |campaigns| && campaigns[i].runId != runId
        invariant 0 <= i <= |campaigns|
        invariant forall k :: 0 <= k < i ==> campaigns[k].runId != runId
      {
        i := i + 1;
      }
    }

    method FindRunOfCampaign(campaignId: Id) returns (i: nat)
      ensures i <= |runs| && (i < |runs| ==> runs[i].campaignId == campaignId)
      ensures forall k :: 0 <= k < i ==> runs[k].campaignId != campaignId
    {
      i := 0;
      while i < |runs| && runs[i].campaignId != campaignId
        invariant 0 <= i <= |runs|
        invariant forall k :: 0 <= k < i ==> runs[k].campaignId != campaignId
      {
        i := i + 1;
      }
    }

    method CreateCampaign(input: NewCampaign, cid: Id, rid: Id, jid: Id, now: Time) returns (record: CampaignRecord)
      requires Valid() && cid !in db.campaigns && rid !in db.runs && jid !in db.jobs
      modifies this
      ensures Valid() && db == S.CreateCampaign(old(db), input, cid, rid, jid, now)
      ensures record == CampaignRecord(cid, input, CampaignStatus.Queued, rid, now)
      ensures campaigns == old(campaigns) + [record]
      ensures old(InOrder(campaigns)) && (forall c :: c in old(db).campaigns ==> old(db).campaigns[c].createdAt <= now)
              ==> InOrder(campaigns)
    {
      record := CampaignRecord(cid, input, CampaignStatus.Queued, rid, now);
      var run := MockRun(rid, cid, RunStatus.Pending, 0, None, None, None);
      var job := MockJob(jid, cid, rid, None, 0);
      CreateRepresents(campaigns, runs, jobs, findings, db, record, run, job);
      if InOrder(campaigns) && forall c :: c in db.campaigns ==> db.campaigns[c].createdAt <= now {
        PushKeepsOrder(campaigns, db.campaigns, record);
      }
      campaigns := campaigns + [record];
      runs := runs + [run];
      jobs := jobs + [job];
      db := S.CreateCampaign(db, input, cid, rid, jid, now);
    }

    method CancelCampaign(id: Id, now: Time) returns (record: Option<CampaignRecord>)
      requires Valid()
      modifies this
      ensures Valid() && db == S.CancelCampaign(old(db), id, now).0
      ensures record.Some? <==> S.CancelCampaign(old(db), id, now).1.Some?
      ensures record.Some? ==>
        record.value.id == id && Some(CampaignRow(record.value)) == S.CancelCampaign(old(db), id, now).1
      ensures record.Some? ==> Owns(db.runs, record.value.runId, id)
      ensures CreationTimes(campaigns) == old(CreationTimes(campaigns))
    {
      var i := FindCampaign(id);
      if i == |campaigns| {
        assert id in db.campaigns ==> ListsCampaign(campaigns, id);
        return None;
      }
      assert Owns(db.runs, runs[i].id, id) && HasRun(db.runs, id);
      if !campaigns[i].status.IsTerminal() {
        CancelRepresents(campaigns, runs, jobs, findings, db, i, now);
        PutKeepsTimes(campaigns, i, campaigns[i].(status := CampaignStatus.Cancelled));
        db := S.CancelCampaign(db, id, now).0;
        campaigns := campaigns[i := campaigns[i].(status := CampaignStatus.Cancelled)];
        var k := FindRunOfCampaign(id);
        assert k == i;
        runs := runs[k := runs[k].(status := RunStatus.Cancelled, finishedAt := Some(now))];
      }
      return Some(campaigns[i]);
    }

    // Whether some run has this id and is still Pending.
    method AnyPending(runId: Id) returns (found: bool)
      requires Valid()
      ensures found <==> runId in db.runs && db.runs[runId].status.Pending?
    {
      var i := FindRun(runId);
      assert runId in db.runs ==> ListsRun(runs, runId);
      found := i < |runs| && runs[i].status.Pending?;
    }

    // The scan of `claim_job`.
    method FindClaimable() returns (i: nat)
      requires Valid()
      ensures i <= |jobs| && (i < |jobs| ==> S.Claimable(db, jobs[i].id))
      ensures forall k :: 0 <= k < i ==> !S.Claimable(db, jobs[k].id)
    {
      i := 0;
      while i < |jobs|
        invariant 0 <= i <= |jobs|
        invariant forall k :: 0 <= k < i ==> !S.Claimable(db, jobs[k].id)
      {
        if jobs[i].claimedBy.None? {
          var pending := AnyPending(jobs[i].runId);
          if pending {
            return;
          }
        }
        i := i + 1;
      }
    }

    method ClaimJob(worker: string) returns (claimed: Option<S.ClaimedJob>)
      requires Valid()
      modifies this
      ensures Valid()
      ensures S.ClaimsAny(old(db), worker, db, claimed)
      ensures old(InOrder(campaigns)) ==> S.ClaimsOldest(old(db), worker, db, claimed)
      ensures campaigns == old(campaigns) && runs == old(runs)
    {
      var i := FindClaimable();
      FirstIsOldest(jobs, campaigns, db, i);
      if i == |jobs| {
        return None;
      }
      var job := jobs[i].(claimedBy := Some(worker), attempts := jobs[i].attempts + 1);
      PutHoldsJobs(jobs, campaigns, db.jobs, i, job);
      jobs := jobs[i := job];
      db := S.ClaimRow(db, job.id, worker);
      return Some(S.ClaimedJob(job.id, job.campaignId, job.runId, job.attempts));
    }

    method StartRun(runId: Id, now: Time) returns (started: bool)
      requires Valid()
      modifies this
      ensures Valid() && (db, started) == S.StartRun(old(db), runId, now)
      ensures CreationTimes(campaigns) == old(CreationTimes(campaigns))
    {
      var i := FindRun(runId);
      assert runId in db.runs ==> ListsRun(runs, runId);
      if i == |runs| || !runs[i].status.Pending? {
        return false;
      }
      StartRepresents(campaigns, runs, jobs, findings, db, i, now);
      PutKeepsTimes(campaigns, i, campaigns[i].(status := CampaignStatus.Running));
      db := S.StartRun(db, runId, now).0;
      runs := runs[i := runs[i].(status := RunStatus.Running, startedAt := Some(now))];
      findings := Drop(findings, runId);
      var k := FindCampaignOfRun(runId);
      assert k == i;
      if campaigns[k].status.Queued? {
        campaigns := campaigns[k := campaigns[k].(status := CampaignStatus.Running)];
      }
      return true;
    }

    // Not ok is the mock's panic: findings of a run that was never created.
    method FinishRun(runId: Id, finish: RunFinish, ids: seq<Id>, now: Time) returns (ok: bool)
      requires Valid() && |ids| == |finish.findings|
      modifies this
      ensures Valid()
      ensures ok <==> S.FinishRun(old(db), runId, finish, ids, now).Some?
      ensures ok ==> Some(db) == S.FinishRun(old(db), runId, finish, ids, now)
      ensures !ok ==> db == old(db)
      ensures CreationTimes(campaigns) == old(CreationTimes(campaigns))
    {
      var i := FindRun(runId);
      assert runId in db.runs ==> ListsRun(runs, runId);
      if i == |runs| {
        return finish.findings == [];
      }
      ghost var finished := S.FinishRun(db, runId, finish, ids, now).value;
      S.FinishKeepsConsistent(db, runId, finish, ids, now);
      assert RunMirrored(db.campaigns, db.runs[runId]);
      if runs[i].status.Running? {
        var run := runs[i].(status := finish.status.ToRunStatus(), iterations := finish.iterations,
                            logTail := finish.logTail, finishedAt := Some(now));
        var c := campaigns[i].(status := finish.status.ToCampaignStatus());
        PutHolds(campaigns, runs, jobs, db, i, c, run);
        PutKeepsTimes(campaigns, i, c);
        runs := runs[i := run];
        var k := FindCampaignOfRun(runId);
        assert k == i;
        campaigns := campaigns[k := c];
      }
      AttributionKept(findings, findings, db, finished);
      PushFindings(runId, finish.findings, ids, now, i, finished);
      db := finished;
      return true;
    }

    // The last phase of `finish_run`; `tables` is what the other vectors stand for by then.
    method PushFindings(runId: Id, bodies: seq<NewFinding>, ids: seq<Id>, now: Time, ghost i: nat, ghost tables: Db)
      requires Holds(campaigns, runs, jobs, tables) && Attributed(findings, tables)
      requires i < |runs| && runs[i].id == runId && |ids| == |bodies|
      modifies this`findings
      ensures FindingTable(findings) == old(FindingTable(findings)) + S.FindingRows(runId, bodies, ids, now)
      ensures Attributed(findings, tables)
    {
      var n := 0;
      while n < |bodies|
        invariant 0 <= n <= |bodies|
        invariant FindingTable(findings)
          == old(FindingTable(findings)) + S.FindingRows(runId, bodies[..n], ids[..n], now)
        invariant Attributed(findings, tables)
      {
        var k := FindCampaignOfRun(runId);
        assert k == i;
        var record := FindingRecord(ids[n], runId, campaigns[k].id, campaigns[k].input.targetId, bodies[n], now);
        PushFinding(findings, record);
        assert S.FindingRows(runId, bodies[..n + 1], ids[..n + 1], now)
               == S.FindingRows(runId, bodies[..n], ids[..n], now) + [FindingRow(record)];
        findings := findings + [record];
        n := n + 1;
      }
      assert bodies[..n] == bodies && ids[..n] == ids;
    }
  }
}
