// The rows and statuses the server persists (crates/server/src/store/model.rs and the migrations).

module Records {
  import opened Prelude

  // A UUID; two freshly generated ones never coincide.
  type Id = nat

  // A `timestamptz`.
  type Time = nat

  datatype CampaignStatus = Queued | Running | Completed | Cancelled | Failed {
    predicate IsTerminal(): (terminal: bool)
      ensures terminal <==> !Queued? && !Running?
    {
      Completed? || Cancelled? || Failed?
    }
  }

  datatype RunStatus = Pending | Running | Completed | Cancelled | Failed {
    predicate IsTerminal(): (terminal: bool)
      ensures terminal <==> !Pending? && !Running?
    {
      Completed? || Cancelled? || Failed?
    }
  }

  // How a runner's work ends, with its two vocabularies.
  datatype FinishStatus = Completed | Cancelled | Failed {
    function ToRunStatus(): (status: RunStatus)
      ensures status.IsTerminal()
      ensures (status.Completed? <==> Completed?) && (status.Cancelled? <==> Cancelled?)
      ensures status.Failed? <==> Failed?
    {
      match this
      case Completed => RunStatus.Completed
      case Cancelled => RunStatus.Cancelled
      case Failed => RunStatus.Failed
    }

    function ToCampaignStatus(): (status: CampaignStatus)
      ensures status == Mirror(ToRunStatus())
    {
      match this
      case Completed => CampaignStatus.Completed
      case Cancelled => CampaignStatus.Cancelled
      case Failed => CampaignStatus.Failed
    }
  }

  // The campaign status that mirrors a run status: "queued" for "pending", otherwise the same word.
  function Mirror(status: RunStatus): (mirror: CampaignStatus)
    ensures (mirror.Queued? <==> status.Pending?) && (mirror.Running? <==> status.Running?)
    ensures (mirror.Completed? <==> status.Completed?) && (mirror.Cancelled? <==> status.Cancelled?)
    ensures mirror.Failed? <==> status.Failed?
  {
    match status
    case Pending => CampaignStatus.Queued
    case Running => CampaignStatus.Running
    case Completed => CampaignStatus.Completed
    case Cancelled => CampaignStatus.Cancelled
    case Failed => CampaignStatus.Failed
  }

  // The status is the word the outcome ends with.
  predicate SaysOutcome(status: RunStatus, outcome: FinishStatus) {
    || (status == RunStatus.Completed && outcome == FinishStatus.Completed)
    || (status == RunStatus.Cancelled && outcome == FinishStatus.Cancelled)
    || (status == RunStatus.Failed && outcome == FinishStatus.Failed)
  }

  datatype NewCampaign = NewCampaign(targetId: string, name: string, invariantIds: seq<string>, timeBudgetSecs: int)

  datatype Campaign = Campaign(input: NewCampaign, status: CampaignStatus, createdAt: Time)

  // A campaign together with the id of its one run, as read queries report it.
  datatype CampaignRecord = CampaignRecord(id: Id, input: NewCampaign, status: CampaignStatus, runId: Id,
                                           createdAt: Time)

  datatype Run = Run(
    campaignId: Id,
    status: RunStatus,
    iterations: int,
    startedAt: Option<Time>,
    finishedAt: Option<Time>,
    logTail: Option<string>)

  datatype Job = Job(campaignId: Id, runId: Id, claimedBy: Option<string>, attempts: int, createdAt: Time)

  datatype NewFinding = NewFinding(
    invariantName: string,
    message: string,
    stepIndex: int,
    fuzzTargetName: string,
    artifactPath: string,
    requiresSanitizerThread: bool)

  datatype Finding = Finding(id: Id, runId: Id, body: NewFinding, createdAt: Time)

  datatype RunFinish = RunFinish(status: FinishStatus, iterations: int, logTail: Option<string>,
                                 findings: seq<NewFinding>)

  // The committed contents of the four tables.
  datatype Db = Db(campaigns: map<Id, Campaign>, runs: map<Id, Run>, jobs: map<Id, Job>, findings: seq<Finding>)

  const EMPTY_DB := Db(map[], map[], map[], [])

  function NewRun(campaignId: Id): Run {
    Run(campaignId, RunStatus.Pending, 0, None, None, None)
  }

  function StartedRow(run: Run, now: Time): Run {
    run.(status := RunStatus.Running, startedAt := Some(now))
  }

  function FinishedRow(run: Run, finish: RunFinish, now: Time): Run {
    run.(status := finish.status.ToRunStatus(), iterations := finish.iterations, logTail := finish.logTail,
         finishedAt := Some(now))
  }

  function CancelledRow(run: Run, now: Time): Run {
    run.(status := RunStatus.Cancelled, finishedAt := Some(now))
  }

  // What cancelling a campaign writes to every run it has.
  function CancelledRunsOf(db: Db, cid: Id, now: Time): map<Id, Run> {
    map r | r in db.runs && db.runs[r].campaignId == cid :: CancelledRow(db.runs[r], now)
  }

  // The rows left after deleting `gone`, in their order.
  function Without(findings: seq<Finding>, gone: set<Finding>): seq<Finding> {
    if findings == [] then []
    else (if findings[0] in gone then [] else [findings[0]]) + Without(findings[1..], gone)
  }

  // The findings of every run but one, in their order.
  function FindingsNotOf(findings: seq<Finding>, runId: Id): seq<Finding> {
    if findings == [] then []
    else (if findings[0].runId == runId then [] else [findings[0]]) + FindingsNotOf(findings[1..], runId)
  }

  // The findings of one run, in their order.
  function FindingsOf(findings: seq<Finding>, runId: Id): seq<Finding> {
    if findings == [] then []
    else (if findings[0].runId == runId then [findings[0]] else []) + FindingsOf(findings[1..], runId)
  }

  // A run's two timestamps are set exactly when its status says so.
  predicate Stamped(run: Run) {
    && (run.finishedAt.Some? <==> run.status.IsTerminal())
    && (run.status.Pending? ==> run.startedAt.None?)
    && (run.status.Running? || run.status.Completed? || run.status.Failed? ==> run.startedAt.Some?)
  }

  // Row `r` is a run of campaign `c`.
  predicate Owns(runs: map<Id, Run>, r: Id, c: Id) {
    r in runs && runs[r].campaignId == c
  }

  predicate HasRun(runs: map<Id, Run>, c: Id) {
    exists r | r in runs :: Owns(runs, r, c)
  }

  ghost predicate OneRunEach(runs: map<Id, Run>) {
    forall r, q, c :: Owns(runs, r, c) && Owns(runs, q, c) ==> r == q
  }

  // A run row belongs to a campaign it mirrors.
  predicate RunMirrored(campaigns: map<Id, Campaign>, run: Run) {
    && run.campaignId in campaigns
    && campaigns[run.campaignId].status == Mirror(run.status)
    && Stamped(run)
  }

  // Every run belongs to a campaign it mirrors, and every campaign has exactly one run.
  ghost predicate Consistent(db: Db) {
    && (forall r :: r in db.runs ==> RunMirrored(db.campaigns, db.runs[r]))
    && OneRunEach(db.runs)
    && (forall c {:trigger HasRun(db.runs, c)} :: c in db.campaigns ==> HasRun(db.runs, c))
  }

  // Job `j` is for run `r`.
  predicate Serves(jobs: map<Id, Job>, j: Id, r: Id) {
    j in jobs && jobs[j].runId == r
  }

  predicate HasJob(jobs: map<Id, Job>, r: Id) {
    exists j | j in jobs :: Serves(jobs, j, r)
  }

  // Every job is for a run and names that run's campaign, and every run has exactly one job.
  ghost predicate OneJobEach(db: Db) {
    && (forall j :: j in db.jobs ==> Owns(db.runs, db.jobs[j].runId, db.jobs[j].campaignId))
    && (forall j, k, r :: Serves(db.jobs, j, r) && Serves(db.jobs, k, r) ==> j == k)
    && (forall r {:trigger HasJob(db.jobs, r)} :: r in db.runs ==> HasJob(db.jobs, r))
  }

  // The committed status changes any write may make: forward one stage, or to Cancelled from anywhere.
  predicate Advances(before: RunStatus, after: RunStatus) {
    || after.Cancelled?
    || (before.Pending? && after.Running?)
    || (before.Running? && after.IsTerminal())
  }
}
