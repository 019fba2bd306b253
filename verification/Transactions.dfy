// `PgStore` one SQL statement at a time: any number of create / start / finish / cancel transactions,
// each with a private write buffer that doubles as its set of row locks, interleaved freely and
// aborted freely (a deadlock victim, a lost connection). Plain SELECTs and a statement's snapshot see
// committed rows only; a guarded UPDATE whose snapshot row matched waits for the row lock and then
// evaluates its guard again on the latest committed row.

module Transactions {
  import opened Prelude
  import opened Records

  // What a finished transaction reports to its caller.
  datatype Result =
    | Created(campaignId: Id, runId: Id)
    | Started(runId: Id)
    | NotStarted
    | Finished
    | NoSuchCampaign
    | AlreadyTerminal(status: CampaignStatus)
    | CancelWrote(campaignId: Id, seen: CampaignStatus)

  // The next statement of a transaction, with the local variables of the Rust method.
  datatype Pc =
    | InsertCampaign(input: NewCampaign)
    | InsertRun(cid: Id)
    | InsertJob(cid: Id, rid: Id)
    | StartRun(rid: Id)
    | StartRunWait(rid: Id)
    | StartDeleteFindings(rid: Id, cid: Id)
    | StartCampaign(rid: Id, cid: Id)
    | StartCampaignWait(rid: Id, cid: Id)
    | FinishRun(rid: Id, finish: RunFinish)
    | FinishRunWait(rid: Id, finish: RunFinish)
    | FinishCampaign(rid: Id, cid: Id, finish: RunFinish)
    | FinishFindings(rid: Id, rest: seq<NewFinding>)
    | CancelRead(cid: Id)
    | CancelCampaign(cid: Id, seen: CampaignStatus)
    | CancelRuns(cid: Id, seen: CampaignStatus)
    | Done(result: Result)

  // Uncommitted row versions. A row in the buffer is locked by its transaction until it ends.
  datatype Writes = Writes(
    campaigns: map<Id, Campaign>,
    runs: map<Id, Run>,
    jobs: map<Id, Job>,
    deleted: set<Finding>,
    inserted: seq<Finding>)

  const NO_WRITES := Writes(map[], map[], map[], {}, [])

  // `now()` is the transaction's start time in every one of its statements.
  datatype Tx = Tx(pc: Pc, now: Time, w: Writes)

  // `used` holds every id ever generated; `started` logs the commits of successful `start_run`s.
  datatype Sys = Sys(db: Db, txs: map<nat, Tx>, used: set<Id>, started: seq<Id>)

  datatype Action =
    | Begin(t: nat, pc: Pc, now: Time)
    | Statement(t: nat, newId: Id)
    | Commit(t: nat)
    | Abort(t: nat)
    | Claim(job: Id, worker: string)

  predicate EntryPoint(pc: Pc) {
    pc.InsertCampaign? || pc.StartRun? || pc.FinishRun? || pc.CancelRead?
  }

  predicate CampaignFree(s: Sys, t: nat, c: Id) {
    forall u :: u in s.txs && u != t ==> c !in s.txs[u].w.campaigns
  }

  predicate RunFree(s: Sys, t: nat, r: Id) {
    forall u :: u in s.txs && u != t ==> r !in s.txs[u].w.runs
  }

  // Whether transaction `t` can execute its next statement now. What is disabled is waiting for a
  // lock, finished, or (inserting findings of an unknown run) failing its foreign key.
  predicate CanStep(s: Sys, t: nat, newId: Id)
    requires t in s.txs
  {
    match s.txs[t].pc
    case InsertCampaign(_) => newId !in s.used
    case InsertRun(_) => newId !in s.used
    case InsertJob(_, _) => newId !in s.used
    case StartRunWait(rid) => RunFree(s, t, rid)
    case StartCampaignWait(_, cid) => CampaignFree(s, t, cid)
    case FinishRunWait(rid, _) => RunFree(s, t, rid)
    case FinishCampaign(_, cid, _) => CampaignFree(s, t, cid)
    case FinishFindings(rid, rest) => rest != [] ==> rid in s.db.runs && newId !in s.used
    case CancelCampaign(cid, _) => CampaignFree(s, t, cid)
    case CancelRuns(cid, _) => forall r :: r in s.db.runs && s.db.runs[r].campaignId == cid ==> RunFree(s, t, r)
    case Done(_) => false
    case _ => true
  }

  predicate Enabled(s: Sys, a: Action) {
    match a
    case Begin(t, pc, _) => t !in s.txs && EntryPoint(pc)
    case Statement(t, newId) => t in s.txs && CanStep(s, t, newId)
    case Commit(t) => t in s.txs && s.txs[t].pc.Done?
    case Abort(t) => t in s.txs
    case Claim(j, _) =>
      j in s.db.jobs && s.db.jobs[j].claimedBy.None? && s.db.jobs[j].runId in s.db.runs
      && s.db.runs[s.db.jobs[j].runId].status.Pending?
  }

  // One statement of transaction `tx` against the committed tables.
  function Execute(db: Db, tx: Tx, newId: Id): Tx {
    var w := tx.w;
    match tx.pc
    case InsertCampaign(input) =>
      var campaign := Campaign(input, CampaignStatus.Queued, tx.now);
      tx.(pc := InsertRun(newId), w := w.(campaigns := w.campaigns[newId := campaign]))
    case InsertRun(cid) =>
      tx.(pc := InsertJob(cid, newId), w := w.(runs := w.runs[newId := NewRun(cid)]))
    case InsertJob(cid, rid) =>
      tx.(pc := Done(Created(cid, rid)), w := w.(jobs := w.jobs[newId := Job(cid, rid, None, 0, tx.now)]))
    case StartRun(rid) =>
      tx.(pc := if rid in db.runs && db.runs[rid].status.Pending? then StartRunWait(rid) else Done(NotStarted))
    case StartRunWait(rid) =>
      if rid in db.runs && db.runs[rid].status.Pending? then
        tx.(pc := StartDeleteFindings(rid, db.runs[rid].campaignId),
            w := w.(runs := w.runs[rid := StartedRow(db.runs[rid], tx.now)]))
      else tx.(pc := Done(NotStarted))
    case StartDeleteFindings(rid, cid) =>
      tx.(pc := StartCampaign(rid, cid), w := w.(deleted := set f | f in db.findings && f.runId == rid))
    case StartCampaign(rid, cid) =>
      tx.(pc := if cid in db.campaigns && db.campaigns[cid].status.Queued? then StartCampaignWait(rid, cid)
          else Done(Started(rid)))
    case StartCampaignWait(rid, cid) =>
      if cid in db.campaigns && db.campaigns[cid].status.Queued? then
        var running := db.campaigns[cid].(status := CampaignStatus.Running);
        tx.(pc := Done(Started(rid)), w := w.(campaigns := w.campaigns[cid := running]))
      else tx.(pc := Done(Started(rid)))
    case FinishRun(rid, finish) =>
      tx.(pc := if rid in db.runs && db.runs[rid].status.Running? then FinishRunWait(rid, finish)
          else FinishFindings(rid, finish.findings))
    case FinishRunWait(rid, finish) =>
      if rid in db.runs && db.runs[rid].status.Running? then
        tx.(pc := FinishCampaign(rid, db.runs[rid].campaignId, finish),
            w := w.(runs := w.runs[rid := FinishedRow(db.runs[rid], finish, tx.now)]))
      else tx.(pc := FinishFindings(rid, finish.findings))
    case FinishCampaign(rid, cid, finish) =>
      if cid in db.campaigns then
        tx.(pc := FinishFindings(rid, finish.findings),
            w := w.(campaigns := w.campaigns[cid := db.campaigns[cid].(status := finish.status.ToCampaignStatus())]))
      else tx.(pc := FinishFindings(rid, finish.findings))
    case FinishFindings(rid, rest) =>
      if rest == [] then tx.(pc := Done(Finished))
      else tx.(pc := FinishFindings(rid, rest[1..]),
               w := w.(inserted := w.inserted + [Finding(newId, rid, rest[0], tx.now)]))
    case CancelRead(cid) =>
      tx.(pc := if cid !in db.campaigns || !HasRun(db.runs, cid) then Done(NoSuchCampaign)
                else if db.campaigns[cid].status.IsTerminal() then Done(AlreadyTerminal(db.campaigns[cid].status))
                else CancelCampaign(cid, db.campaigns[cid].status))
    case CancelCampaign(cid, seen) =>
      if cid in db.campaigns then
        var cancelled := db.campaigns[cid].(status := CampaignStatus.Cancelled);
        tx.(pc := CancelRuns(cid, seen), w := w.(campaigns := w.campaigns[cid := cancelled]))
      else tx.(pc := CancelRuns(cid, seen))
    case CancelRuns(cid, seen) =>
      tx.(pc := Done(CancelWrote(cid, seen)),
          w := w.(runs := w.runs + CancelledRunsOf(db, cid, tx.now)))
    case Done(_) => tx
  }

  function Merge(db: Db, w: Writes): Db {
    Db(db.campaigns + w.campaigns, db.runs + w.runs, db.jobs + w.jobs, Without(db.findings, w.deleted) + w.inserted)
  }

  function Apply(s: Sys, a: Action): Sys
    requires Enabled(s, a)
  {
    match a
    case Begin(t, pc, now) => s.(txs := s.txs[t := Tx(pc, now, NO_WRITES)])
    case Statement(t, newId) => s.(txs := s.txs[t := Execute(s.db, s.txs[t], newId)], used := s.used + {newId})
    case Commit(t) =>
      var tx := s.txs[t];
      s.(db := Merge(s.db, tx.w), txs := s.txs - {t},
         started := s.started + if tx.pc.result.Started? then [tx.pc.result.runId] else [])
    case Abort(t) => s.(txs := s.txs - {t})
    case Claim(j, worker) =>
      var job := s.db.jobs[j];
      s.(db := s.db.(jobs := s.db.jobs[j := job.(claimedBy := Some(worker), attempts := job.attempts + 1)]))
  }

  const INITIAL_SYS := Sys(EMPTY_DB, map[], {}, [])

  // `actions[i]` can happen in `b[i]`, and its outcome is `b[i + 1]`.
  ghost predicate StepAt(b: seq<Sys>, actions: seq<Action>, i: nat)
    requires i < |actions| && |b| == |actions| + 1
  {
    Enabled(b[i], actions[i]) && b[i + 1] == Apply(b[i], actions[i])
  }

  ghost predicate Path(b: seq<Sys>, actions: seq<Action>) {
    |b| == |actions| + 1 && forall i: nat :: i < |actions| ==> StepAt(b, actions, i)
  }

  // A run of the whole system from the empty tables.
  ghost predicate Behaviour(b: seq<Sys>, actions: seq<Action>) {
    Path(b, actions) && b[0] == INITIAL_SYS
  }

  // ----- the inductive invariant -----

  // The buffer holds exactly the new version of run `rid`, whose committed version is still `from`.
  ghost predicate HoldsRun(db: Db, w: Writes, rid: Id, from: RunStatus) {
    && w.campaigns == map[]
    && w.runs.Keys == {rid}
    && rid in db.runs
    && db.runs[rid].status == from
    && w.runs[rid].campaignId == db.runs[rid].campaignId
    && Stamped(w.runs[rid])
    && Advances(from, w.runs[rid].status)
  }

  // Committing this buffer touches a run exactly when it touches the run's campaign, and alike.
  ghost predicate Balanced(db: Db, w: Writes) {
    && (forall r :: r in w.runs ==> RunMirrored(w.campaigns, w.runs[r]))
    && (forall r :: r in w.runs && r in db.runs ==>
          w.runs[r].campaignId == db.runs[r].campaignId && Advances(db.runs[r].status, w.runs[r].status))
    && (forall r, c :: Owns(db.runs, r, c) && c in w.campaigns ==> r in w.runs)
    && OneRunEach(w.runs)
    && (forall c {:trigger HasRun(w.runs, c)} :: c in w.campaigns ==> HasRun(w.runs, c))
  }

  ghost predicate Untouched(w: Writes) {
    w.campaigns == map[] && w.runs == map[]
  }

  ghost predicate TxOk(db: Db, tx: Tx) {
    var w := tx.w;
    match tx.pc
    case InsertCampaign(_) => Untouched(w)
    case InsertRun(cid) =>
      w.runs == map[] && w.campaigns.Keys == {cid} && w.campaigns[cid].status.Queued?
      && cid !in db.campaigns
    case InsertJob(cid, rid) =>
      && Balanced(db, w) && w.campaigns.Keys == {cid} && cid !in db.campaigns && w.runs.Keys == {rid} && rid !in db.runs
    case StartRun(_) => Untouched(w)
    case StartRunWait(_) => Untouched(w)
    case StartDeleteFindings(rid, cid) =>
      HoldsRun(db, w, rid, RunStatus.Pending) && db.runs[rid].campaignId == cid
      && w.runs[rid].status.Running?
    case StartCampaign(rid, cid) =>
      HoldsRun(db, w, rid, RunStatus.Pending) && db.runs[rid].campaignId == cid
      && w.runs[rid].status.Running?
    case StartCampaignWait(rid, cid) =>
      HoldsRun(db, w, rid, RunStatus.Pending) && db.runs[rid].campaignId == cid
      && w.runs[rid].status.Running?
    case FinishRun(_, _) => Untouched(w)
    case FinishRunWait(_, _) => Untouched(w)
    case FinishCampaign(rid, cid, finish) =>
      HoldsRun(db, w, rid, RunStatus.Running) && db.runs[rid].campaignId == cid
        && w.runs[rid].status == finish.status.ToRunStatus()
    case FinishFindings(_, _) => Balanced(db, w) && ReplacesOnly(db, w, RunStatus.Running)
    case CancelRead(_) => Untouched(w)
    case CancelCampaign(cid, seen) => Untouched(w) && cid in db.campaigns && !seen.IsTerminal()
    case CancelRuns(cid, seen) =>
      w.runs == map[] && w.campaigns.Keys == {cid} && cid in db.campaigns && w.campaigns[cid].status.Cancelled?
        && !seen.IsTerminal()
    case Done(result) => Balanced(db, w) && ResultOk(db, w, result)
  }

  ghost predicate ReplacesOnly(db: Db, w: Writes, from: RunStatus) {
    forall r :: r in w.runs ==> r in db.runs && db.runs[r].status == from
  }

  // What the buffer of a transaction about to commit holds, by its result.
  ghost predicate ResultOk(db: Db, w: Writes, result: Result) {
    match result
    case Created(cid, rid) =>
      w.runs.Keys == {rid} && rid !in db.runs && w.campaigns.Keys == {cid}
      && cid !in db.campaigns
    case Started(rid) => rid in w.runs && w.runs[rid].status.Running? && ReplacesOnly(db, w, RunStatus.Pending)
    case Finished => ReplacesOnly(db, w, RunStatus.Running)
    case CancelWrote(cid, seen) =>
      && w.campaigns.Keys == {cid} && cid in db.campaigns && !seen.IsTerminal()
      && forall r :: r in w.runs ==> r in db.runs && w.runs[r].status.Cancelled?
    case _ => Untouched(w)
  }

  ghost predicate Exclusive(s: Sys) {
    forall t, u :: t in s.txs && u in s.txs && t != u ==>
      s.txs[t].w.campaigns.Keys !! s.txs[u].w.campaigns.Keys && s.txs[t].w.runs.Keys !! s.txs[u].w.runs.Keys
  }

  ghost predicate IdsUsed(s: Sys) {
    && s.db.campaigns.Keys <= s.used && s.db.runs.Keys <= s.used
    && forall t :: t in s.txs ==> s.txs[t].w.campaigns.Keys <= s.used && s.txs[t].w.runs.Keys <= s.used
  }

  // A logged start has left its run out of Pending for good, so no run is logged twice.
  ghost predicate StartedOnce(s: Sys) {
    && Distinct(s.started)
    && forall r :: r in s.started ==> r in s.db.runs && !s.db.runs[r].status.Pending?
  }

  ghost predicate Inv(s: Sys) {
    && Consistent(s.db)
    && Exclusive(s)
    && IdsUsed(s)
    && StartedOnce(s)
    && forall t :: t in s.txs ==> TxOk(s.db, s.txs[t])
  }
}
