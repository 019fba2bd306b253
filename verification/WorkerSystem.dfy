// Any number of workers, in any number of server processes, pulling jobs from one store while clients
// create and cancel campaigns. Every `Store` call, hub call and runner invocation is one atomic step;
// a store call that errors may or may not have taken effect, and the runner returns anything.

module WorkerSystem {
  import opened Prelude
  import opened Records
  import Store

  // Where a worker is in `run_loop` / `process`, with the local variables that matter there.
  datatype Stage =
    | Idle
    | Claimed(jid: Id, cid: Id, rid: Id)                       // next: load the campaign and its target
    | Loaded(jid: Id, cid: Id, rid: Id)                        // next: start_run
    | Started(jid: Id, rid: Id)                                // next: open the channel, emit Running
    | Invoking(jid: Id, rid: Id)                               // the runner is at work
    | Returned(jid: Id, rid: Id, finish: RunFinish)            // next: emit the terminal status
    | Emitted(jid: Id, rid: Id, finish: RunFinish)             // next: finish_run
    | Closing(jid: Id, rid: Id, finish: RunFinish)             // next: close the channel
  {
    // Between `publisher` and `close`.
    predicate Live() {
      Invoking? || Returned? || Emitted? || Closing?
    }
  }

  // `home` is each worker's process. `open` is the union of the processes' hubs: the live channels,
  // keyed by process and run, each with the worker that opened it. `claims`, `invoked`, `emitted` and
  // `reports` record the past: jobs claimed, runs handed to the runner, the statuses the workers have
  // emitted for a run, and the outcome that a run's `finish_run` stored.
  datatype Sys = Sys(
    db: Db,
    clock: Time,
    home: map<nat, nat>,
    stage: map<nat, Stage>,
    open: map<(nat, Id), nat>,
    claims: seq<Id>,
    invoked: seq<Id>,
    emitted: map<Id, seq<RunStatus>>,
    reports: map<Id, RunFinish>)

  // How a store call came back: its result, an error before it took effect, or an error after.
  datatype Reply = Answered | ErrorBefore | ErrorAfter

  datatype Action =
    | Create(input: NewCampaign, cid: Id, rid: Id, jid: Id, now: Time)
    | Cancel(cid: Id, now: Time)
    | Claim(w: nat, jid: Id, name: string, reply: Reply)
    | Load(w: nat, found: bool)
    | Start(w: nat, now: Time, reply: Reply)
    | Publish(w: nat)
    | Return(w: nat, finish: RunFinish)
    | Emit(w: nat)
    | Finish(w: nat, ids: seq<Id>, now: Time, reply: Reply)
    | Close(w: nat)

  // What `process` can make of a runner's result: an error becomes Failed with nothing found.
  predicate FromRunner(finish: RunFinish) {
    finish.status.Failed? ==> finish.iterations == 0 && finish.logTail.Some? && finish.findings == []
  }

  predicate Oldest(db: Db, j: Id) {
    Store.Claimable(db, j) && forall k ::
      k in db.jobs && Store.Claimable(db, k) ==> db.jobs[j].createdAt <= db.jobs[k].createdAt
  }

  predicate Enabled(s: Sys, a: Action) {
    match a
    case Create(_, cid, rid, jid, now) =>
      cid !in s.db.campaigns && rid !in s.db.runs && jid !in s.db.jobs && now >= s.clock
    case Cancel(_, now) => now >= s.clock
    case Claim(w, jid, _, _) => w in s.stage && s.stage[w].Idle? && Oldest(s.db, jid)
    case Load(w, found) => w in s.stage && s.stage[w].Claimed? && (found ==> s.stage[w].cid in s.db.campaigns)
    case Start(w, now, _) => w in s.stage && s.stage[w].Loaded? && now >= s.clock
    case Publish(w) => w in s.stage && s.stage[w].Started? && w in s.home
    case Return(w, finish) => w in s.stage && s.stage[w].Invoking? && FromRunner(finish)
    case Emit(w) => w in s.stage && s.stage[w].Returned?
    case Finish(w, ids, now, _) =>
      w in s.stage && s.stage[w].Emitted? && |ids| == |s.stage[w].finish.findings| && now >= s.clock
    case Close(w) => w in s.stage && s.stage[w].Closing? && w in s.home
  }

  function Emissions(s: Sys, rid: Id): seq<RunStatus> {
    if rid in s.emitted then s.emitted[rid] else []
  }

  function Apply(s: Sys, a: Action): Sys
    requires Enabled(s, a)
  {
    match a
    case Create(input, cid, rid, jid, now) =>
      s.(db := Store.CreateCampaign(s.db, input, cid, rid, jid, now), clock := now)
    case Cancel(cid, now) => s.(db := Store.CancelCampaign(s.db, cid, now).0, clock := now)
    case Claim(w, jid, name, reply) =>
      if reply.ErrorBefore? then s
      else
        var job := s.db.jobs[jid];
        s.(db := Store.ClaimRow(s.db, jid, name), claims := s.claims + [jid],
           stage := if reply.Answered? then s.stage[w := Claimed(jid, job.campaignId, job.runId)] else s.stage)
    case Load(w, found) =>
      var st := s.stage[w];
      s.(stage := s.stage[w := if found then Loaded(st.jid, st.cid, st.rid) else Idle])
    case Start(w, now, reply) =>
      var st := s.stage[w];
      var (db', started) := Store.StartRun(s.db, st.rid, now);
      s.(db := if reply.ErrorBefore? then s.db else db', clock := now,
         stage := s.stage[w := if reply.Answered? && started then Started(st.jid, st.rid) else Idle])
    case Publish(w) =>
      var st := s.stage[w];
      var key := (s.home[w], st.rid);
      s.(open := if key in s.open then s.open else s.open[key := w],
         stage := s.stage[w := Invoking(st.jid, st.rid)], invoked := s.invoked + [st.rid],
         emitted := s.emitted[st.rid := Emissions(s, st.rid) + [RunStatus.Running]])
    case Return(w, finish) =>
      s.(stage := s.stage[w := Returned(s.stage[w].jid, s.stage[w].rid, finish)])
    case Emit(w) =>
      var st := s.stage[w];
      s.(stage := s.stage[w := Emitted(st.jid, st.rid, st.finish)],
         emitted := s.emitted[st.rid := Emissions(s, st.rid) + [st.finish.status.ToRunStatus()]])
    case Finish(w, ids, now, reply) =>
      var st := s.stage[w];
      var stored := Store.FinishRun(s.db, st.rid, st.finish, ids, now);
      var s' := s.(clock := now, stage := s.stage[w := Closing(st.jid, st.rid, st.finish)]);
      if reply.ErrorBefore? || stored.None? then s'
        else s'.(db := stored.value, reports := s.reports[st.rid := st.finish])
    case Close(w) =>
      s.(open := s.open - {(s.home[w], s.stage[w].rid)}, stage := s.stage[w := Idle])
  }

  ghost predicate Initial(s: Sys) {
    && s.db == EMPTY_DB && s.open == map[] && s.claims == [] && s.invoked == [] && s.emitted == map[]
       && s.reports == map[]
    && s.home.Keys == s.stage.Keys
    && forall w :: w in s.stage ==> s.stage[w].Idle?
  }

  ghost predicate StepAt(b: seq<Sys>, actions: seq<Action>, i: nat)
    requires i < |actions| && |b| == |actions| + 1
  {
    Enabled(b[i], actions[i]) && b[i + 1] == Apply(b[i], actions[i])
  }

  ghost predicate Behaviour(b: seq<Sys>, actions: seq<Action>) {
    && |b| == |actions| + 1
    && Initial(b[0])
    && forall i: nat :: i < |actions| ==> StepAt(b, actions, i)
  }

  // The message bodies of a run's stored findings.
  function Bodies(findings: seq<Finding>): seq<NewFinding> {
    seq(|findings|, i requires 0 <= i < |findings| => findings[i].body)
  }

  // ----- the invariant, part by part -----

  ghost predicate JobsOk(db: Db, clock: Time, claims: seq<Id>) {
    && (forall j :: j in db.jobs ==> db.jobs[j].runId in db.runs && db.jobs[j].createdAt <= clock)
    && (forall j, k :: j in db.jobs && k in db.jobs && db.jobs[j].runId == db.jobs[k].runId ==> j == k)
    && Distinct(claims)
    && (forall j :: j in claims <==> j in db.jobs && db.jobs[j].claimedBy.Some?)
    && (forall j :: j in db.jobs ==> db.jobs[j].attempts == if db.jobs[j].claimedBy.Some? then 1 else 0)
  }

  // A claimed job is never younger than one still waiting with a pending run.
  ghost predicate Fifo(db: Db) {
    forall j, k :: j in db.jobs && k in db.jobs && db.jobs[k].claimedBy.Some? && Store.Claimable(db, j)
                   ==> db.jobs[k].createdAt <= db.jobs[j].createdAt
  }

  // What a worker's stage promises about the job and run it holds.
  ghost predicate StageOk(s: Sys, st: Stage) {
    && (!st.Idle? ==> st.jid in s.db.jobs && s.db.jobs[st.jid].claimedBy.Some? && s.db.jobs[st.jid].runId == st.rid)
    && (st.Started? || st.Live() ==> st.rid in s.db.runs && !s.db.runs[st.rid].status.Pending?)
    && (st.Started? ==> st.rid !in s.invoked && st.rid !in s.emitted)
    && (st.Invoking? || st.Returned? || st.Emitted?
        ==> st.rid in s.invoked && st.rid !in s.reports && RunningOrCancelled(s.db, st.rid))
    && (st.Invoking? || st.Returned? ==> Emissions(s, st.rid) == [RunStatus.Running])
    && (st.Emitted? || st.Closing? ==> Emissions(s, st.rid) == [RunStatus.Running, st.finish.status.ToRunStatus()])
    && (st.Started? ==> RunningOrCancelled(s.db, st.rid) && st.rid !in s.reports)
    && (st.Closing? && st.rid in s.reports ==> s.reports[st.rid] == st.finish)
  }

  ghost predicate RunningOrCancelled(db: Db, r: Id) {
    r in db.runs && (db.runs[r].status.Running? || db.runs[r].status.Cancelled?)
  }

  ghost predicate StagesOk(s: Sys) {
    && s.home.Keys == s.stage.Keys
    && (forall w :: w in s.stage ==> StageOk(s, s.stage[w]))
    && (forall w, u :: w in s.stage && u in s.stage && w != u && !s.stage[w].Idle? && !s.stage[u].Idle? ==>
          s.stage[w].jid != s.stage[u].jid)
  }

  // The open channels are exactly those of the workers between `publisher` and `close`.
  ghost predicate HubOk(s: Sys) {
    && (forall w :: w in s.stage && s.stage[w].Live() ==>
          w in s.home && (s.home[w], s.stage[w].rid) in s.open && s.open[(s.home[w], s.stage[w].rid)] == w)
    && (forall key :: key in s.open ==>
          var w := s.open[key];
          w in s.stage && w in s.home && s.home[w] == key.0 && s.stage[w].Live() && s.stage[w].rid == key.1)
  }

  // Only a run that `start_run` moved out of Pending has a history, and it begins with its invocation.
  ghost predicate InvokedOk(s: Sys) {
    && (forall r :: r in s.invoked ==> r in s.db.runs && !s.db.runs[r].status.Pending?)
    && (forall r :: r in s.emitted ==> r in s.invoked)
    && (forall r :: r in s.reports ==> r in s.invoked)
  }

  ghost predicate HistoryOk(s: Sys) {
    && Distinct(s.invoked)
    && InvokedOk(s)
    && (forall r :: r in s.reports ==> StoredAs(s.db, r, s.reports[r]))
  }

  ghost predicate StoredAs(db: Db, r: Id, finish: RunFinish) {
    r in db.runs && (db.runs[r].status == finish.status.ToRunStatus() || db.runs[r].status.Cancelled?)
  }

  ghost predicate FindingsOk(s: Sys) {
    forall r :: Bodies(FindingsOf(s.db.findings, r)) == if r in s.reports then s.reports[r].findings else []
  }

  ghost predicate Inv(s: Sys) {
    && Consistent(s.db)
    && JobsOk(s.db, s.clock, s.claims)
    && Fifo(s.db)
    && StagesOk(s)
    && HubOk(s)
    && HistoryOk(s)
    && FindingsOk(s)
  }
}
