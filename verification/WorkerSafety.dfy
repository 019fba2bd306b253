// What every schedule of the worker system keeps.

module WorkerSafety {
  import opened Prelude
  import opened Records
  import Store
  import opened WorkerSystem

  // ----- the tables -----

  lemma StepKeepsConsistent(s: Sys, a: Action)
    requires Consistent(s.db) && Enabled(s, a)
    ensures Consistent(Apply(s, a).db)
  {
    match a
    case Create(input, cid, rid, jid, now) => Store.CreateKeepsConsistent(s.db, input, cid, rid, jid, now);
    case Cancel(cid, now) => Store.CancelKeepsConsistent(s.db, cid, now);
    case Start(w, now, _) => Store.StartKeepsConsistent(s.db, s.stage[w].rid, now);
    case Finish(w, ids, now, _) => Store.FinishKeepsConsistent(s.db, s.stage[w].rid, s.stage[w].finish, ids, now);
    case _ =>
  }

  // The one run a step may be about.
  function Target(s: Sys, a: Action): Option<Id>
    requires Enabled(s, a)
  {
    match a
    case Start(w, _, _) => Some(s.stage[w].rid)
    case Finish(w, _, _, _) => Some(s.stage[w].rid)
    case _ => None
  }

  // A step keeps the run; it moves it to Cancelled from Pending or Running only, starts only the target of
  // a Start and finishes only the target of a Finish.
  predicate RunEvolved(s: Sys, a: Action, db': Db, r: Id)
    requires Enabled(s, a) && r in s.db.runs
  {
    && r in db'.runs && db'.runs[r].campaignId == s.db.runs[r].campaignId
    && (|| db'.runs[r].status == s.db.runs[r].status
        || (db'.runs[r].status.Cancelled? && !s.db.runs[r].status.IsTerminal())
        || (a.Start? && Target(s, a) == Some(r) && s.db.runs[r].status.Pending? && db'.runs[r].status.Running?)
        || (a.Finish? && Target(s, a) == Some(r) && s.db.runs[r].status.Running?
            && db'.runs[r].status == s.stage[a.w].finish.status.ToRunStatus()))
  }

  lemma RunsEvolve(s: Sys, a: Action, r: Id)
    requires Consistent(s.db) && Enabled(s, a) && r in s.db.runs
    ensures RunEvolved(s, a, Apply(s, a).db, r)
  {
    match a
    case Cancel(cid, now) => CancelEvolves(s, cid, now, r);
    case Start(_, _, _) => StartEvolves(s, a, r);
    case Finish(_, _, _, _) => FinishEvolves(s, a, r);
    case _ =>
  }

  lemma CancelEvolves(s: Sys, cid: Id, now: Time, r: Id)
    requires Consistent(s.db) && Enabled(s, Cancel(cid, now)) && r in s.db.runs
    ensures RunEvolved(s, Cancel(cid, now), Store.CancelCampaign(s.db, cid, now).0, r)
  {
    assert RunMirrored(s.db.campaigns, s.db.runs[r]);
  }

  lemma StartEvolves(s: Sys, a: Action, r: Id)
    requires Enabled(s, a) && a.Start? && r in s.db.runs
    ensures RunEvolved(s, a, Apply(s, a).db, r)
  {
  }

  lemma FinishEvolves(s: Sys, a: Action, r: Id)
    requires Enabled(s, a) && a.Finish? && r in s.db.runs
    ensures RunEvolved(s, a, Apply(s, a).db, r)
  {
  }

  // Steps other than creating and claiming leave the queue alone.
  lemma QueueUntouched(s: Sys, a: Action)
    requires Enabled(s, a) && !a.Create? && !a.Claim?
    ensures Apply(s, a).db.jobs == s.db.jobs && Apply(s, a).claims == s.claims && Apply(s, a).clock >= s.clock
  {
  }

  lemma JobsEvolve(s: Sys, a: Action, j: Id)
    requires Enabled(s, a) && j in s.db.jobs
    ensures var db' := Apply(s, a).db;
            && j in db'.jobs
            && db'.jobs[j].runId == s.db.jobs[j].runId
            && db'.jobs[j].createdAt == s.db.jobs[j].createdAt
            && (s.db.jobs[j].claimedBy.Some? ==> !(a.Claim? && a.jid == j) && db'.jobs[j] == s.db.jobs[j])
  {
    if !a.Create? && !a.Claim? {
      QueueUntouched(s, a);
    }
  }

  lemma StepKeepsJobs(s: Sys, a: Action)
    requires Consistent(s.db) && JobsOk(s.db, s.clock, s.claims) && Enabled(s, a)
    ensures JobsOk(Apply(s, a).db, Apply(s, a).clock, Apply(s, a).claims)
  {
    var s' := Apply(s, a);
    if a.Create? {
      CreateKeepsJobs(s.db, s.clock, s.claims, a.input, a.cid, a.rid, a.jid, a.now);
    } else if a.Claim? {
      if !a.reply.ErrorBefore? {
        ClaimKeepsJobs(s.db, s.clock, s.claims, a.jid, a.name);
      }
    } else {
      QueueUntouched(s, a);
      forall r | r in s.db.runs ensures r in s'.db.runs {
        RunsEvolve(s, a, r);
      }
    }
  }

  lemma CreateKeepsJobs(db: Db, clock: Time, claims: seq<Id>, input: NewCampaign, cid: Id, rid: Id, jid: Id, now: Time)
    requires JobsOk(db, clock, claims) && rid !in db.runs && jid !in db.jobs && now >= clock
    ensures JobsOk(Store.CreateCampaign(db, input, cid, rid, jid, now), now, claims)
  {
  }

  lemma ClaimKeepsJobs(db: Db, clock: Time, claims: seq<Id>, jid: Id, name: string)
    requires JobsOk(db, clock, claims) && Store.Claimable(db, jid)
    ensures JobsOk(Store.ClaimRow(db, jid, name), clock, claims + [jid])
  {
    assert jid !in claims;
  }

  // A job claimed just now was the oldest claimable one; a job created just now is the youngest.
  lemma StepKeepsFifo(s: Sys, a: Action)
    requires Consistent(s.db) && JobsOk(s.db, s.clock, s.claims) && Fifo(s.db) && Enabled(s, a)
    ensures Fifo(Apply(s, a).db)
  {
    var db' := Apply(s, a).db;
    forall j, k | j in db'.jobs && k in db'.jobs && db'.jobs[k].claimedBy.Some? && Store.Claimable(db', j)
      ensures db'.jobs[k].createdAt <= db'.jobs[j].createdAt
    {
      if a.Create? {
        assert k in s.db.jobs && db'.jobs[k] == s.db.jobs[k];
        assert j == a.jid || Store.Claimable(s.db, j);
      } else if a.Claim? {
        assert Store.Claimable(s.db, j);
      } else {
        QueueUntouched(s, a);
        RunsEvolve(s, a, s.db.jobs[j].runId);
        assert Store.Claimable(s.db, j);
      }
    }
  }

  // ----- the workers -----

  predicate Acts(a: Action, w: nat) {
    !a.Create? && !a.Cancel? && a.w == w
  }

  // Two busy workers hold different runs.
  lemma DifferentRuns(s: Sys, w: nat, u: nat)
    requires StagesOk(s) && JobsOk(s.db, s.clock, s.claims)
    requires w in s.stage && u in s.stage && w != u && !s.stage[w].Idle? && !s.stage[u].Idle?
    ensures s.stage[w].rid != s.stage[u].rid
  {
    assert StageOk(s, s.stage[w]) && StageOk(s, s.stage[u]);
  }

  // The history and hub entries of runs other than the actor's stay as they were.
  lemma OtherRunsFrame(s: Sys, a: Action, w: nat, r: Id)
    requires Enabled(s, a) && Acts(a, w) && w in s.stage
    requires !s.stage[w].Idle? ==> s.stage[w].rid != r
    ensures var s' := Apply(s, a);
            && (r in s'.invoked <==> r in s.invoked)
            && (r in s'.emitted <==> r in s.emitted)
            && Emissions(s', r) == Emissions(s, r)
            && (r in s'.reports <==> r in s.reports)
            && (r in s.reports ==> s'.reports[r] == s.reports[r])
            && Target(s, a) != Some(r)
  {
    match a
    case Claim(_, _, _, _) =>
    case Load(_, _) =>
    case Start(_, _, _) =>
    case Publish(_) =>
    case Return(_, _) =>
    case Emit(_) =>
    case Finish(_, _, _, _) =>
    case Close(_) =>
  }

  lemma OthersKeepTheirStage(s: Sys, a: Action, w: nat)
    requires Enabled(s, a) && w in s.stage && !Acts(a, w)
    ensures w in Apply(s, a).stage && Apply(s, a).stage[w] == s.stage[w]
  {
  }

  lemma ClientsKeepHistory(s: Sys, a: Action)
    requires Enabled(s, a) && (a.Create? || a.Cancel?)
    ensures var s' := Apply(s, a);
            && s'.stage == s.stage && s'.home == s.home && s'.open == s.open
            && s'.invoked == s.invoked && s'.emitted == s.emitted && s'.reports == s.reports
            && Target(s, a).None?
  {
  }

  lemma BystanderKeepsStage(s: Sys, a: Action, w: nat)
    requires Consistent(s.db) && JobsOk(s.db, s.clock, s.claims) && StagesOk(s)
    requires Enabled(s, a) && w in s.stage && !Acts(a, w)
    ensures StageOk(Apply(s, a), s.stage[w])
  {
    var st := s.stage[w];
    assert StageOk(s, st);
    if !st.Idle? {
      if a.Create? || a.Cancel? {
        ClientsKeepHistory(s, a);
      } else {
        if !s.stage[a.w].Idle? {
          DifferentRuns(s, w, a.w);
        }
        OtherRunsFrame(s, a, a.w, st.rid);
      }
      JobsEvolve(s, a, st.jid);
      RunsEvolve(s, a, st.rid);
      StageFrame(s, Apply(s, a), st);
    }
  }

  // `StageOk` reads only this much of the system.
  lemma StageFrame(s: Sys, s': Sys, st: Stage)
    requires StageOk(s, st) && !st.Idle?
    requires st.jid in s'.db.jobs && s'.db.jobs[st.jid] == s.db.jobs[st.jid]
    requires st.rid in s.db.runs ==> (
               && st.rid in s'.db.runs
               && (s'.db.runs[st.rid].status == s.db.runs[st.rid].status || s'.db.runs[st.rid].status.Cancelled?))
    requires (st.rid in s'.invoked <==> st.rid in s.invoked) && (st.rid in s'.emitted <==> st.rid in s.emitted)
    requires Emissions(s', st.rid) == Emissions(s, st.rid) && (st.rid in s'.reports <==> st.rid in s.reports)
    requires st.rid in s.reports ==> s'.reports[st.rid] == s.reports[st.rid]
    ensures StageOk(s', st)
  {
  }

  lemma ActorKeepsStage(s: Sys, a: Action, w: nat)
    requires Consistent(s.db) && w in s.stage && StageOk(s, s.stage[w]) && InvokedOk(s)
    requires Enabled(s, a) && Acts(a, w)
    ensures w in Apply(s, a).stage && StageOk(Apply(s, a), Apply(s, a).stage[w])
  {
    match a
    case Claim(_, _, _, _) => ClaimKeepsStage(s, a, w);
    case Load(_, _) => LocalKeepsStage(s, a, w);
    case Start(_, _, _) => StartKeepsStage(s, a, w);
    case Publish(_) => PublishKeepsStage(s, a, w);
    case Return(_, _) => LocalKeepsStage(s, a, w);
    case Emit(_) => LocalKeepsStage(s, a, w);
    case Finish(_, _, _, _) => FinishKeepsStage(s, a, w);
    case Close(_) => LocalKeepsStage(s, a, w);
  }

  lemma ClaimKeepsStage(s: Sys, a: Action, w: nat)
    requires w in s.stage && StageOk(s, s.stage[w]) && a.Claim? && Enabled(s, a) && Acts(a, w)
    ensures w in Apply(s, a).stage && StageOk(Apply(s, a), Apply(s, a).stage[w])
  {
  }

  lemma PublishKeepsStage(s: Sys, a: Action, w: nat)
    requires w in s.stage && StageOk(s, s.stage[w]) && a.Publish? && Enabled(s, a) && Acts(a, w)
    ensures w in Apply(s, a).stage && StageOk(Apply(s, a), Apply(s, a).stage[w])
  {
  }

  lemma LocalKeepsStage(s: Sys, a: Action, w: nat)
    requires w in s.stage && StageOk(s, s.stage[w]) && (a.Load? || a.Return? || a.Emit? || a.Close?) && Enabled(s, a)
      && Acts(a, w)
    ensures w in Apply(s, a).stage && StageOk(Apply(s, a), Apply(s, a).stage[w])
  {
  }

  // A run that `start_run` just moved out of Pending has no history.
  lemma StartKeepsStage(s: Sys, a: Action, w: nat)
    requires w in s.stage && StageOk(s, s.stage[w]) && InvokedOk(s) && a.Start? && Enabled(s, a) && Acts(a, w)
    ensures w in Apply(s, a).stage && StageOk(Apply(s, a), Apply(s, a).stage[w])
  {
    var st := s.stage[w];
    var s' := Apply(s, a);
    QueueUntouched(s, a);
    if s'.stage[w].Started? {
      assert s'.stage[w] == Started(st.jid, st.rid);
      assert st.rid !in s.invoked;
      assert s'.db.runs[st.rid].status.Running?;
    } else {
      assert s'.stage[w].Idle?;
    }
  }

  lemma FinishKeepsStage(s: Sys, a: Action, w: nat)
    requires Consistent(s.db) && w in s.stage && StageOk(s, s.stage[w]) && a.Finish? && Enabled(s, a) && Acts(a, w)
    ensures w in Apply(s, a).stage && StageOk(Apply(s, a), Apply(s, a).stage[w])
  {
    var st := s.stage[w];
    var s' := Apply(s, a);
    QueueUntouched(s, a);
    RunsEvolve(s, a, st.rid);
    assert s'.stage[w] == Closing(st.jid, st.rid, st.finish);
    assert Emissions(s', st.rid) == Emissions(s, st.rid);
  }

  lemma SameWorkers(s: Sys, a: Action)
    requires Enabled(s, a)
    ensures Apply(s, a).stage.Keys == s.stage.Keys && Apply(s, a).home == s.home
  {
  }

  lemma StageKept(s: Sys, a: Action, w: nat)
    requires Consistent(s.db) && JobsOk(s.db, s.clock, s.claims) && StagesOk(s) && InvokedOk(s) && Enabled(s, a)
      && w in s.stage
    ensures w in Apply(s, a).stage && StageOk(Apply(s, a), Apply(s, a).stage[w])
  {
    assert StageOk(s, s.stage[w]);
    if Acts(a, w) {
      ActorKeepsStage(s, a, w);
    } else {
      OthersKeepTheirStage(s, a, w);
      BystanderKeepsStage(s, a, w);
    }
  }

  lemma StepKeepsStages(s: Sys, a: Action)
    requires Consistent(s.db) && JobsOk(s.db, s.clock, s.claims) && StagesOk(s) && InvokedOk(s) && Enabled(s, a)
    ensures StagesOk(Apply(s, a))
  {
    var s' := Apply(s, a);
    SameWorkers(s, a);
    forall w | w in s'.stage ensures StageOk(s', s'.stage[w]) {
      StageKept(s, a, w);
    }
    StepKeepsJobsApart(s, a);
  }

  lemma StepKeepsJobsApart(s: Sys, a: Action)
    requires StagesOk(s) && Enabled(s, a)
    ensures var s' := Apply(s, a);
            forall w, u :: w in s'.stage && u in s'.stage && w != u && !s'.stage[w].Idle? && !s'.stage[u].Idle? ==>
              s'.stage[w].jid != s'.stage[u].jid
  {
    var s' := Apply(s, a);
    forall w, u | w in s'.stage && u in s'.stage && w != u && !s'.stage[w].Idle? && !s'.stage[u].Idle?
      ensures s'.stage[w].jid != s'.stage[u].jid
    {
      if Acts(a, w) {
        OthersKeepTheirStage(s, a, u);
        FreshClaim(s, a, w, u);
      } else if Acts(a, u) {
        OthersKeepTheirStage(s, a, w);
        FreshClaim(s, a, u, w);
      } else {
        OthersKeepTheirStage(s, a, w);
        OthersKeepTheirStage(s, a, u);
      }
    }
  }

  // After a worker's own step its job is still nobody else's.
  lemma FreshClaim(s: Sys, a: Action, w: nat, u: nat)
    requires StagesOk(s) && Enabled(s, a) && Acts(a, w) && w in s.stage && u in s.stage && w != u
    requires !s.stage[u].Idle? && !Apply(s, a).stage[w].Idle?
    ensures Apply(s, a).stage[w].jid != s.stage[u].jid
  {
    assert StageOk(s, s.stage[u]);
  }

  // ----- the hubs -----

  // Nobody else has the channel a starting worker is about to open.
  lemma ChannelIsNew(s: Sys, w: nat)
    requires StagesOk(s) && JobsOk(s.db, s.clock, s.claims) && HubOk(s)
    requires w in s.stage && s.stage[w].Started? && w in s.home
    ensures (s.home[w], s.stage[w].rid) !in s.open
  {
    var key := (s.home[w], s.stage[w].rid);
    var u := if key in s.open then s.open[key] else w;
    assert u in s.stage ==> StageOk(s, s.stage[u]);
    assert StageOk(s, s.stage[w]);
  }

  // What a step does to the hubs: only `publisher` adds a channel and only `close` removes one, each
  // for the acting worker's own run.
  lemma StepKeepsHub(s: Sys, a: Action)
    requires StagesOk(s) && JobsOk(s.db, s.clock, s.claims) && HubOk(s) && Enabled(s, a)
    ensures HubOk(Apply(s, a))
  {
    if a.Publish? {
      ChannelIsNew(s, a.w);
      PublishKeepsHub(s, a.w);
    } else if a.Close? {
      CloseKeepsHub(s, a.w);
    } else {
      if a.Create? || a.Cancel? {
        ClientsKeepHistory(s, a);
      }
      SameChannels(s, a);
    }
  }

  // Every other step leaves the hubs alone and keeps the acting worker inside or outside them.
  lemma SameChannels(s: Sys, a: Action)
    requires HubOk(s) && Enabled(s, a) && !a.Publish? && !a.Close?
    ensures HubOk(Apply(s, a))
  {
    var s' := Apply(s, a);
    SameWorkers(s, a);
    OpenUntouched(s, a);
    forall w | w in s.stage
      ensures s'.stage[w].Live() == s.stage[w].Live() && (s.stage[w].Live() ==> s'.stage[w].rid == s.stage[w].rid)
    {
      LiveKept(s, a, w);
    }
    HubFrame(s, s');
  }

  lemma OpenUntouched(s: Sys, a: Action)
    requires Enabled(s, a) && !a.Publish? && !a.Close?
    ensures Apply(s, a).open == s.open
  {
  }

  lemma LiveKept(s: Sys, a: Action, w: nat)
    requires Enabled(s, a) && !a.Publish? && !a.Close? && w in s.stage
    ensures w in Apply(s, a).stage && Apply(s, a).stage[w].Live() == s.stage[w].Live()
    ensures s.stage[w].Live() ==> Apply(s, a).stage[w].rid == s.stage[w].rid
  {
    if !Acts(a, w) {
      OthersKeepTheirStage(s, a, w);
    }
  }

  lemma HubFrame(s: Sys, s': Sys)
    requires HubOk(s) && s'.open == s.open && s'.home == s.home && s'.stage.Keys == s.stage.Keys
    requires forall w :: w in s.stage ==>
               s'.stage[w].Live() == s.stage[w].Live() && (s.stage[w].Live() ==> s'.stage[w].rid == s.stage[w].rid)
    ensures HubOk(s')
  {
  }

  lemma PublishKeepsHub(s: Sys, w: nat)
    requires HubOk(s) && Enabled(s, Publish(w)) && (s.home[w], s.stage[w].rid) !in s.open
    ensures HubOk(Apply(s, Publish(w)))
  {
  }

  lemma CloseKeepsHub(s: Sys, w: nat)
    requires StagesOk(s) && JobsOk(s.db, s.clock, s.claims) && HubOk(s) && Enabled(s, Close(w))
    ensures HubOk(Apply(s, Close(w)))
  {
    var s' := Apply(s, Close(w));
    forall u | u in s'.stage && s'.stage[u].Live()
      ensures u != w && s'.stage[u] == s.stage[u] && s.stage[u].rid != s.stage[w].rid
    {
      DifferentRuns(s, w, u);
    }
    CloseFrame(s, s', w);
  }

  lemma CloseFrame(s: Sys, s': Sys, w: nat)
    requires HubOk(s) && w in s.home && w in s.stage && s.stage[w].Live()
    requires s'.home == s.home && s'.stage == s.stage[w := Idle] && s'.open == s.open - {(s.home[w], s.stage[w].rid)}
    requires forall u :: u in s.stage && u != w && s.stage[u].Live() ==> s.stage[u].rid != s.stage[w].rid
    ensures HubOk(s')
  {
  }

  // ----- the history -----

  lemma StepKeepsHistory(s: Sys, a: Action)
    requires Consistent(s.db) && StagesOk(s) && HistoryOk(s) && Enabled(s, a)
    ensures HistoryOk(Apply(s, a))
  {
    var s' := Apply(s, a);
    HistoryGrows(s, a);
    forall r | r in s'.invoked ensures r in s'.db.runs && !s'.db.runs[r].status.Pending? {
      RunsEvolve(s, a, r);
    }
    forall r | r in s'.reports ensures StoredAs(s'.db, r, s'.reports[r]) {
      StoredReportKept(s, a, r);
    }
  }

  // Only `publisher` adds an invocation, of a run that had none; emissions and reports follow one.
  lemma HistoryGrows(s: Sys, a: Action)
    requires StagesOk(s) && HistoryOk(s) && Enabled(s, a)
    ensures var s' := Apply(s, a);
            && Distinct(s'.invoked)
            && (forall r :: r in s'.invoked ==> r in s.db.runs && !s.db.runs[r].status.Pending?)
            && (forall r :: r in s'.emitted ==> r in s'.invoked)
            && (forall r :: r in s'.reports ==> r in s'.invoked)
  {
    if a.Create? || a.Cancel? {
      ClientsKeepHistory(s, a);
    } else {
      assert StageOk(s, s.stage[a.w]);
    }
  }

  lemma StoredReportKept(s: Sys, a: Action, r: Id)
    requires Consistent(s.db) && StagesOk(s) && HistoryOk(s) && Enabled(s, a) && r in Apply(s, a).reports
    ensures StoredAs(Apply(s, a).db, r, Apply(s, a).reports[r])
  {
    if a.Finish? && r == s.stage[a.w].rid {
      assert StageOk(s, s.stage[a.w]);
      FinishedReportStored(s, a, r);
    } else {
      OtherReports(s, a, r);
      assert StoredAs(s.db, r, s.reports[r]);
      RunsEvolve(s, a, r);
    }
  }

  lemma OtherReports(s: Sys, a: Action, r: Id)
    requires Enabled(s, a) && r in Apply(s, a).reports && !(a.Finish? && r == s.stage[a.w].rid)
    ensures r in s.reports && Apply(s, a).reports[r] == s.reports[r]
  {
  }

  lemma FinishedReportStored(s: Sys, a: Action, r: Id)
    requires Consistent(s.db) && a.Finish? && Enabled(s, a) && r == s.stage[a.w].rid && StageOk(s, s.stage[a.w])
    requires r in Apply(s, a).reports
    ensures StoredAs(Apply(s, a).db, r, Apply(s, a).reports[r])
  {
    RunsEvolve(s, a, r);
  }

  // ----- the findings -----

  lemma {:induction false} FindingsOfAppend(a: seq<Finding>, b: seq<Finding>, r: Id)
    ensures FindingsOf(a + b, r) == FindingsOf(a, r) + FindingsOf(b, r)
  {
    if a == [] {
      assert a + b == b;
    } else {
      var first := if a[0].runId == r then [a[0]] else [];
      var rest, after := FindingsOf(a[1..], r), FindingsOf(b, r);
      FindingsOfAppend(a[1..], b, r);
      assert (a + b)[0] == a[0] && (a + b)[1..] == a[1..] + b;
      assert FindingsOf(a, r) == first + rest;
      assert first + (rest + after) == (first + rest) + after;
    }
  }

  lemma {:induction false} FindingsOfRows(rows: seq<Finding>, rid: Id, r: Id)
    requires forall f :: f in rows ==> f.runId == rid
    ensures FindingsOf(rows, r) == if r == rid then rows else []
  {
    if rows != [] {
      FindingsOfRows(rows[1..], rid, r);
    }
  }

  // `start_run` deletes findings only of a run that has none; `finish_run` adds the runner's, all at
  // once, to a run that has none.
  lemma StepKeepsFindings(s: Sys, a: Action)
    requires FindingsOk(s) && InvokedOk(s) && StagesOk(s) && Enabled(s, a)
    ensures FindingsOk(Apply(s, a))
    ensures a.Start? ==> Apply(s, a).db.findings == s.db.findings
    ensures a.Finish? && Apply(s, a).db.findings != s.db.findings ==> FindingsOf(s.db.findings, s.stage[a.w].rid) == []
  {
    if a.Start? {
      StartKeepsFindings(s, a);
    } else if a.Finish? {
      assert StageOk(s, s.stage[a.w]);
      FinishKeepsFindings(s, a);
    } else {
      OnlyStartAndFinishTouchFindings(s, a);
    }
  }

  lemma NoFindingsWithoutReport(s: Sys, r: Id)
    requires FindingsOk(s) && r !in s.reports
    ensures FindingsOf(s.db.findings, r) == []
  {
    assert |Bodies(FindingsOf(s.db.findings, r))| == |FindingsOf(s.db.findings, r)|;
  }

  lemma {:induction false} NothingToDelete(findings: seq<Finding>, r: Id)
    requires FindingsOf(findings, r) == []
    ensures FindingsNotOf(findings, r) == findings
  {
    if findings != [] {
      NothingToDelete(findings[1..], r);
    }
  }

  lemma OnlyStartAndFinishTouchFindings(s: Sys, a: Action)
    requires Enabled(s, a) && !a.Start? && !a.Finish?
    ensures Apply(s, a).db.findings == s.db.findings && Apply(s, a).reports == s.reports
  {
  }

  // A pending run was never handed to the runner, so nothing was reported for it.
  lemma PendingHasNoFindings(s: Sys, r: Id)
    requires FindingsOk(s) && InvokedOk(s) && r in s.db.runs && s.db.runs[r].status.Pending?
    ensures FindingsNotOf(s.db.findings, r) == s.db.findings
  {
    NoFindingsWithoutReport(s, r);
    NothingToDelete(s.db.findings, r);
  }

  lemma StartOnlyDeletes(s: Sys, a: Action)
    requires a.Start? && Enabled(s, a)
    ensures var r := s.stage[a.w].rid;
            && Apply(s, a).reports == s.reports
            && (Apply(s, a).db.findings == s.db.findings
                || (r in s.db.runs && s.db.runs[r].status.Pending?
                    && Apply(s, a).db.findings == FindingsNotOf(s.db.findings, r)))
  {
  }

  lemma StartKeepsFindings(s: Sys, a: Action)
    requires FindingsOk(s) && InvokedOk(s) && a.Start? && Enabled(s, a)
    ensures FindingsOk(Apply(s, a)) && Apply(s, a).db.findings == s.db.findings
  {
    var r := s.stage[a.w].rid;
    StartOnlyDeletes(s, a);
    if r in s.db.runs && s.db.runs[r].status.Pending? {
      PendingHasNoFindings(s, r);
    }
    FindingsFrame(s, Apply(s, a));
  }

  lemma FindingsFrame(s: Sys, s': Sys)
    requires FindingsOk(s) && s'.db.findings == s.db.findings && s'.reports == s.reports
    ensures FindingsOk(s')
  {
  }

  lemma FinishKeepsFindings(s: Sys, a: Action)
    requires FindingsOk(s) && a.Finish? && Enabled(s, a) && StageOk(s, s.stage[a.w])
    ensures FindingsOk(Apply(s, a)) && FindingsOf(s.db.findings, s.stage[a.w].rid) == []
  {
    NoFindingsWithoutReport(s, s.stage[a.w].rid);
    var s' := Apply(s, a);
    if s'.db.findings != s.db.findings || s'.reports != s.reports {
      var st := s.stage[a.w];
      var rows := Store.FindingRows(st.rid, st.finish.findings, a.ids, a.now);
      assert s'.db.findings == s.db.findings + rows && s'.reports == s.reports[st.rid := st.finish];
      forall r ensures Bodies(FindingsOf(s'.db.findings, r)) == if r in s'.reports then s'.reports[r].findings else [] {
        RowsOfOneRun(s.db.findings, rows, st.rid, st.finish.findings, r);
      }
    }
  }

  lemma RowsOfOneRun(findings: seq<Finding>, rows: seq<Finding>, rid: Id, bodies: seq<NewFinding>, r: Id)
    requires |rows| == |bodies| && forall i :: 0 <= i < |rows| ==> rows[i].runId == rid && rows[i].body == bodies[i]
    requires Bodies(FindingsOf(findings, rid)) == []
    ensures Bodies(FindingsOf(findings + rows, r)) == if r == rid then bodies else Bodies(FindingsOf(findings, r))
  {
    FindingsOfAppend(findings, rows, r);
    FindingsOfRows(rows, rid, r);
    var before := FindingsOf(findings, r);
    if r == rid {
      assert |before| == |Bodies(before)| == 0;
      assert before + rows == rows;
      assert Bodies(rows) == bodies;
    } else {
      assert before + [] == before;
    }
  }

  // ----- every schedule -----

  lemma StepKeepsInv(s: Sys, a: Action)
    requires Inv(s) && Enabled(s, a)
    ensures Inv(Apply(s, a))
  {
    StepKeepsConsistent(s, a);
    StepKeepsJobs(s, a);
    StepKeepsFifo(s, a);
    StepKeepsStages(s, a);
    StepKeepsHub(s, a);
    StepKeepsHistory(s, a);
    StepKeepsFindings(s, a);
  }

  lemma {:induction false} BehaviourKeepsInv(b: seq<Sys>, actions: seq<Action>, i: nat)
    requires Behaviour(b, actions) && i < |b|
    ensures Inv(b[i])
  {
    if i == 0 {
      assert Bodies([]) == [];
    } else {
      BehaviourKeepsInv(b, actions, i - 1);
      assert StepAt(b, actions, i - 1);
      StepKeepsInv(b[i - 1], actions[i - 1]);
    }
  }

  lemma StepKeepsOneJobEach(s: Sys, a: Action)
    requires OneJobEach(s.db) && Enabled(s, a)
    ensures OneJobEach(Apply(s, a).db)
  {
    match a
    case Create(input, cid, rid, jid, now) => Store.CreateKeepsJobs(s.db, input, cid, rid, jid, now);
    case Cancel(cid, now) => Store.CancelKeepsJobs(s.db, cid, now);
    case Claim(_, jid, name, _) => Store.ClaimKeepsJobs(s.db, jid, name);
    case Start(w, now, _) => Store.StartKeepsJobs(s.db, s.stage[w].rid, now);
    case Finish(w, ids, now, _) => Store.FinishKeepsJobs(s.db, s.stage[w].rid, s.stage[w].finish, ids, now);
    case _ =>
  }

  lemma {:induction false} BehaviourKeepsOneJobEach(b: seq<Sys>, actions: seq<Action>, i: nat)
    requires Behaviour(b, actions) && i < |b|
    ensures OneJobEach(b[i].db)
  {
    if i > 0 {
      BehaviourKeepsOneJobEach(b, actions, i - 1);
      assert StepAt(b, actions, i - 1);
      StepKeepsOneJobEach(b[i - 1], actions[i - 1]);
    }
  }

  // In every schedule each campaign has exactly one run, each run exactly one job, and the job names both.
  lemma OneRunAndJobEach(b: seq<Sys>, actions: seq<Action>, i: nat)
    requires Behaviour(b, actions) && i < |b|
    ensures Consistent(b[i].db) && OneJobEach(b[i].db)
  {
    BehaviourKeepsInv(b, actions, i);
    BehaviourKeepsOneJobEach(b, actions, i);
  }

  // In every schedule the runner is invoked at most once per run and each job is claimed at most once.
  lemma InvokedAndClaimedAtMostOnce(b: seq<Sys>, actions: seq<Action>, i: nat)
    requires Behaviour(b, actions) && i < |b|
    ensures Distinct(b[i].invoked) && Distinct(b[i].claims)
    ensures forall j :: j in b[i].db.jobs ==> b[i].db.jobs[j].attempts <= 1
    ensures forall w, u :: w in b[i].stage && u in b[i].stage && w != u && !b[i].stage[w].Idle? && !b[i].stage[u].Idle?
                           ==> b[i].stage[w].rid != b[i].stage[u].rid
  {
    BehaviourKeepsInv(b, actions, i);
    var s := b[i];
    forall w, u | w in s.stage && u in s.stage && w != u && !s.stage[w].Idle? && !s.stage[u].Idle?
      ensures s.stage[w].rid != s.stage[u].rid
    {
      DifferentRuns(s, w, u);
    }
  }

  // A run's stored findings are empty or exactly what its one `finish_run` stored, cancelled or not,
  // and the run then stands at the outcome that was stored or at Cancelled, from then on.
  lemma FindingsAndOutcomeKept(b: seq<Sys>, actions: seq<Action>, i: nat, r: Id)
    requires Behaviour(b, actions) && i < |b|
    ensures Bodies(FindingsOf(b[i].db.findings, r)) == if r in b[i].reports then b[i].reports[r].findings else []
    ensures r in b[i].reports ==>
      && r in b[i].invoked && r in b[i].db.runs
      && (SaysOutcome(b[i].db.runs[r].status, b[i].reports[r].status) || b[i].db.runs[r].status.Cancelled?)
  {
    BehaviourKeepsInv(b, actions, i);
    assert r in b[i].reports ==> StoredAs(b[i].db, r, b[i].reports[r]);
  }

  // A report, once stored, is the run's only one.
  lemma {:induction false} ReportsAreFinal(b: seq<Sys>, actions: seq<Action>, i: nat, j: nat, r: Id)
    requires Behaviour(b, actions) && i <= j < |b| && r in b[i].reports
    ensures r in b[j].reports && b[j].reports[r] == b[i].reports[r]
  {
    if i < j {
      ReportsAreFinal(b, actions, i, j - 1, r);
      BehaviourKeepsReport(b, actions, j - 1, r);
    }
  }

  lemma BehaviourKeepsReport(b: seq<Sys>, actions: seq<Action>, i: nat, r: Id)
    requires Behaviour(b, actions) && i < |actions| && r in b[i].reports
    ensures r in b[i + 1].reports && b[i + 1].reports[r] == b[i].reports[r]
  {
    BehaviourKeepsInv(b, actions, i);
    assert StepAt(b, actions, i);
    StepKeepsReport(b[i], actions[i], r);
  }

  lemma StepKeepsReport(s: Sys, a: Action, r: Id)
    requires StagesOk(s) && Enabled(s, a) && r in s.reports
    ensures var s' := Apply(s, a); r in s'.reports && s'.reports[r] == s.reports[r]
  {
    if a.Finish? {
      assert StageOk(s, s.stage[a.w]);
    }
  }

  // With whole calls atomic, a terminal run stays exactly as it is.
  lemma {:induction false} TerminalRunsAreFinal(b: seq<Sys>, actions: seq<Action>, i: nat, j: nat, r: Id)
    requires Behaviour(b, actions) && i <= j < |b| && r in b[i].db.runs && b[i].db.runs[r].status.IsTerminal()
    ensures r in b[j].db.runs && b[j].db.runs[r].status == b[i].db.runs[r].status
  {
    if i < j {
      TerminalRunsAreFinal(b, actions, i, j - 1, r);
      BehaviourKeepsTerminal(b, actions, j - 1, r);
    }
  }

  lemma BehaviourKeepsTerminal(b: seq<Sys>, actions: seq<Action>, i: nat, r: Id)
    requires Behaviour(b, actions) && i < |actions| && r in b[i].db.runs && b[i].db.runs[r].status.IsTerminal()
    ensures r in b[i + 1].db.runs && b[i + 1].db.runs[r].status == b[i].db.runs[r].status
  {
    BehaviourKeepsInv(b, actions, i);
    assert StepAt(b, actions, i);
    StepKeepsTerminal(b[i], actions[i], r);
  }

  lemma StepKeepsTerminal(s: Sys, a: Action, r: Id)
    requires Consistent(s.db) && Enabled(s, a) && r in s.db.runs && s.db.runs[r].status.IsTerminal()
    ensures var db' := Apply(s, a).db; r in db'.runs && db'.runs[r].status == s.db.runs[r].status
  {
    RunsEvolve(s, a, r);
  }

  // First in, first out: once a job is claimed, every job created before it is claimed too or its run
  // has left Pending.
  lemma ClaimedInOrder(b: seq<Sys>, actions: seq<Action>, i: nat, older: Id, newer: Id)
    requires Behaviour(b, actions) && i < |b|
    requires older in b[i].db.jobs && newer in b[i].db.jobs
      && b[i].db.jobs[older].createdAt < b[i].db.jobs[newer].createdAt
    requires b[i].db.jobs[newer].claimedBy.Some?
    ensures b[i].db.jobs[older].runId in b[i].db.runs
    ensures b[i].db.jobs[older].claimedBy.Some? || !b[i].db.runs[b[i].db.jobs[older].runId].status.Pending?
  {
    BehaviourKeepsInv(b, actions, i);
  }

  // The channels of one process's hub.
  ghost function Channels(s: Sys, process: nat): set<Id> {
    set key | key in s.open && key.0 == process :: key.1
  }

  ghost function PoolOf(s: Sys, process: nat): set<nat> {
    set w | w in s.home && s.home[w] == process
  }

  // A process's hub has a channel for exactly the runs one of its workers is between `publisher` and
  // `close` on, so it never outgrows the worker pool.
  lemma HubIsTheLiveRuns(b: seq<Sys>, actions: seq<Action>, i: nat, process: nat)
    requires Behaviour(b, actions) && i < |b|
    ensures forall r :: r in Channels(b[i], process) <==>
              exists w :: w in PoolOf(b[i], process) && w in b[i].stage && b[i].stage[w].Live()
                && b[i].stage[w].rid == r
    ensures |Channels(b[i], process)| <= |PoolOf(b[i], process)|
  {
    BehaviourKeepsInv(b, actions, i);
    var s := b[i];
    forall r | r in Channels(s, process)
      ensures exists w :: w in PoolOf(s, process) && w in s.stage && s.stage[w].Live() && s.stage[w].rid == r
    {
      var w := s.open[(process, r)];
      assert w in PoolOf(s, process) && w in s.stage && s.stage[w].Live() && s.stage[w].rid == r;
    }
    forall r, w | w in PoolOf(s, process) && w in s.stage && s.stage[w].Live() && s.stage[w].rid == r
      ensures r in Channels(s, process)
    {
      assert (process, r) in s.open;
    }
    FewerChannels(s, process, Channels(s, process), PoolOf(s, process));
  }

  lemma {:induction false} FewerChannels(s: Sys, process: nat, channels: set<Id>, pool: set<nat>)
    requires HubOk(s)
    requires forall r :: r in channels ==> (process, r) in s.open && s.open[(process, r)] in pool
    ensures |channels| <= |pool|
    decreases |channels|
  {
    if channels != {} {
      var r :| r in channels;
      var w := s.open[(process, r)];
      FewerChannels(s, process, channels - {r}, pool - {w});
    }
  }

  // While the runner works, the worker has emitted exactly Running for its run, and afterwards exactly
  // Running and then the outcome; the store, once it has been told, was told that outcome and holds it
  // or Cancelled.
  lemma EmissionsMatchStore(b: seq<Sys>, actions: seq<Action>, i: nat, w: nat)
    requires Behaviour(b, actions) && i < |b| && w in b[i].stage && b[i].stage[w].Live()
    ensures var s, st := b[i], b[i].stage[w];
            && Emissions(s, st.rid) == [RunStatus.Running]
               + (if st.Emitted? || st.Closing? then [st.finish.status.ToRunStatus()] else [])
            && (st.rid in s.reports ==>
                 st.Closing? && s.reports[st.rid] == st.finish && StoredAs(s.db, st.rid, st.finish))
  {
    BehaviourKeepsInv(b, actions, i);
    LiveEmissions(b[i], w);
  }

  lemma LiveEmissions(s: Sys, w: nat)
    requires StagesOk(s) && HistoryOk(s) && w in s.stage && s.stage[w].Live()
    ensures var st := s.stage[w];
            && Emissions(s, st.rid) == [RunStatus.Running]
               + (if st.Emitted? || st.Closing? then [st.finish.status.ToRunStatus()] else [])
            && (st.rid in s.reports ==>
                 st.Closing? && s.reports[st.rid] == st.finish && StoredAs(s.db, st.rid, st.finish))
  {
    assert StageOk(s, s.stage[w]);
    var st := s.stage[w];
    assert st.rid in s.reports ==> StoredAs(s.db, st.rid, s.reports[st.rid]);
  }
}
