// What the workers can achieve: any job that is next in line can be done to the end, whatever the runner
// returns, from any state the system reaches.

module WorkerProgress {
  import opened Prelude
  import opened Records
  import Store
  import opened WorkerSystem
  import opened WorkerSafety

  lemma Extend(b: seq<Sys>, actions: seq<Action>, a: Action) returns (b': seq<Sys>, actions': seq<Action>)
    requires Behaviour(b, actions) && Enabled(b[|b| - 1], a)
    ensures Behaviour(b', actions') && b <= b' && |b'| == |b| + 1 && b'[|b|] == Apply(b[|b| - 1], a)
  {
    b', actions' := b + [Apply(b[|b| - 1], a)], actions + [a];
    forall i: nat | i < |actions'| ensures StepAt(b', actions', i) {
      assert i < |actions| ==> StepAt(b, actions, i);
    }
  }

  lemma HasHome(b: seq<Sys>, actions: seq<Action>, w: nat)
    requires Behaviour(b, actions) && w in b[|b| - 1].stage
    ensures w in b[|b| - 1].home
  {
    BehaviourKeepsInv(b, actions, |b| - 1);
  }

  // Worker `w` holds job `jid` of run `r`, which the runner is at work on.
  ghost predicate AtWork(s: Sys, w: nat, jid: Id, r: Id) {
    && w in s.stage && s.stage[w] == Invoking(jid, r)
    && r in s.db.runs && s.db.runs[r].status == RunStatus.Running
  }

  // An idle worker can claim the oldest job and load its campaign.
  lemma OldestCanBeLoaded(b: seq<Sys>, actions: seq<Action>, w: nat, jid: Id)
    returns (b': seq<Sys>, actions': seq<Action>, cid: Id)
    requires Behaviour(b, actions)
    requires var s := b[|b| - 1]; w in s.stage && s.stage[w].Idle? && Oldest(s.db, jid)
    ensures Behaviour(b', actions') && b <= b'
    ensures var s, s' := b[|b| - 1], b'[|b'| - 1];
            && w in s'.stage && s'.stage[w] == Loaded(jid, cid, s.db.jobs[jid].runId) && s'.db.runs == s.db.runs
  {
    var s := b[|b| - 1];
    var job := s.db.jobs[jid];
    cid := job.campaignId;
    OneRunAndJobEach(b, actions, |b| - 1);
    assert Owns(s.db.runs, job.runId, cid);
    assert RunMirrored(s.db.campaigns, s.db.runs[job.runId]);
    b', actions' := Extend(b, actions, Claim(w, jid, "", Answered));
    b', actions' := Extend(b', actions', Load(w, true));
  }

  lemma StartThenPublish(s: Sys, w: nat, jid: Id, cid: Id, r: Id)
    requires w in s.stage && s.stage[w] == Loaded(jid, cid, r) && w in s.home
    requires r in s.db.runs && s.db.runs[r].status == RunStatus.Pending
    ensures var s1 := Apply(s, Start(w, s.clock, Answered));
            Enabled(s1, Publish(w)) && AtWork(Apply(s1, Publish(w)), w, jid, r)
  {
    var s1 := Apply(s, Start(w, s.clock, Answered));
    assert s1.stage[w] == Started(jid, r) && s1.db.runs[r].status == RunStatus.Running;
  }

  // Then it can start the run and hand it to the runner.
  lemma OldestCanBeStarted(b: seq<Sys>, actions: seq<Action>, w: nat, jid: Id)
    returns (b': seq<Sys>, actions': seq<Action>)
    requires Behaviour(b, actions)
    requires var s := b[|b| - 1]; w in s.stage && s.stage[w].Idle? && Oldest(s.db, jid)
    ensures Behaviour(b', actions') && b <= b'
    ensures AtWork(b'[|b'| - 1], w, jid, b[|b| - 1].db.jobs[jid].runId)
  {
    var r := b[|b| - 1].db.jobs[jid].runId;
    var cid: Id;
    b', actions', cid := OldestCanBeLoaded(b, actions, w, jid);
    var loaded := b'[|b'| - 1];
    HasHome(b', actions', w);
    StartThenPublish(loaded, w, jid, cid, r);
    b', actions' := Extend(b', actions', Start(w, loaded.clock, Answered));
    b', actions' := Extend(b', actions', Publish(w));
  }

  lemma WorkCanBeAnnounced(b: seq<Sys>, actions: seq<Action>, w: nat, jid: Id, r: Id, finish: RunFinish)
    returns (b': seq<Sys>, actions': seq<Action>)
    requires Behaviour(b, actions) && AtWork(b[|b| - 1], w, jid, r) && FromRunner(finish)
    ensures Behaviour(b', actions') && b <= b'
    ensures var s := b'[|b'| - 1];
            w in s.stage && s.stage[w] == Emitted(jid, r, finish) && s.db == b[|b| - 1].db
  {
    b', actions' := Extend(b, actions, Return(w, finish));
    b', actions' := Extend(b', actions', Emit(w));
  }

  lemma FinishStores(s: Sys, w: nat, jid: Id, r: Id, finish: RunFinish, ids: seq<Id>)
    requires Consistent(s.db) && w in s.stage && s.stage[w] == Emitted(jid, r, finish) && |ids| == |finish.findings|
    requires r in s.db.runs && s.db.runs[r].status == RunStatus.Running
    ensures var s' := Apply(s, Finish(w, ids, s.clock, Answered));
            && w in s'.stage && s'.stage[w] == Closing(jid, r, finish)
            && r in s'.reports && s'.reports[r] == finish
            && r in s'.db.runs && SaysOutcome(s'.db.runs[r].status, finish.status)
  {
    Store.FinishDecides(s.db, r, finish, ids, s.clock);
  }

  // The runner can return anything, and what it returns can be announced and stored.
  lemma WorkCanBeStored(b: seq<Sys>, actions: seq<Action>, w: nat, jid: Id, r: Id, finish: RunFinish, ids: seq<Id>)
    returns (b': seq<Sys>, actions': seq<Action>)
    requires Behaviour(b, actions) && AtWork(b[|b| - 1], w, jid, r)
    requires FromRunner(finish) && |ids| == |finish.findings|
    ensures Behaviour(b', actions') && b <= b'
    ensures var s := b'[|b'| - 1];
            && w in s.stage && s.stage[w] == Closing(jid, r, finish)
            && r in s.reports && s.reports[r] == finish
            && r in s.db.runs && SaysOutcome(s.db.runs[r].status, finish.status)
  {
    b', actions' := WorkCanBeAnnounced(b, actions, w, jid, r, finish);
    var emitted := b'[|b'| - 1];
    OneRunAndJobEach(b', actions', |b'| - 1);
    FinishStores(emitted, w, jid, r, finish, ids);
    b', actions' := Extend(b', actions', Finish(w, ids, emitted.clock, Answered));
  }

  // The run stands at the outcome and the findings the runner returned, and the stream has shown Running
  // and then that outcome.
  ghost predicate RunDone(s: Sys, r: Id, finish: RunFinish) {
    && r in s.db.runs && SaysOutcome(s.db.runs[r].status, finish.status)
    && Bodies(FindingsOf(s.db.findings, r)) == finish.findings
    && |Emissions(s, r)| == 2 && Emissions(s, r)[0] == RunStatus.Running
    && SaysOutcome(Emissions(s, r)[1], finish.status)
  }

  lemma StoredIsDone(b: seq<Sys>, actions: seq<Action>, w: nat, jid: Id, r: Id, finish: RunFinish)
    requires Behaviour(b, actions)
    requires var s := b[|b| - 1];
             && w in s.stage && s.stage[w] == Closing(jid, r, finish)
             && r in s.reports && s.reports[r] == finish
             && r in s.db.runs && SaysOutcome(s.db.runs[r].status, finish.status)
    ensures RunDone(b[|b| - 1], r, finish) && w in b[|b| - 1].home
  {
    EmissionsMatchStore(b, actions, |b| - 1, w);
    FindingsAndOutcomeKept(b, actions, |b| - 1, r);
    HasHome(b, actions, w);
  }

  lemma CloseKeepsDone(s: Sys, w: nat, r: Id, finish: RunFinish)
    requires RunDone(s, r, finish) && Enabled(s, Close(w)) && s.stage[w].rid == r
    ensures var s' := Apply(s, Close(w));
            && RunDone(s', r, finish) && s'.home == s.home
            && w in s'.stage && s'.stage[w] == Idle && (s.home[w], r) !in s'.open
  {
  }

  // So the oldest job can be done, and then the worker is idle again and the channel closed.
  lemma OldestCanBeDone(b: seq<Sys>, actions: seq<Action>, w: nat, jid: Id, finish: RunFinish, ids: seq<Id>)
    returns (b': seq<Sys>, actions': seq<Action>)
    requires Behaviour(b, actions) && FromRunner(finish) && |ids| == |finish.findings|
    requires var s := b[|b| - 1]; w in s.stage && s.stage[w].Idle? && Oldest(s.db, jid)
    ensures Behaviour(b', actions') && b <= b'
    ensures var r, s := b[|b| - 1].db.jobs[jid].runId, b'[|b'| - 1];
            RunDone(s, r, finish) && w in s.stage && s.stage[w] == Idle && w in s.home && (s.home[w], r) !in s.open
  {
    var r := b[|b| - 1].db.jobs[jid].runId;
    b', actions' := OldestCanBeStarted(b, actions, w, jid);
    b', actions' := WorkCanBeStored(b', actions', w, jid, r, finish, ids);
    StoredIsDone(b', actions', w, jid, r, finish);
    CloseKeepsDone(b'[|b'| - 1], w, r, finish);
    b', actions' := Extend(b', actions', Close(w));
  }
}
