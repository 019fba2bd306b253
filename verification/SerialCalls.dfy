// A transaction that meets no other one's locks commits exactly what the whole call does, and what
// becomes possible once a cancellation does interleave.

module SerialCalls {
  import opened Prelude
  import opened Records
  import Store
  import opened Transactions
  import opened TransactionSafety

  // The transaction after up to `|ids|` of its statements, the tables standing still meanwhile.
  function Drive(db: Db, tx: Tx, ids: seq<Id>): Tx
    decreases |ids|
  {
    if ids == [] || tx.pc.Done? then tx else Drive(db, Execute(db, tx, ids[0]), ids[1..])
  }

  lemma DriveOnce(db: Db, tx: Tx, ids: seq<Id>)
    requires ids != [] && !tx.pc.Done?
    ensures Drive(db, tx, ids) == Drive(db, Execute(db, tx, ids[0]), ids[1..])
  {
  }

  // ----- each transaction, run alone, is the call -----

  lemma SerialCreate(db: Db, input: NewCampaign, now: Time, ids: seq<Id>)
    requires |ids| == 3
    ensures var tx := Drive(db, Tx(InsertCampaign(input), now, NO_WRITES), ids);
            && tx.pc == Done(Created(ids[0], ids[1]))
            && Merge(db, tx.w) == Store.CreateCampaign(db, input, ids[0], ids[1], ids[2], now)
  {
    var t0 := Tx(InsertCampaign(input), now, NO_WRITES);
    var t1 := Execute(db, t0, ids[0]);
    var t2 := Execute(db, t1, ids[1]);
    DriveOnce(db, t0, ids);
    DriveOnce(db, t1, ids[1..]);
    DriveOnce(db, t2, ids[1..][1..]);
    MergeCreated(db, input, now, ids[0], ids[1], ids[2]);
  }

  lemma MergeCreated(db: Db, input: NewCampaign, now: Time, cid: Id, rid: Id, jid: Id)
    ensures Merge(db, Writes(map[cid := Campaign(input, CampaignStatus.Queued, now)], map[rid := NewRun(cid)],
                             map[jid := Job(cid, rid, None, 0, now)], {}, []))
            == Store.CreateCampaign(db, input, cid, rid, jid, now)
  {
    WithoutNothing(db.findings);
    var campaign, run, job := Campaign(input, CampaignStatus.Queued, now), NewRun(cid), Job(cid, rid, None, 0, now);
    assert db.campaigns + map[cid := campaign] == db.campaigns[cid := campaign];
    assert db.runs + map[rid := run] == db.runs[rid := run];
    assert db.jobs + map[jid := job] == db.jobs[jid := job];
    assert db.findings + [] == db.findings;
  }

  // The guards of `start_run` all pass on a Pending run that its campaign mirrors.
  lemma StartStatements(db: Db, rid: Id, now: Time, ids: seq<Id>) returns (gone: set<Finding>)
    requires rid in db.runs && db.runs[rid].status.Pending? && RunMirrored(db.campaigns, db.runs[rid]) && |ids| == 5
    ensures gone == set f | f in db.findings && f.runId == rid
    ensures var cid := db.runs[rid].campaignId;
            Drive(db, Tx(Pc.StartRun(rid), now, NO_WRITES), ids)
            == Tx(Done(Started(rid)), now,
                  Writes(map[cid := db.campaigns[cid].(status := CampaignStatus.Running)],
                         map[rid := StartedRow(db.runs[rid], now)], map[], gone, []))
  {
    gone := set f | f in db.findings && f.runId == rid;
    var cid := db.runs[rid].campaignId;
    var rows := map[rid := StartedRow(db.runs[rid], now)];
    var t0 := Tx(Pc.StartRun(rid), now, NO_WRITES);
    var t1 := Tx(StartRunWait(rid), now, NO_WRITES);
    var t2 := Tx(StartDeleteFindings(rid, cid), now, Writes(map[], rows, map[], {}, []));
    var t3 := Tx(StartCampaign(rid, cid), now, Writes(map[], rows, map[], gone, []));
    var t4 := Tx(StartCampaignWait(rid, cid), now, Writes(map[], rows, map[], gone, []));
    DriveOnce(db, t0, ids);
    DriveOnce(db, t1, ids[1..]);
    DriveOnce(db, t2, ids[1..][1..]);
    DriveOnce(db, t3, ids[1..][1..][1..]);
    DriveOnce(db, t4, ids[1..][1..][1..][1..]);
  }

  lemma SerialStart(db: Db, rid: Id, now: Time, ids: seq<Id>)
    requires rid in db.runs ==> RunMirrored(db.campaigns, db.runs[rid])
    requires |ids| == 5
    ensures var tx := Drive(db, Tx(Pc.StartRun(rid), now, NO_WRITES), ids);
            && tx.pc == Done(if Store.StartRun(db, rid, now).1 then Started(rid) else NotStarted)
            && Merge(db, tx.w) == Store.StartRun(db, rid, now).0
  {
    if rid in db.runs && db.runs[rid].status.Pending? {
      var gone := StartStatements(db, rid, now, ids);
      WithoutRun(db.findings, rid, gone);
    } else {
      DriveOnce(db, Tx(Pc.StartRun(rid), now, NO_WRITES), ids);
      MergeOnlyFindings(db, []);
    }
  }

  // The statements of `finish_run` before it inserts findings.
  lemma FinishStatements(db: Db, rid: Id, finish: RunFinish, now: Time, front: seq<Id>, rest: seq<Id>)
    requires rid in db.runs && db.runs[rid].status.Running? && RunMirrored(db.campaigns, db.runs[rid]) && |front| == 3
    ensures var cid := db.runs[rid].campaignId;
            Drive(db, Tx(Pc.FinishRun(rid, finish), now, NO_WRITES), front + rest)
            == Drive(db, Tx(FinishFindings(rid, finish.findings), now,
                            Writes(map[cid := db.campaigns[cid].(status := finish.status.ToCampaignStatus())],
                                   map[rid := FinishedRow(db.runs[rid], finish, now)], map[], {}, [])), rest)
  {
    var cid := db.runs[rid].campaignId;
    var ids := front + rest;
    var t0 := Tx(Pc.FinishRun(rid, finish), now, NO_WRITES);
    var t1 := Tx(FinishRunWait(rid, finish), now, NO_WRITES);
    var t2 := Tx(FinishCampaign(rid, cid, finish), now,
                 Writes(map[], map[rid := FinishedRow(db.runs[rid], finish, now)], map[], {}, []));
    DriveOnce(db, t0, ids);
    DriveOnce(db, t1, ids[1..]);
    DriveOnce(db, t2, ids[1..][1..]);
    assert ids[1..][1..][1..] == rest;
  }

  // `front` feeds the statements before the findings, `ids` the findings, and `last` the final check.
  lemma SerialFinish(db: Db, rid: Id, finish: RunFinish, now: Time, front: seq<Id>, ids: seq<Id>, last: Id)
    requires rid in db.runs ==> RunMirrored(db.campaigns, db.runs[rid])
    requires |ids| == |finish.findings|
    requires |front| == if rid in db.runs && db.runs[rid].status.Running? then 3 else 1
    requires Store.FinishRun(db, rid, finish, ids, now).Some?
    ensures var tx := Drive(db, Tx(Pc.FinishRun(rid, finish), now, NO_WRITES), front + (ids + [last]));
            && tx.pc == Done(Finished)
            && Merge(db, tx.w) == Store.FinishRun(db, rid, finish, ids, now).value
  {
    if rid in db.runs && db.runs[rid].status.Running? {
      SerialFinishRunning(db, rid, finish, now, front, ids, last);
    } else {
      SerialFinishLate(db, rid, finish, now, front, ids, last);
    }
  }

  lemma SerialFinishRunning(db: Db, rid: Id, finish: RunFinish, now: Time, front: seq<Id>, ids: seq<Id>, last: Id)
    requires rid in db.runs && db.runs[rid].status.Running? && RunMirrored(db.campaigns, db.runs[rid])
    requires |ids| == |finish.findings| && |front| == 3
    ensures var tx := Drive(db, Tx(Pc.FinishRun(rid, finish), now, NO_WRITES), front + (ids + [last]));
            && tx.pc == Done(Finished)
            && Some(Merge(db, tx.w)) == Store.FinishRun(db, rid, finish, ids, now)
  {
    var cid := db.runs[rid].campaignId;
    var w := Writes(map[cid := db.campaigns[cid].(status := finish.status.ToCampaignStatus())],
                    map[rid := FinishedRow(db.runs[rid], finish, now)], map[], {}, []);
    FinishStatements(db, rid, finish, now, front, ids + [last]);
    DriveFindings(db, rid, finish.findings, now, w, ids, last);
    var rows := Store.FindingRows(rid, finish.findings, ids, now);
    assert w.inserted + rows == rows;
    MergeOneRow(db, cid, w.campaigns[cid], rid, w.runs[rid], rows);
  }

  // What the statements of a finish commit for a running run, column by column.
  lemma SerialFinishDecides(db: Db, rid: Id, finish: RunFinish, now: Time, front: seq<Id>, ids: seq<Id>, last: Id)
    requires Consistent(db) && rid in db.runs && db.runs[rid].status == RunStatus.Running
    requires |ids| == |finish.findings| && |front| == 3
    ensures db.runs[rid].campaignId in db.campaigns
    ensures var tx := Drive(db, Tx(Pc.FinishRun(rid, finish), now, NO_WRITES), front + (ids + [last]));
            Store.FinishedAs(db, Merge(db, tx.w), rid, finish, ids, now)
  {
    assert RunMirrored(db.campaigns, db.runs[rid]);
    SerialFinishRunning(db, rid, finish, now, front, ids, last);
    Store.FinishDecides(db, rid, finish, ids, now);
  }

  lemma SerialFinishLate(db: Db, rid: Id, finish: RunFinish, now: Time, front: seq<Id>, ids: seq<Id>, last: Id)
    requires !(rid in db.runs && db.runs[rid].status.Running?)
    requires |ids| == |finish.findings| && |front| == 1 && Store.FinishRun(db, rid, finish, ids, now).Some?
    ensures var tx := Drive(db, Tx(Pc.FinishRun(rid, finish), now, NO_WRITES), front + (ids + [last]));
            && tx.pc == Done(Finished)
            && Merge(db, tx.w) == Store.FinishRun(db, rid, finish, ids, now).value
  {
    DriveOnce(db, Tx(Pc.FinishRun(rid, finish), now, NO_WRITES), front + (ids + [last]));
    assert (front + (ids + [last]))[1..] == ids + [last];
    DriveFindings(db, rid, finish.findings, now, NO_WRITES, ids, last);
    WithoutNothing(db.findings);
    var rows := Store.FindingRows(rid, finish.findings, ids, now);
    assert NO_WRITES.inserted + rows == rows;
    MergeOnlyFindings(db, rows);
  }

  lemma {:induction false} DriveFindings(db: Db, rid: Id, rest: seq<NewFinding>, now: Time, w: Writes, ids: seq<Id>,
                                         last: Id)
    requires |ids| == |rest|
    ensures Drive(db, Tx(FinishFindings(rid, rest), now, w), ids + [last])
            == Tx(Done(Finished), now, w.(inserted := w.inserted + Store.FindingRows(rid, rest, ids, now)))
    decreases |rest|
  {
    DriveOnce(db, Tx(FinishFindings(rid, rest), now, w), ids + [last]);
    if rest == [] {
      assert w.inserted + [] == w.inserted;
    } else {
      assert (ids + [last])[1..] == ids[1..] + [last];
      assert Store.FindingRows(rid, rest, ids, now)
             == [Finding(ids[0], rid, rest[0], now)] + Store.FindingRows(rid, rest[1..], ids[1..], now);
      DriveFindings(db, rid, rest[1..], now, w.(inserted := w.inserted + [Finding(ids[0], rid, rest[0], now)]),
                    ids[1..], last);
    }
  }

  // The writing half of `cancel_campaign`, from just after its read.
  lemma CancelStatements(db: Db, cid: Id, seen: CampaignStatus, now: Time, ids: seq<Id>)
    requires cid in db.campaigns && |ids| == 2
    ensures Drive(db, Tx(Pc.CancelCampaign(cid, seen), now, NO_WRITES), ids)
            == Tx(Done(CancelWrote(cid, seen)), now,
                  Writes(map[cid := db.campaigns[cid].(status := CampaignStatus.Cancelled)],
                         CancelledRunsOf(db, cid, now), map[], {}, []))
  {
    var t0 := Tx(Pc.CancelCampaign(cid, seen), now, NO_WRITES);
    var cancelled := db.campaigns[cid].(status := CampaignStatus.Cancelled);
    var t1 := Tx(CancelRuns(cid, seen), now, NO_WRITES.(campaigns := map[cid := cancelled]));
    DriveOnce(db, t0, ids);
    DriveOnce(db, t1, ids[1..]);
  }

  lemma SerialCancel(db: Db, cid: Id, now: Time, ids: seq<Id>)
    requires |ids| == 3
    ensures var tx := Drive(db, Tx(CancelRead(cid), now, NO_WRITES), ids);
            && tx.pc.Done?
            && Merge(db, tx.w) == Store.CancelCampaign(db, cid, now).0
            && (tx.pc.result.NoSuchCampaign? <==> Store.CancelCampaign(db, cid, now).1.None?)
  {
    if cid in db.campaigns && HasRun(db.runs, cid) && !db.campaigns[cid].status.IsTerminal() {
      DriveOnce(db, Tx(CancelRead(cid), now, NO_WRITES), ids);
      CancelStatements(db, cid, db.campaigns[cid].status, now, ids[1..]);
      MergeCancelled(db, cid, now);
    } else {
      DriveOnce(db, Tx(CancelRead(cid), now, NO_WRITES), ids);
      MergeOnlyFindings(db, []);
    }
  }

  lemma MergeCancelled(db: Db, cid: Id, now: Time)
    requires cid in db.campaigns && HasRun(db.runs, cid) && !db.campaigns[cid].status.IsTerminal()
    ensures Merge(db, Writes(map[cid := db.campaigns[cid].(status := CampaignStatus.Cancelled)],
                             CancelledRunsOf(db, cid, now), map[], {}, []))
            == Store.CancelCampaign(db, cid, now).0
  {
    WithoutNothing(db.findings);
  }

  lemma MergeOneRow(db: Db, cid: Id, campaign: Campaign, rid: Id, run: Run, rows: seq<Finding>)
    ensures Merge(db, Writes(map[cid := campaign], map[rid := run], map[], {}, rows))
            == Db(db.campaigns[cid := campaign], db.runs[rid := run], db.jobs, db.findings + rows)
  {
    WithoutNothing(db.findings);
    assert db.campaigns + map[cid := campaign] == db.campaigns[cid := campaign];
    assert db.runs + map[rid := run] == db.runs[rid := run];
    assert db.jobs + map[] == db.jobs;
  }

  lemma MergeOnlyFindings(db: Db, rows: seq<Finding>)
    ensures Merge(db, NO_WRITES.(inserted := rows)) == db.(findings := db.findings + rows)
  {
    WithoutNothing(db.findings);
    assert db.campaigns + map[] == db.campaigns;
    assert db.runs + map[] == db.runs;
    assert db.jobs + map[] == db.jobs;
  }

  lemma {:induction false} WithoutNothing(findings: seq<Finding>)
    ensures Without(findings, {}) == findings
  {
    if findings != [] {
      WithoutNothing(findings[1..]);
    }
  }

  lemma {:induction false} WithoutRun(findings: seq<Finding>, rid: Id, gone: set<Finding>)
    requires forall f :: f in findings ==> (f in gone <==> f.runId == rid)
    ensures Without(findings, gone) == FindingsNotOf(findings, rid)
  {
    if findings != [] {
      WithoutRun(findings[1..], rid, gone);
    }
  }

  // ----- the same as steps of the whole system -----

  ghost predicate OthersHoldNothing(s: Sys, t: nat) {
    forall u :: u in s.txs && u != t ==> Untouched(s.txs[u].w)
  }

  // Findings are only ever inserted for a run that exists.
  predicate ForeignKeyHolds(db: Db, pc: Pc) {
    match pc
    case FinishRun(rid, finish) => rid in db.runs || finish.findings == []
    case FinishRunWait(rid, finish) => rid in db.runs || finish.findings == []
    case FinishCampaign(rid, _, finish) => rid in db.runs || finish.findings == []
    case FinishFindings(rid, rest) => rid in db.runs || rest == []
    case _ => true
  }

  ghost predicate Unused(s: Sys, ids: seq<Id>) {
    Distinct(ids) && forall i :: 0 <= i < |ids| ==> ids[i] !in s.used
  }

  lemma Extend(b: seq<Sys>, actions: seq<Action>, a: Action) returns (b': seq<Sys>, actions': seq<Action>)
    requires Path(b, actions) && Enabled(b[|b| - 1], a)
    ensures Path(b', actions') && b <= b' && |b'| == |b| + 1 && b'[|b|] == Apply(b[|b| - 1], a)
  {
    b', actions' := b + [Apply(b[|b| - 1], a)], actions + [a];
    forall i: nat | i < |actions'| ensures StepAt(b', actions', i) {
      assert i < |actions| ==> StepAt(b, actions, i);
    }
  }

  lemma OtherTxsUntouched(s: Sys, s1: Sys, t: nat)
    requires OthersHoldNothing(s, t) && t in s.txs && t in s1.txs && s1.txs == s.txs[t := s1.txs[t]]
    ensures OthersHoldNothing(s1, t)
  {
  }

  // Nothing makes a transaction wait when no other one holds a row.
  lemma DriveStep(b: seq<Sys>, actions: seq<Action>, t: nat, ids: seq<Id>)
    returns (b': seq<Sys>, actions': seq<Action>)
    requires Path(b, actions) && ids != []
    requires var s := b[|b| - 1];
      && t in s.txs && !s.txs[t].pc.Done?
      && OthersHoldNothing(s, t) && Unused(s, ids) && ForeignKeyHolds(s.db, s.txs[t].pc)
    ensures Path(b', actions') && b <= b'
    ensures var s, s' := b[|b| - 1], b'[|b'| - 1];
            && s' == s.(txs := s.txs[t := Execute(s.db, s.txs[t], ids[0])], used := s.used + {ids[0]})
            && OthersHoldNothing(s', t) && Unused(s', ids[1..]) && ForeignKeyHolds(s'.db, s'.txs[t].pc)
  {
    b', actions' := Extend(b, actions, Statement(t, ids[0]));
    OtherTxsUntouched(b[|b| - 1], b'[|b'| - 1], t);
  }

  lemma {:induction false} DriveIsAPath(b: seq<Sys>, actions: seq<Action>, t: nat, ids: seq<Id>)
    returns (b': seq<Sys>, actions': seq<Action>)
    requires Path(b, actions)
    requires var s := b[|b| - 1];
      t in s.txs && OthersHoldNothing(s, t) && Unused(s, ids) && ForeignKeyHolds(s.db, s.txs[t].pc)
    ensures Path(b', actions') && b <= b'
    ensures var s, s' := b[|b| - 1], b'[|b'| - 1];
            && s' == Sys(s.db, s.txs[t := Drive(s.db, s.txs[t], ids)], s'.used, s.started)
            && forall id :: id in s'.used ==> id in s.used || id in ids
    decreases |ids|
  {
    var s := b[|b| - 1];
    b', actions' := b, actions;
    if ids == [] || s.txs[t].pc.Done? {
      assert s.txs[t := s.txs[t]] == s.txs;
    } else {
      b', actions' := DriveStep(b, actions, t, ids);
      var s1 := b'[|b'| - 1];
      DriveOnce(s.db, s.txs[t], ids);
      b', actions' := DriveIsAPath(b', actions', t, ids[1..]);
      assert s1.txs[t := Drive(s.db, s1.txs[t], ids[1..])] == s.txs[t := Drive(s.db, s.txs[t], ids)];
    }
  }

  // From any state in which no row is locked, a whole call is a path of its statements.
  lemma CallIsAPath(b: seq<Sys>, actions: seq<Action>, t: nat, pc: Pc, now: Time, ids: seq<Id>)
    returns (b': seq<Sys>, actions': seq<Action>)
    requires Path(b, actions) && EntryPoint(pc)
    requires var s := b[|b| - 1]; t !in s.txs && OthersHoldNothing(s, t) && Unused(s, ids) && ForeignKeyHolds(s.db, pc)
    requires Drive(b[|b| - 1].db, Tx(pc, now, NO_WRITES), ids).pc.Done?
    ensures Path(b', actions') && b <= b' && |b| < |b'|
    ensures var s, s' := b[|b| - 1], b'[|b'| - 1];
            && s'.db == Merge(s.db, Drive(s.db, Tx(pc, now, NO_WRITES), ids).w)
            && s'.txs == s.txs
            && forall id :: id in s'.used ==> id in s.used || id in ids
  {
    var s := b[|b| - 1];
    b', actions' := Extend(b, actions, Begin(t, pc, now));
    b', actions' := DriveIsAPath(b', actions', t, ids);
    var s1 := b'[|b'| - 1];
    b', actions' := Extend(b', actions', Commit(t));
    assert s1.txs - {t} == s.txs;
  }

  // A state with no transaction open, at the end of a behaviour.
  ghost predicate Quiet(b: seq<Sys>, actions: seq<Action>, ids: seq<Id>) {
    Behaviour(b, actions) && b[|b| - 1].txs == map[] && Unused(b[|b| - 1], ids)
  }

  lemma CreateIsAPath(b: seq<Sys>, actions: seq<Action>, input: NewCampaign, now: Time, ids: seq<Id>)
    returns (b': seq<Sys>, actions': seq<Action>)
    requires Quiet(b, actions, ids) && |ids| == 3
    ensures Behaviour(b', actions') && b <= b'
    ensures var s, s' := b[|b| - 1], b'[|b'| - 1];
            && s'.txs == map[]
            && s'.db == Store.CreateCampaign(s.db, input, ids[0], ids[1], ids[2], now)
            && forall id :: id in s'.used ==> id in s.used || id in ids
  {
    SerialCreate(b[|b| - 1].db, input, now, ids);
    b', actions' := CallIsAPath(b, actions, 0, InsertCampaign(input), now, ids);
  }

  lemma StartIsAPath(b: seq<Sys>, actions: seq<Action>, rid: Id, now: Time, ids: seq<Id>)
    returns (b': seq<Sys>, actions': seq<Action>)
    requires Quiet(b, actions, ids) && |ids| == 5
    ensures Behaviour(b', actions') && b <= b'
    ensures var s, s' := b[|b| - 1], b'[|b'| - 1]; s'.txs == map[] && s'.db == Store.StartRun(s.db, rid, now).0
  {
    BehaviourKeepsInv(b, actions, |b| - 1);
    SerialStart(b[|b| - 1].db, rid, now, ids);
    b', actions' := CallIsAPath(b, actions, 0, Pc.StartRun(rid), now, ids);
  }

  // Every pending run can be started: any behaviour with no transaction open goes on to a state in which
  // the run is Running and no transaction is open.
  lemma PendingCanBeStarted(b: seq<Sys>, actions: seq<Action>, r: Id, ids: seq<Id>)
    returns (b': seq<Sys>, actions': seq<Action>)
    requires Quiet(b, actions, ids) && |ids| == 5
    requires r in b[|b| - 1].db.runs && b[|b| - 1].db.runs[r].status.Pending?
    ensures Behaviour(b', actions') && b <= b'
    ensures var s := b'[|b'| - 1]; s.txs == map[] && r in s.db.runs && s.db.runs[r].status.Running?
  {
    b', actions' := StartIsAPath(b, actions, r, 0, ids);
  }

  // A claim is one statement and its own transaction: possible for exactly the claimable jobs, and then
  // the atomic claim.
  lemma SerialClaim(s: Sys, j: Id, worker: string)
    ensures Enabled(s, Claim(j, worker)) <==> Store.Claimable(s.db, j)
    ensures Enabled(s, Claim(j, worker)) ==> Apply(s, Claim(j, worker)) == s.(db := Store.ClaimRow(s.db, j, worker))
  {
  }

  // Whatever transactions are open, all of them can abort, which leaves no trace in the tables.
  lemma {:induction false} AllCanAbort(b: seq<Sys>, actions: seq<Action>)
    returns (b': seq<Sys>, actions': seq<Action>)
    requires Behaviour(b, actions)
    ensures Behaviour(b', actions') && b <= b'
    ensures var s, s' := b[|b| - 1], b'[|b'| - 1]; s' == s.(txs := map[])
    decreases |b[|b| - 1].txs|
  {
    var s := b[|b| - 1];
    b', actions' := b, actions;
    if s.txs != map[] {
      var t :| t in s.txs;
      b', actions' := Extend(b, actions, Abort(t));
      assert s.txs == (s.txs - {t})[t := s.txs[t]];
      b', actions' := AllCanAbort(b', actions');
    }
  }

  // So from every state any behaviour reaches, a run that is still pending can be started.
  lemma PendingIsNeverStuck(b: seq<Sys>, actions: seq<Action>, r: Id, ids: seq<Id>)
    returns (b': seq<Sys>, actions': seq<Action>)
    requires Behaviour(b, actions) && Unused(b[|b| - 1], ids) && |ids| == 5
    requires r in b[|b| - 1].db.runs && b[|b| - 1].db.runs[r].status.Pending?
    ensures Behaviour(b', actions') && b <= b'
    ensures var s := b'[|b'| - 1]; s.txs == map[] && r in s.db.runs && s.db.runs[r].status.Running?
  {
    b', actions' := AllCanAbort(b, actions);
    b', actions' := PendingCanBeStarted(b', actions', r, ids);
  }

  // Every campaign a client creates can be started, wherever no transaction is open.
  lemma CreatedCanBeStarted(b: seq<Sys>, actions: seq<Action>, input: NewCampaign, ids: seq<Id>)
    returns (b': seq<Sys>, actions': seq<Action>)
    requires Quiet(b, actions, ids) && |ids| == 8
    ensures Behaviour(b', actions') && b <= b'
    ensures var s := b'[|b'| - 1];
            && s.txs == map[]
            && Owns(s.db.runs, ids[1], ids[0]) && s.db.runs[ids[1]].status.Running?
            && ids[0] in s.db.campaigns && s.db.campaigns[ids[0]].input == input
  {
    var s := b[|b| - 1];
    assert ids[..3][0] == ids[0] && ids[..3][1] == ids[1];
    b', actions' := CreateIsAPath(b, actions, input, 0, ids[..3]);
    var mid := |b'| - 1;
    assert forall i :: 0 <= i < 5 ==> ids[3..][i] == ids[i + 3] && ids[i + 3] !in ids[..3];
    b', actions' := StartIsAPath(b', actions', ids[1], 0, ids[3..]);
  }

  // Any behaviour that has reached a Running run with no transaction open can go on to commit the run
  // as `status` and then overwrite that with Cancelled: the cancellation read before the finish
  // committed and wrote after. So the other terminal states are final for whole calls only.
  lemma StaleCancelOverwrites(b: seq<Sys>, actions: seq<Action>, r: Id, status: FinishStatus, ids: seq<Id>)
    returns (b': seq<Sys>, actions': seq<Action>, mid: nat)
    requires Quiet(b, actions, ids) && |ids| == 7
    requires var s := b[|b| - 1]; r in s.db.runs && s.db.runs[r].status.Running?
    ensures Behaviour(b', actions') && b <= b' && |b| <= mid < |b'|
    ensures r in b'[mid].db.runs && b'[mid].db.runs[r].status == status.ToRunStatus()
    ensures r in b'[|b'| - 1].db.runs && b'[|b'| - 1].db.runs[r].status.Cancelled?
  {
    var c := b[|b| - 1].db.runs[r].campaignId;
    var seen, b1, actions1 := ReadBeforeCancelling(b, actions, r, ids[..1]);
    var b2, actions2 := FinishMeanwhile(b1, actions1, r, status, ids[1..5]);
    mid := |b2| - 1;
    b', actions' := CancelAfterwards(b2, actions2, r, seen, ids[5..]);
    assert b2 <= b' && b'[mid] == b2[mid];
  }

  lemma CancelAfterwards(b: seq<Sys>, actions: seq<Action>, r: Id, seen: CampaignStatus, ids: seq<Id>)
    returns (b': seq<Sys>, actions': seq<Action>)
    requires Behaviour(b, actions) && |ids| == 2
    requires var s := b[|b| - 1];
             && Unused(s, ids)
             && r in s.db.runs && s.db.runs[r].campaignId in s.db.campaigns
             && s.txs == map[0 := Tx(CancelCampaign(s.db.runs[r].campaignId, seen), 0, NO_WRITES)]
    ensures Behaviour(b', actions') && b <= b' && |b| < |b'|
    ensures r in b'[|b'| - 1].db.runs && b'[|b'| - 1].db.runs[r].status.Cancelled?
  {
    var s := b[|b| - 1];
    CancelStatements(s.db, s.db.runs[r].campaignId, seen, 0, ids);
    b', actions' := DriveIsAPath(b, actions, 0, ids);
    b', actions' := Extend(b', actions', Commit(0));
  }

  lemma ReadBeforeCancelling(b: seq<Sys>, actions: seq<Action>, r: Id, ids: seq<Id>)
    returns (seen: CampaignStatus, b': seq<Sys>, actions': seq<Action>)
    requires Quiet(b, actions, ids) && |ids| == 1
    requires var s := b[|b| - 1]; r in s.db.runs && s.db.runs[r].status.Running?
    ensures Behaviour(b', actions') && b <= b'
    ensures var s, s' := b[|b| - 1], b'[|b'| - 1];
            && s'.db == s.db
            && s'.txs == map[0 := Tx(CancelCampaign(s.db.runs[r].campaignId, seen), 0, NO_WRITES)]
            && forall id :: id in s'.used ==> id in s.used || id in ids
  {
    BehaviourKeepsInv(b, actions, |b| - 1);
    var s := b[|b| - 1];
    var c := s.db.runs[r].campaignId;
    assert RunMirrored(s.db.campaigns, s.db.runs[r]);
    assert Owns(s.db.runs, r, c) && HasRun(s.db.runs, c);
    seen := s.db.campaigns[c].status;
    b', actions' := Extend(b, actions, Begin(0, CancelRead(c), 0));
    DriveOnce(s.db, Tx(CancelRead(c), 0, NO_WRITES), ids);
    b', actions' := DriveIsAPath(b', actions', 0, ids);
  }

  lemma FinishMeanwhile(b: seq<Sys>, actions: seq<Action>, r: Id, status: FinishStatus, ids: seq<Id>)
    returns (b': seq<Sys>, actions': seq<Action>)
    requires Behaviour(b, actions) && |ids| == 4
    requires var s := b[|b| - 1];
             && 1 !in s.txs && OthersHoldNothing(s, 1) && Unused(s, ids)
             && r in s.db.runs && s.db.runs[r].status.Running?
    ensures Behaviour(b', actions') && b <= b' && |b| < |b'|
    ensures var s, s' := b[|b| - 1], b'[|b'| - 1];
            && s'.txs == s.txs
            && r in s'.db.runs && s'.db.runs[r].status == status.ToRunStatus()
            && s'.db.runs[r].campaignId == s.db.runs[r].campaignId
            && s'.db.runs[r].campaignId in s'.db.campaigns
            && forall id :: id in s'.used ==> id in s.used || id in ids
  {
    BehaviourKeepsInv(b, actions, |b| - 1);
    var s := b[|b| - 1];
    assert RunMirrored(s.db.campaigns, s.db.runs[r]);
    var report := RunFinish(status, 0, None, []);
    SerialFinishRunning(s.db, r, report, 0, ids[..3], [], ids[3]);
    assert ids[..3] + ([] + [ids[3]]) == ids;
    b', actions' := CallIsAPath(b, actions, 1, Pc.FinishRun(r, report), 0, ids);
  }
}
