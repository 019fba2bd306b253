// Live progress: the per-run broadcast channel, the hub that keeps the channels of running jobs, and
// the loop that turns one subscriber's receptions into server-sent events.

module Stream {
  import opened Prelude
  import opened Records

  datatype Level = Info | Warn | Error

  datatype Event =
    | Iterations(count: nat, elapsedSecs: nat)
    | Log(line: string, level: Level)
    | FindingEvent(invariantName: string, stepIndex: nat)
    | Status(status: RunStatus)

  // What the client sees. Only `progress` combines two sources: the counters and the last status.
  datatype Sse =
    | ProgressSse(iterations: nat, elapsedSecs: nat, status: RunStatus)
    | LogSse(line: string, level: string)
    | FindingSse(invariantName: string, stepIndex: nat)
    | StatusSse(status: RunStatus)

  datatype Received = Got(event: Event) | Lagged(missed: nat) | Closed

  // The channel keeps the newest 256 events.
  const CAPACITY: nat := 256

  // One `recv` with `cursor` events consumed of the `sent` so far: a reader that fell more than a
  // ring behind is told how many events it missed and continues at the oldest kept one.
  function Recv(sent: seq<Event>, cursor: nat): (r: (Received, nat))
    requires cursor < |sent|
    ensures r.0.Lagged? <==> cursor + 256 < |sent|
    ensures r.0.Lagged? ==> r.0.missed == r.1 - cursor && r.1 + 256 == |sent|
    ensures !r.0.Lagged? ==> r == (Got(sent[cursor]), cursor + 1)
  {
    if |sent| - cursor > CAPACITY then (Lagged(|sent| - CAPACITY - cursor), |sent| - CAPACITY)
    else (Got(sent[cursor]), cursor + 1)
  }

  class Channel {
    var sent: seq<Event>

    constructor ()
      ensures sent == []
    {
      sent := [];
    }

    method Emit(event: Event)
      modifies this
      ensures sent == old(sent) + [event]
    {
      sent := sent + [event];
    }
  }

  class Receiver {
    const channel: Channel
    var cursor: nat

    constructor (channel: Channel)
      ensures this.channel == channel && cursor == |channel.sent|
    {
      this.channel := channel;
      cursor := |channel.sent|;
    }

    // A `recv` that has something to return.
    method Receive() returns (received: Received)
      requires cursor < |channel.sent|
      modifies this
      ensures (received, cursor) == Recv(channel.sent, old(cursor))
    {
      var behind := |channel.sent| - cursor;
      if behind > CAPACITY {
        received := Lagged(behind - CAPACITY);
        cursor := cursor + (behind - CAPACITY);
      } else {
        received := Got(channel.sent[cursor]);
        cursor := cursor + 1;
      }
    }
  }

  class ProgressHub {
    var channels: map<Id, Channel>

    constructor ()
      ensures channels == map[]
    {
      channels := map[];
    }

    // Reopening keeps the channel its subscribers already read.
    method Publisher(runId: Id) returns (channel: Channel)
      modifies this
      ensures channels == old(channels)[runId := channel]
      ensures runId in old(channels) ==> channels == old(channels)
      ensures runId !in old(channels) ==> fresh(channel) && channel.sent == []
    {
      if runId !in channels {
        var created := new Channel();
        channels := channels[runId := created];
      }
      channel := channels[runId];
    }

    method Subscribe(runId: Id) returns (receiver: Receiver?)
      ensures receiver != null <==> runId in channels
      ensures receiver != null ==>
        fresh(receiver) && receiver.channel == channels[runId] && receiver.cursor == |receiver.channel.sent|
    {
      if runId in channels {
        receiver := new Receiver(channels[runId]);
      } else {
        receiver := null;
      }
    }

    method Close(runId: Id)
      modifies this
      ensures channels == old(channels) - {runId}
    {
      channels := channels - {runId};
    }
  }

  // ----- the receive loop -----

  function LevelText(level: Level): string {
    match level
    case Info => "info"
    case Warn => "warn"
    case Error => "error"
  }

  function Render(event: Event, last: RunStatus): Sse {
    match event
    case Iterations(count, elapsed) => ProgressSse(count, elapsed, last)
    case Log(line, level) => LogSse(line, LevelText(level))
    case FindingEvent(name, step) => FindingSse(name, step)
    case Status(status) => StatusSse(status)
  }

  // The events of a stream that receives `events`, up to and including the first terminal status.
  function Rendered(events: seq<Event>, last: RunStatus): seq<Sse> {
    if events == [] then []
    else
      var now := if events[0].Status? then events[0].status else last;
      [Render(events[0], now)] + if events[0].Status? && now.IsTerminal() then [] else Rendered(events[1..], now)
  }

  // The events among the receptions before the channel closes.
  function Delivered(received: seq<Received>): seq<Event> {
    if received == [] || received[0].Closed? then []
    else (if received[0].Got? then [received[0].event] else []) + Delivered(received[1..])
  }

  // The body of the stream: `received` is what successive `recv`s return. Without a live channel the
  // stored status is reported once.
  method StreamRun(initial: RunStatus, live: bool, received: seq<Received>) returns (out: seq<Sse>)
    ensures out == if live then Rendered(Delivered(received), initial) else [StatusSse(initial)]
  {
    out := [];
    if !live {
      return [StatusSse(initial)];
    }
    var last := initial;
    var i := 0;
    while i < |received|
      invariant 0 <= i <= |received|
      invariant Rendered(Delivered(received), initial) == out + Rendered(Delivered(received[i..]), last)
    {
      ReceptionStep(received, i, last);
      ghost var before := out;
      match received[i] {
      case Got(event) =>
        match event {
        case Iterations(count, elapsed) => out := out + [ProgressSse(count, elapsed, last)];
        case Log(line, level) => out := out + [LogSse(line, LevelText(level))];
        case FindingEvent(name, step) => out := out + [FindingSse(name, step)];
        case Status(status) =>
          last := status;
          out := out + [StatusSse(status)];
          if status.IsTerminal() {
            return;
          }
        }
      case Lagged(_) =>
      case Closed => return;
      }
      Append(before, out[|before|..], Rendered(Delivered(received[i + 1..]), last));
      i := i + 1;
    }
  }

  lemma Append(a: seq<Sse>, b: seq<Sse>, c: seq<Sse>)
    ensures a + (b + c) == (a + b) + c
  {
  }

  // What the next reception contributes to the stream.
  lemma ReceptionStep(received: seq<Received>, i: nat, last: RunStatus)
    requires i < |received|
    ensures var rest := Delivered(received[i + 1..]);
            Rendered(Delivered(received[i..]), last) ==
            if received[i].Closed? then []
            else if received[i].Lagged? then Rendered(rest, last)
            else if received[i].event.Status? then
              var status := received[i].event.status;
              [StatusSse(status)] + if status.IsTerminal() then [] else Rendered(rest, status)
            else [Render(received[i].event, last)] + Rendered(rest, last)
  {
    var here := received[i..];
    assert here[1..] == received[i + 1..] && here[0] == received[i];
    if here[0].Got? {
      var events := Delivered(here);
      assert events == [here[0].event] + Delivered(received[i + 1..]);
      assert events[0] == here[0].event && events[1..] == Delivered(received[i + 1..]);
      assert Rendered(events, last) == Rendered([here[0].event] + Delivered(received[i + 1..]), last);
    } else if here[0].Lagged? {
      assert Delivered(here) == Delivered(received[i + 1..]);
    }
  }

  // ----- a lagging subscriber -----

  // How far the channel had been written at each `recv` of a subscriber that reads until the end:
  // never backwards, always past its cursor, never past the whole log.
  ghost predicate Reads(log: seq<Event>, cursor: nat, written: nat, schedule: seq<nat>)
    decreases |schedule|
  {
    if schedule == [] then cursor == |log|
    else
      && written <= schedule[0] <= |log|
      && cursor < schedule[0]
      && Reads(log, Recv(log[..schedule[0]], cursor).1, schedule[0], schedule[1..])
  }

  function Receptions(log: seq<Event>, cursor: nat, ghost written: nat, schedule: seq<nat>): seq<Received>
    requires Reads(log, cursor, written, schedule)
    decreases |schedule|
  {
    if schedule == [] then [Closed]
    else
      var (received, next) := Recv(log[..schedule[0]], cursor);
      [received] + Receptions(log, next, schedule[0], schedule[1..])
  }

  // The positions of the events that get through.
  function Positions(log: seq<Event>, cursor: nat, ghost written: nat, schedule: seq<nat>): seq<nat>
    requires Reads(log, cursor, written, schedule)
    decreases |schedule|
  {
    if schedule == [] then []
    else
      var (received, next) := Recv(log[..schedule[0]], cursor);
      (if received.Got? then [cursor] else []) + Positions(log, next, schedule[0], schedule[1..])
  }

  function Pick(log: seq<Event>, positions: seq<nat>): seq<Event>
    requires forall i :: 0 <= i < |positions| ==> positions[i] < |log|
  {
    seq(|positions|, i requires 0 <= i < |positions| => log[positions[i]])
  }

  // Increasing positions from `from` on and below `to`.
  ghost predicate Climbs(ps: seq<nat>, from: nat, to: nat) {
    && (forall i :: 0 <= i < |ps| ==> from <= ps[i] < to)
    && (forall i, j :: 0 <= i < j < |ps| ==> ps[i] < ps[j])
  }

  lemma PrependClimbs(first: nat, rest: seq<nat>, from: nat, to: nat)
    requires Climbs(rest, from, to) && first < from && first < to
    ensures Climbs([first] + rest, first, to)
  {
  }

  lemma {:induction false} PositionsClimb(log: seq<Event>, cursor: nat, written: nat, schedule: seq<nat>)
    requires Reads(log, cursor, written, schedule)
    ensures Climbs(Positions(log, cursor, written, schedule), cursor, |log|)
    decreases |schedule|
  {
    if schedule != [] {
      var (received, next) := Recv(log[..schedule[0]], cursor);
      PositionsClimb(log, next, schedule[0], schedule[1..]);
      if received.Got? {
        PrependClimbs(cursor, Positions(log, next, schedule[0], schedule[1..]), next, |log|);
      }
    }
  }

  // A reader is never made to skip any of the newest 256 events.
  lemma {:induction false} NewestGetThrough(log: seq<Event>, cursor: nat, written: nat, schedule: seq<nat>, p: nat)
    requires Reads(log, cursor, written, schedule) && cursor <= p < |log| && |log| - CAPACITY <= p
    ensures p in Positions(log, cursor, written, schedule)
    decreases |schedule|
  {
    var (received, next) := Recv(log[..schedule[0]], cursor);
    if p >= next {
      NewestGetThrough(log, next, schedule[0], schedule[1..], p);
    }
  }

  lemma {:induction false} DeliveredArePicked(log: seq<Event>, cursor: nat, written: nat, schedule: seq<nat>)
    requires Reads(log, cursor, written, schedule)
    ensures forall i ::
      0 <= i < |Positions(log, cursor, written, schedule)| ==> Positions(log, cursor, written, schedule)[i] < |log|
    ensures Delivered(Receptions(log, cursor, written, schedule))
      == Pick(log, Positions(log, cursor, written, schedule))
    decreases |schedule|
  {
    PositionsClimb(log, cursor, written, schedule);
    if schedule != [] {
      var (received, next) := Recv(log[..schedule[0]], cursor);
      DeliveredArePicked(log, next, schedule[0], schedule[1..]);
      var rest := Positions(log, next, schedule[0], schedule[1..]);
      PickFirst(log, cursor, rest);
      var receptions := Receptions(log, cursor, written, schedule);
      assert receptions[0] == received && receptions[1..] == Receptions(log, next, schedule[0], schedule[1..]);
    }
  }

  lemma PickFirst(log: seq<Event>, first: nat, rest: seq<nat>)
    requires first < |log| && forall i :: 0 <= i < |rest| ==> rest[i] < |log|
    ensures Pick(log, [first] + rest) == [log[first]] + Pick(log, rest)
  {
  }

  // The deliveries are an order-preserving image of the log that misses nothing among the newest 256.
  lemma DeliveriesAreASubsequence(log: seq<Event>, cursor: nat, written: nat, schedule: seq<nat>)
    requires Reads(log, cursor, written, schedule)
    ensures var ps := Positions(log, cursor, written, schedule);
            && Climbs(ps, cursor, |log|)
            && (forall p :: cursor <= p < |log| && |log| - CAPACITY <= p ==> p in ps)
            && Delivered(Receptions(log, cursor, written, schedule)) == Pick(log, ps)
  {
    PositionsClimb(log, cursor, written, schedule);
    DeliveredArePicked(log, cursor, written, schedule);
    forall p | cursor <= p < |log| && |log| - CAPACITY <= p ensures p in Positions(log, cursor, written, schedule) {
      NewestGetThrough(log, cursor, written, schedule, p);
    }
  }

  // The status a client has seen last.
  function LastStatus(initial: RunStatus, out: seq<Sse>): RunStatus {
    if out == [] then initial
    else if out[|out| - 1].StatusSse? then out[|out| - 1].status
    else LastStatus(initial, out[..|out| - 1])
  }

  predicate NoTerminal(events: seq<Event>) {
    forall e :: e in events && e.Status? ==> !e.status.IsTerminal()
  }

  predicate Says(e: Event, s: Sse) {
    match e
    case Iterations(count, elapsed) => s.ProgressSse? && s.iterations == count && s.elapsedSecs == elapsed
    case Log(line, level) => s.LogSse? && s.line == line && Names(s.level, level)
    case FindingEvent(name, step) => s == FindingSse(name, step)
    case Status(status) => s == StatusSse(status)
  }

  predicate Names(word: string, level: Level) {
    && (level == Info <==> word == "info")
    && (level == Warn <==> word == "warn")
    && (level == Error <==> word == "error")
  }

  lemma LevelTextNames(level: Level)
    ensures Names(LevelText(level), level)
  {
    assert LevelText(Info)[0] == 'i' && LevelText(Warn)[0] == 'w' && LevelText(Error)[0] == 'e';
  }

  lemma RenderSays(event: Event, last: RunStatus)
    ensures Says(event, Render(event, last))
  {
    if event.Log? {
      LevelTextNames(event.level);
    }
  }

  // A terminal status is the last event and the only one.
  ghost predicate EndsWith(events: seq<Event>, status: RunStatus) {
    && events != [] && events[|events| - 1] == Status(status) && status.IsTerminal()
    && NoTerminal(events[..|events| - 1])
  }

  lemma RenderedFirst(events: seq<Event>, last: RunStatus, status: RunStatus)
    requires EndsWith(events, status) && |events| > 1
    ensures var now := if events[0].Status? then events[0].status else last;
            EndsWith(events[1..], status)
              && Rendered(events, last) == [Render(events[0], now)] + Rendered(events[1..], now)
  {
    assert events[0] in events[..|events| - 1];
    assert events[1..][..|events| - 2] == events[..|events| - 1][1..];
  }

  // Every event up to the terminal status is shown, in its place.
  lemma {:induction false} RenderedOneByOne(events: seq<Event>, last: RunStatus, status: RunStatus)
    requires EndsWith(events, status)
    ensures var out := Rendered(events, last);
            |out| == |events| && forall i :: 0 <= i < |out| ==> Says(events[i], out[i])
    decreases |events|
  {
    RenderSays(events[0], if events[0].Status? then events[0].status else last);
    if |events| > 1 {
      RenderedFirst(events, last, status);
      RenderedOneByOne(events[1..], if events[0].Status? then events[0].status else last, status);
    }
  }

  // So is every event of a stream that is closed before any terminal status.
  lemma {:induction false} RenderedUnterminated(events: seq<Event>, last: RunStatus)
    requires NoTerminal(events)
    ensures var out := Rendered(events, last);
            |out| == |events| && forall i :: 0 <= i < |out| ==> Says(events[i], out[i])
  {
    if events != [] {
      var now := if events[0].Status? then events[0].status else last;
      RenderSays(events[0], now);
      assert events[0] in events;
      RenderedUnterminated(events[1..], now);
    }
  }

  // In a stream that shows `first` and then `rest`, what was shown before a later event is `first` and
  // what `rest` showed before it.
  lemma ProgressAfterFirst(last: RunStatus, first: Sse, rest: seq<Sse>, i: nat)
    requires 0 < i <= |rest| && rest[i - 1].ProgressSse?
    requires rest[i - 1].status == LastStatus(if first.StatusSse? then first.status else last, rest[..i - 1])
    ensures ([first] + rest)[i] == rest[i - 1] && rest[i - 1].status == LastStatus(last, ([first] + rest)[..i])
  {
    assert ([first] + rest)[..i] == [first] + rest[..i - 1];
    LastStatusAfter(last, first, rest[..i - 1]);
  }

  lemma {:induction false} RenderedProgress(events: seq<Event>, last: RunStatus, status: RunStatus, i: nat)
    requires EndsWith(events, status)
    requires i < |Rendered(events, last)| && Rendered(events, last)[i].ProgressSse?
    ensures Rendered(events, last)[i].status == LastStatus(last, Rendered(events, last)[..i])
    decreases |events|
  {
    if i > 0 && |events| > 1 {
      var now := if events[0].Status? then events[0].status else last;
      var rest := Rendered(events[1..], now);
      RenderedFirst(events, last, status);
      assert rest[i - 1] == Rendered(events, last)[i];
      RenderedProgress(events[1..], now, status, i - 1);
      ProgressAfterFirst(last, Render(events[0], now), rest, i);
    }
  }

  // Rendering ends with the terminal status, keeps every event and its place, and stamps each progress
  // event with the status shown last before it.
  lemma RenderedFaithfully(events: seq<Event>, last: RunStatus, status: RunStatus)
    requires EndsWith(events, status)
    ensures var out := Rendered(events, last);
            && |out| == |events|
            && (forall i :: 0 <= i < |out| ==> Says(events[i], out[i]))
            && (forall i :: 0 <= i < |out| && out[i].ProgressSse? ==> out[i].status == LastStatus(last, out[..i]))
            && (forall i :: 0 <= i < |out| && out[i].StatusSse? && out[i].status.IsTerminal() ==> i == |out| - 1)
  {
    var out := Rendered(events, last);
    RenderedOneByOne(events, last, status);
    forall i | 0 <= i < |out| && out[i].ProgressSse? ensures out[i].status == LastStatus(last, out[..i]) {
      RenderedProgress(events, last, status, i);
    }
    forall i | 0 <= i < |out| - 1 && out[i].StatusSse? ensures !out[i].status.IsTerminal() {
      assert Says(events[i], out[i]);
      assert events[i] in events[..|events| - 1];
    }
  }

  lemma {:induction false} LastStatusAfter(last: RunStatus, first: Sse, rest: seq<Sse>)
    ensures LastStatus(last, [first] + rest) == LastStatus(if first.StatusSse? then first.status else last, rest)
    decreases |rest|
  {
    var all := [first] + rest;
    if rest == [] {
      assert all[..0] == [];
    } else {
      assert all[..|all| - 1] == [first] + rest[..|rest| - 1];
      LastStatusAfter(last, first, rest[..|rest| - 1]);
    }
  }

  // What a worker sends for one run: Running, whatever the runner reports, and the outcome.
  function WorkerLog(reported: seq<Event>, outcome: FinishStatus): seq<Event> {
    [Status(RunStatus.Running)] + reported + [Status(outcome.ToRunStatus())]
  }

  // A whole stream over `log` from `joined` on, as the client may rely on it.
  ghost predicate FaithfulStream(log: seq<Event>, joined: nat, initial: RunStatus, ps: seq<nat>, out: seq<Sse>)
  {
    && |out| == |ps| > 0
    && Climbs(ps, joined, |log|)
    && (forall i :: 0 <= i < |ps| ==> Says(log[ps[i]], out[i]))
    && (forall p :: joined <= p < |log| && |log| - CAPACITY <= p ==> p in ps)
    && (forall i :: 0 <= i < |out| && out[i].ProgressSse? ==> out[i].status == LastStatus(initial, out[..i]))
    && ps[|ps| - 1] == |log| - 1
    && (forall i :: 0 <= i < |out| && out[i].StatusSse? && out[i].status.IsTerminal() ==> i == |out| - 1)
  }

  lemma StreamOfTerminatedLog(log: seq<Event>, status: RunStatus, initial: RunStatus, joined: nat, written: nat,
                              schedule: seq<nat>)
    requires joined < |log| && EndsWith(log, status) && Reads(log, joined, written, schedule)
    ensures FaithfulStream(log, joined, initial, Positions(log, joined, written, schedule),
                           Rendered(Delivered(Receptions(log, joined, written, schedule)), initial))
  {
    DeliveriesAreASubsequence(log, joined, written, schedule);
    PickedStream(log, status, initial, joined, Positions(log, joined, written, schedule));
  }

  lemma PickedStream(log: seq<Event>, status: RunStatus, initial: RunStatus, joined: nat, ps: seq<nat>)
    requires joined < |log| && EndsWith(log, status) && Climbs(ps, joined, |log|)
    requires forall p :: joined <= p < |log| && |log| - CAPACITY <= p ==> p in ps
    ensures FaithfulStream(log, joined, initial, ps, Rendered(Pick(log, ps), initial))
  {
    LastDelivered(log, ps, joined);
    PickEndsWith(log, ps, status);
    RenderedFaithfully(Pick(log, ps), initial, status);
  }

  lemma PickEndsWith(log: seq<Event>, ps: seq<nat>, status: RunStatus)
    requires EndsWith(log, status) && Climbs(ps, 0, |log|) && |ps| > 0 && ps[|ps| - 1] == |log| - 1
    ensures EndsWith(Pick(log, ps), status)
  {
    var events := Pick(log, ps);
    forall e | e in events[..|events| - 1] && e.Status? ensures !e.status.IsTerminal() {
      var i :| 0 <= i < |events| - 1 && events[i] == e;
      assert ps[i] < ps[|ps| - 1];
      assert log[ps[i]] in log[..|log| - 1];
    }
  }

  // A subscriber that joins after `joined` events, but before the worker's terminal one, and reads to
  // the end, however far it lags in between: its stream is an order-preserving image of the events
  // from there on, losing none of the newest 256; each progress event carries the status the client
  // saw last; and the run's outcome comes last and is the only terminal status.
  lemma SubscriberSeesOutcomeOnceAndLast(reported: seq<Event>, outcome: FinishStatus, initial: RunStatus,
                                         joined: nat, written: nat, schedule: seq<nat>)
    requires NoTerminal(reported)
    requires joined < |WorkerLog(reported, outcome)|
    requires Reads(WorkerLog(reported, outcome), joined, written, schedule)
    ensures var log := WorkerLog(reported, outcome);
            var out := Rendered(Delivered(Receptions(log, joined, written, schedule)), initial);
            && FaithfulStream(log, joined, initial, Positions(log, joined, written, schedule), out)
            && out[|out| - 1].StatusSse? && SaysOutcome(out[|out| - 1].status, outcome)
  {
    var log := WorkerLog(reported, outcome);
    assert log[..|log| - 1] == [Status(RunStatus.Running)] + reported;
    StreamOfTerminatedLog(log, outcome.ToRunStatus(), initial, joined, written, schedule);
  }

  lemma LastDelivered(log: seq<Event>, ps: seq<nat>, joined: nat)
    requires joined < |log| && |log| - 1 in ps && Climbs(ps, joined, |log|)
    ensures |ps| > 0 && ps[|ps| - 1] == |log| - 1
  {
    var k :| 0 <= k < |ps| && ps[k] == |log| - 1;
  }
}
