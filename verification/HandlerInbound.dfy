/** What becomes of an inbound stream, exactly: which of its actions a poll carries out, when
    it fails, when that is reported and when its timer runs. */
module HandlerInbound {
  import opened Basics
  import opened SnappyScan
  import opened Codec
  import opened Handler
  import opened HandlerRequests
  import opened HandlerReports
  import opened HandlerResponses

  // ---------------------------------------------------------------- one stream in one poll

  function Answer(ios: seq<Io>, j: nat): (io: Io) {
    if j < |ios| then ios[j] else Stall(0)
  }

  /** The encoder will not have the message; a message that was started has been encoded. */
  predicate Refused(dl: DecompressLen, a: ResponseAction, started: bool) {
    a.SendMessage? && !started && Refusal(dl, RESPONSE_HEAD, a.payload).Some?
  }

  predicate Goes(dl: DecompressLen, a: ResponseAction, started: bool, io: Io) {
    !Refused(dl, a, started) && io.Finish?
  }

  /** How many actions are carried out. */
  function Carried(dl: DecompressLen, actions: seq<ResponseAction>, started: bool, ios: seq<Io>): (n: nat)
    ensures n <= |actions|
    decreases |actions|
  {
    if actions == [] || !Goes(dl, actions[0], started, Answer(ios, 0)) then 0
    else if actions[0].CloseStream? then 1
    else 1 + Carried(dl, actions[1..], false, Later(ios))
  }

  /** The j-th answer is for the j-th action, the first action that does not go stops the
      others, and nothing goes after a close. */
  lemma {:induction false} CarriedIs(dl: DecompressLen, actions: seq<ResponseAction>, started: bool, ios: seq<Io>)
    ensures var n := Carried(dl, actions, started, ios);
            (forall j :: 0 <= j < n ==> Goes(dl, actions[j], started && j == 0, Answer(ios, j)))
            && (forall j :: 0 <= j < n - 1 ==> actions[j].SendMessage?)
            && (n < |actions| && (n == 0 || actions[n - 1].SendMessage?) ==> !Goes(dl, actions[n], started && n == 0, Answer(ios, n)))
    decreases |actions|
  {
    hide Goes;
    if actions != [] && Goes(dl, actions[0], started, Answer(ios, 0)) && !actions[0].CloseStream? {
      var rest := actions[1..];
      CarriedIs(dl, rest, false, Later(ios));
      assert forall j :: 0 <= j < |rest| ==> rest[j] == actions[j + 1] && Answer(ios, j + 1) == Answer(Later(ios), j);
      var n := Carried(dl, rest, false, Later(ios));
      forall j | 0 < j <= n ensures Goes(dl, actions[j], started && j == 0, Answer(ios, j)) {
        assert Goes(dl, rest[j - 1], false, Answer(Later(ios), j - 1));
      }
      forall j | 0 < j < n ensures actions[j].SendMessage? { assert rest[j - 1].SendMessage?; }
    }
  }

  /** What a stream has to do: on a closed connection, only to finish what is in flight, or to close. */
  function Due(closed: bool, st: InboundStream): (r: seq<ResponseAction>)
    requires st.state.Some?
  {
    if !closed then InFlight(st) + st.queue else if st.state.value.Busy? then InFlight(st) else [CloseStream]
  }

  predicate HasStarted(st: InboundStream)
    requires st.state.Some?
  {
    st.state.value.Busy? && st.state.value.started
  }

  function Count(dl: DecompressLen, closed: bool, st: InboundStream, ios: seq<Io>): (n: nat)
    requires st.state.Some?
  {
    Carried(dl, Due(closed, st), HasStarted(st), ios)
  }

  /** The stream has been closed in good order. */
  predicate Closes(dl: DecompressLen, closed: bool, st: InboundStream, ios: seq<Io>)
    requires st.state.Some?
  {
    var n := Count(dl, closed, st, ios);
    n > 0 && Due(closed, st)[n - 1].CloseStream?
  }

  /** The next action is refused by the encoder or the stream is broken. */
  predicate Fails(dl: DecompressLen, closed: bool, st: InboundStream, ios: seq<Io>)
    requires st.state.Some?
  {
    var due, n := Due(closed, st), Count(dl, closed, st, ios);
    !Closes(dl, closed, st, ios) && n < |due| && (Refused(dl, due[n], HasStarted(st) && n == 0) || Answer(ios, n).Fault?)
  }

  predicate IdleAtEnd(closed: bool, st: InboundStream)
    requires st.state.Some?
  {
    closed && st.state.value.Idle?
  }

  function AllActions(st: InboundStream): (r: seq<ResponseAction>)
    requires st.state.Some?
  {
    InFlight(st) + st.queue
  }

  ghost predicate ComesOut(closes: bool, fails: bool, left: seq<ResponseAction>, rearmed: bool, p: Pumped) {
    if closes then p == Gone(None)
    else if fails then p == Gone(Some(StreamFailed))
    else p.Kept? && p.stream.state.Some? && AllActions(p.stream) == left && p.rearmed == rearmed
  }

  /** What a poll makes of a stream and what it has carried out. */
  ghost predicate Outcomes(dl: DecompressLen, closed: bool, st: InboundStream, ios: seq<Io>, rearmed: bool, p: Pumped, done: seq<ResponseAction>)
    requires st.state.Some?
  {
    var n := if IdleAtEnd(closed, st) then 0 else Count(dl, closed, st, ios);
    n <= |AllActions(st)| && done == AllActions(st)[..n]
    && ComesOut(Closes(dl, closed, st, ios), Fails(dl, closed, st, ios), AllActions(st)[n..], rearmed || n > 0, p)
    && (IdleAtEnd(closed, st) && p.Kept? ==> p.stream == st)
  }

  lemma SendingGoes(dl: DecompressLen, sink: Sink, a: ResponseAction, started: bool, io: Io)
    ensures var r := PollSend(dl, sink, a, started, io);
            (r.Sent? || r.Ended? <==> Goes(dl, a, started, io)) && (r.Ended? ==> a.CloseStream?) && (r.Sent? ==> a.SendMessage?)
            && (r.Broken? <==> Refused(dl, a, started) || io.Fault?)
  {}

  lemma BusyOutcomesClosed(dl: DecompressLen, st: InboundStream, ios: seq<Io>, rearmed: bool)
    requires st.state.Some? && st.state.value.Busy?
    ensures Outcomes(dl, true, st, ios, rearmed, Pump(dl, true, st, ios, rearmed), Written(dl, true, st, ios))
  {
    hide PollSend, Refusal;
    var Busy(sink, a, started) := st.state.value;
    SendingGoes(dl, sink, a, started, Answer(ios, 0));
    assert InFlight(st) + st.queue == [a] + st.queue;
  }

  /** A message has gone and the next action is started. */
  lemma OneMoreGoes(dl: DecompressLen, st: InboundStream, sink: Sink, ios: seq<Io>)
    requires st.state.Some? && st.state.value.Busy? && st.queue != []
    requires Goes(dl, st.state.value.action, HasStarted(st), Answer(ios, 0)) && st.state.value.action.SendMessage?
    ensures var next := NextBusy(sink, st.queue);
            Count(dl, false, st, ios) == 1 + Count(dl, false, next, Later(ios))
            && AllActions(st) == [st.state.value.action] + AllActions(next)
            && Closes(dl, false, st, ios) == Closes(dl, false, next, Later(ios))
            && Fails(dl, false, st, ios) == Fails(dl, false, next, Later(ios))
  {
    hide Goes, Refused;
    var next := NextBusy(sink, st.queue);
    assert Due(false, next) == st.queue;
    assert Due(false, st)[1..] == st.queue;
    var n := Count(dl, false, next, Later(ios));
    assert Answer(ios, n + 1) == Answer(Later(ios), n);
  }

  lemma OneMoreInFront<T>(x: T, all: seq<T>, n: nat)
    requires n <= |all|
    ensures ([x] + all)[..n + 1] == [x] + all[..n] && ([x] + all)[n + 1..] == all[n..]
  {}

  /** The turn that ends the loop of a busy stream. */
  lemma LastTurn(dl: DecompressLen, st: InboundStream, ios: seq<Io>, rearmed: bool)
    requires st.state.Some? && st.state.value.Busy?
    requires st.queue == [] || st.state.value.action.CloseStream? || !Goes(dl, st.state.value.action, HasStarted(st), Answer(ios, 0))
    ensures Outcomes(dl, false, st, ios, rearmed, Pump(dl, false, st, ios, rearmed), Written(dl, false, st, ios))
  {
    hide PollSend, Pump, Written, Refusal;
    var Busy(sink, a, started) := st.state.value;
    SendingGoes(dl, sink, a, started, Answer(ios, 0));
    BusyTurn(dl, false, st, ios, rearmed);
    hide Goes, Refused;
    assert Due(false, st)[0] == a;
    if Goes(dl, a, started, Answer(ios, 0)) && a.SendMessage? { assert Due(false, st)[1..] == []; }
  }

  lemma {:induction false} BusyOutcomes(dl: DecompressLen, st: InboundStream, ios: seq<Io>, rearmed: bool)
    requires st.state.Some? && st.state.value.Busy?
    ensures Outcomes(dl, false, st, ios, rearmed, Pump(dl, false, st, ios, rearmed), Written(dl, false, st, ios))
    decreases |st.queue|
  {
    var Busy(sink, a, started) := st.state.value;
    if st.queue == [] || a.CloseStream? || !Goes(dl, a, started, Answer(ios, 0)) {
      LastTurn(dl, st, ios, rearmed);
    } else {
      hide PollSend, Pump, Written, Refusal, ComesOut, Closes, Fails, Count, AllActions, Goes;
      SendingGoes(dl, sink, a, started, Answer(ios, 0));
      BusyTurn(dl, false, st, ios, rearmed);
      var sink' := PollSend(dl, sink, a, started, Answer(ios, 0)).sink;
      var next := NextBusy(sink', st.queue);
      BusyOutcomes(dl, next, Later(ios), true);
      OneMoreGoes(dl, st, sink', ios);
      OneMoreInFront(a, AllActions(next), Count(dl, false, next, Later(ios)));
    }
  }

  lemma IdleOutcomes(dl: DecompressLen, closed: bool, st: InboundStream, ios: seq<Io>)
    requires st.state.Some? && st.state.value.Idle? && (closed || st.queue == [])
    ensures Outcomes(dl, closed, st, ios, false, Pump(dl, closed, st, ios, false), Written(dl, closed, st, ios))
  {
    hide Refusal;
  }

  /** One poll of an inbound stream. It goes, without a report, if its close is carried out;
      it goes with a failure if the next action is refused by the encoder or the stream
      breaks; else it stays with what is left, its timer armed anew if anything got out. */
  lemma PumpOutcome(dl: DecompressLen, closed: bool, st: InboundStream, ios: seq<Io>)
    requires st.state.Some?
    ensures Outcomes(dl, closed, st, ios, false, Pump(dl, closed, st, ios, false), Written(dl, closed, st, ios))
  {
    match st.state.value
    case Busy(_, _, _) => if closed { BusyOutcomesClosed(dl, st, ios, false); } else { BusyOutcomes(dl, st, ios, false); }
    case Idle(sink) =>
      if closed || st.queue == [] {
        IdleOutcomes(dl, closed, st, ios);
      } else {
        var next := NextBusy(sink, st.queue);
        BusyOutcomes(dl, next, ios, false);
        assert Due(false, next) == Due(false, st) == st.queue;
        hide PollSend, Outcomes;
        assert Pump(dl, false, st, ios, false) == Pump(dl, false, next, ios, false);
        assert Written(dl, false, st, ios) == Written(dl, false, next, ios);
        SameOutcome(dl, st, next, ios, Pump(dl, false, st, ios, false), Written(dl, false, st, ios));
      }
  }

  lemma SameOutcome(dl: DecompressLen, st: InboundStream, next: InboundStream, ios: seq<Io>, p: Pumped, done: seq<ResponseAction>)
    requires st.state.Some? && next.state.Some? && Due(false, next) == Due(false, st) && !HasStarted(st) && !HasStarted(next)
    requires Outcomes(dl, false, next, ios, false, p, done)
    ensures Outcomes(dl, false, st, ios, false, p, done)
  {
    hide Carried, Refused, Goes, ComesOut, Answer;
    assert Count(dl, false, st, ios) == Count(dl, false, next, ios);
    assert AllActions(st) == AllActions(next);
  }

  // ---------------------------------------------------------------- failures over a run

  function IfFault(id: StreamId): (give: HandlerEvent -> seq<Failure>) {
    (e: HandlerEvent) => if e.InboundError? && e.stream == id then [e.failure] else []
  }

  /** The failures reported for an inbound stream, in order. */
  function Faults(log: seq<HandlerEvent>, id: StreamId): (r: seq<Failure>) {
    Collect(log, IfFault(id))
  }

  lemma FaultsSnoc(log: seq<HandlerEvent>, e: HandlerEvent, id: StreamId)
    ensures Faults(log + [e], id) == Faults(log, id) + (if e.InboundError? && e.stream == id then [e.failure] else [])
  {
    CollectSnoc(log, e, IfFault(id));
  }

  lemma {:induction false} ExpiryFaults(s: State, expired: seq<StreamId>, id: StreamId)
    requires NoDup(expired) && s.inboundTimers <= s.inbound.Keys && Elements(expired) <= s.inboundTimers
    ensures var r := ExpireInbound(s, expired);
            Faults(r.events, id) == Faults(s.events, id) + (if id in expired then [StreamTimedOut] else [])
            && r.inboundTimers == s.inboundTimers - Elements(expired)
    decreases |expired|
  {
    hide Faults;
    if expired == [] {
      assert Faults(s.events, id) + [] == Faults(s.events, id);
    } else {
      var head, rest := expired[0], expired[1..];
      assert head in Elements(expired);
      assert Elements(expired) == {head} + Elements(rest);
      FaultsSnoc(s.events, InboundError(head, StreamTimedOut), id);
      assert head !in rest && (id in expired <==> id == head || id in rest);
      ExpiryFaults(s.(inboundTimers := s.inboundTimers - {head}, events := s.events + [InboundError(head, StreamTimedOut)]), rest, id);
    }
  }

  function Failing(p: Pumped): (r: seq<Failure>) {
    if p.Gone? && p.failure.Some? then [p.failure.value] else []
  }

  /** The timer of a stream after it is polled. */
  predicate Timed(p: Pumped, before: bool) {
    p.Kept? && (before || p.rearmed)
  }

  lemma OnePumpReports(dl: DecompressLen, s: State, id: StreamId, ios: seq<Io>, x: StreamId)
    requires id in s.inbound && s.inbound[id].state.Some?
    ensures var r, p := PumpOne(dl, s, id, ios), Pump(dl, s.connection.Closed?, s.inbound[id], ios, false);
            r.connection == s.connection
            && Faults(r.events, x) == Faults(s.events, x) + (if x == id then Failing(p) else [])
            && (x in r.inboundTimers <==> if x == id then Timed(p, id in s.inboundTimers) else x in s.inboundTimers)
            && (x != id ==> ((x in r.inbound <==> x in s.inbound) && (x in s.inbound ==> r.inbound[x] == s.inbound[x])))
  {
    hide Pump, Faults;
    var p := Pump(dl, s.connection.Closed?, s.inbound[id], ios, false);
    assert s.events + [] == s.events && Faults(s.events, x) + [] == Faults(s.events, x);
    if p.Gone? && p.failure.Some? { FaultsSnoc(s.events, InboundError(id, p.failure.value), x); }
  }

  /** What the pumping of all streams reports for one, and makes of its timer. */
  lemma {:induction false} PumpAllReports(dl: DecompressLen, s: State, order: seq<StreamId>, io: StreamId -> seq<Io>, id: StreamId)
    requires CanPump(s, order)
    ensures id in order ==> id in s.inbound && s.inbound[id].state.Some?
    ensures var r := PumpAll(dl, s, order, io);
            if id in order then
              var p := Pump(dl, s.connection.Closed?, s.inbound[id], io(id), false);
              Faults(r.events, id) == Faults(s.events, id) + Failing(p)
              && (id in r.inboundTimers <==> Timed(p, id in s.inboundTimers))
            else Faults(r.events, id) == Faults(s.events, id) && (id in r.inboundTimers <==> id in s.inboundTimers)
    decreases |order|
  {
    hide Pump, PumpOne, Faults, Failing, Timed;
    if order != [] {
      var head := order[0];
      var mid := PumpOne(dl, s, head, io(head));
      PumpOneLeavesOthers(dl, s, order, io(head));
      OnePumpReports(dl, s, head, io(head), id);
      PumpAllReports(dl, mid, order[1..], io, id);
      assert order == [head] + order[1..];
      assert Faults(s.events, id) + [] == Faults(s.events, id);
      if id == head { assert head !in order[1..]; }
    }
  }

  lemma {:induction false} ReadReportsNoFault(s: State, order: seq<StreamId>, io: StreamId -> OutIo, id: StreamId)
    requires CanRead(s, order)
    ensures var (r, event) := ReadAll(s, order, io);
            Faults(r.events, id) == Faults(s.events, id) && (event.Some? ==> !event.value.InboundError?)
            && r.inboundTimers == s.inboundTimers
    decreases |order|
  {
    hide Faults;
    if order != [] {
      var (r, event) := ReadOne(s, order[0], io(order[0]));
      ReadOneLeavesOthers(s, order, io(order[0]));
      FaultsSnoc(s.events, OutboundError(s.outbound[order[0]].request, Disconnected), id);
      assert Faults(s.events, id) + [] == Faults(s.events, id);
      if event.None? { ReadReportsNoFault(r, order[1..], io, id); }
    }
  }

  /** The failures a call reports for a stream: a poll with nothing queued reports its timer
      if it has run out; and if no outbound timer has, its failure if it fails. */
  ghost function FaultsBy(dl: DecompressLen, s: State, c: Call, id: StreamId): (r: seq<Failure>) {
    if c.PollHandler? && s.events == [] then
      var w := c.weather;
      (if id in w.inboundExpired then [StreamTimedOut] else [])
      + (if w.outboundExpired == [] && id in s.inbound && s.inbound[id].state.Some?
            && Fails(dl, s.connection.Closed?, s.inbound[id], w.inboundIo(id))
         then [StreamFailed] else [])
    else []
  }

  lemma FailingIsFails(dl: DecompressLen, closed: bool, st: InboundStream, ios: seq<Io>)
    requires st.state.Some?
    ensures Failing(Pump(dl, closed, st, ios, false)) == if Fails(dl, closed, st, ios) then [StreamFailed] else []
  {
    hide Pump, Count, AllActions;
    PumpOutcome(dl, closed, st, ios);
  }

  lemma OutcomeFaults(r: State, out: Poll, id: StreamId)
    requires out.Notify? ==> !out.event.InboundError?
    ensures Faults(Outcome(r, out), id) == Faults(r.events, id)
  {
    assert [] + r.events == r.events;
    if out.Notify? {
      CollectConcat([out.event], r.events, IfFault(id));
      CollectOne(out.event, IfFault(id));
    }
  }

  lemma ConcludeFaults(s: State, id: StreamId)
    ensures Faults(Outcome(Conclude(s).0, Conclude(s).1), id) == Faults(s.events, id)
  {
    OutcomeFaults(Conclude(s).0, Conclude(s).1, id);
  }

  lemma PollFaults(dl: DecompressLen, run: Run, w: Weather, id: StreamId)
    requires Inv(run) && Possible(run.s, w) && run.s.events == []
    ensures Faults(Fresh(dl, run, PollHandler(w)), id) == FaultsBy(dl, run.s, PollHandler(w), id)
  {
    hide Told, Placed, ReadAll, PumpAll, ExpireOutbound, ExpireInbound, Faults, Pump, Fails, Failing, Conclude;
    var s := run.s;
    NoFaults(id);
    StagesFit(dl, s, w);
    var s1 := ExpireInbound(s, w.inboundExpired);
    ExpiryLeavesStreams(s, w.inboundExpired);
    ExpiryFaults(s, w.inboundExpired, id);
    var (s2, late) := ExpireOutbound(s1, w.outboundExpired);
    ExpirySays(s1, w.outboundExpired, 0);
    LateIsError(s1, w.outboundExpired);
    if late.Some? {
      OutcomeFaults(s2, Notify(late.value), id);
    } else {
      var s3 := PumpAll(dl, s2, w.inboundOrder, w.inboundIo);
      PumpAllReports(dl, s2, w.inboundOrder, w.inboundIo, id);
      assert id in w.inboundOrder <==> id in Elements(w.inboundOrder);
      if id in s.inbound { FailingIsFails(dl, s.connection.Closed?, s.inbound[id], w.inboundIo(id)); }
      ReadReportsNoFault(s3, w.outboundOrder, w.outboundIo, id);
      var (s4, event) := ReadAll(s3, w.outboundOrder, w.outboundIo);
      if event.Some? { OutcomeFaults(s4, Notify(event.value), id); } else { ConcludeFaults(s4, id); }
    }
  }

  lemma NoFaults(id: StreamId)
    ensures Faults([], id) == []
  {}

  lemma StepFaults(dl: DecompressLen, run: Run, c: Call, id: StreamId)
    requires Inv(run) && Enabled(run, c)
    ensures Faults(Fresh(dl, run, c), id) == FaultsBy(dl, run.s, c, id)
  {
    hide Polled, Told, Placed, Fails;
    if c.PollHandler? && run.s.events == [] {
      PollFaults(dl, run, c.weather, id);
    } else {
      CollectNothing(Fresh(dl, run, c), IfFault(id));
    }
  }

  ghost function FaultsIn(dl: DecompressLen, run: Run, calls: seq<Call>, id: StreamId): (r: seq<Failure>)
    requires AllEnabled(dl, run, calls)
    decreases |calls|
  {
    if calls == [] then [] else FaultsBy(dl, run.s, calls[0], id) + FaultsIn(dl, Step(dl, run, calls[0]), calls[1..], id)
  }

  lemma {:induction false} FaultsGrow(dl: DecompressLen, run: Run, calls: seq<Call>, id: StreamId)
    requires Inv(run) && AllEnabled(dl, run, calls)
    ensures Faults(Log(Steps(dl, run, calls)), id) == Faults(Log(run), id) + FaultsIn(dl, run, calls, id)
    decreases |calls|
  {
    hide Step, Inv, FaultsBy, Fresh, Log, Enabled;
    if calls == [] {
      assert Faults(Log(run), id) + [] == Faults(Log(run), id);
    } else {
      var next := Step(dl, run, calls[0]);
      StepKeeps(dl, run, calls[0]);
      LogCollects(dl, run, calls[0], IfFault(id));
      StepFaults(dl, run, calls[0], id);
      FaultsGrow(dl, next, calls[1..], id);
      Associate(Faults(Log(run), id), FaultsBy(dl, run.s, calls[0], id), FaultsIn(dl, next, calls[1..], id));
    }
  }

  /** In every run the failures reported for an inbound stream are its timeouts and its
      breaking, each when it happened, and nothing else. */
  lemma FailuresAreReported(dl: DecompressLen, calls: seq<Call>, id: StreamId)
    requires AllEnabled(dl, Start(), calls)
    ensures Faults(Log(Steps(dl, Start(), calls)), id) == FaultsIn(dl, Start(), calls, id)
  {
    StartInv();
    FaultsGrow(dl, Start(), calls, id);
    NoFaults(id);
    assert Log(Start()) == [];
  }

  // ---------------------------------------------------------------- timers

  /** The timer of an inbound stream runs after a poll if it ran and did not run out, or if
      something got out; and it stops with the stream. */
  lemma TimersAfterPoll(dl: DecompressLen, run: Run, w: Weather, id: StreamId)
    requires Inv(run) && Possible(run.s, w) && run.s.events == []
    ensures var s, closed := run.s, run.s.connection.Closed?;
            var still := id in s.inboundTimers && id !in w.inboundExpired;
            id in Polled(dl, s, w).0.inboundTimers
            <==> if w.outboundExpired == [] && id in s.inbound && s.inbound[id].state.Some? then
                   var st, ios := s.inbound[id], w.inboundIo(id);
                   !Closes(dl, closed, st, ios) && !Fails(dl, closed, st, ios) && (still || Count(dl, closed, st, ios) > 0)
                 else still
  {
    hide Told, Placed, ReadAll, PumpAll, ExpireOutbound, ExpireInbound, Faults, Pump, Fails, Closes, Count;
    var s := run.s;
    StagesFit(dl, s, w);
    var s1 := ExpireInbound(s, w.inboundExpired);
    ExpiryLeavesStreams(s, w.inboundExpired);
    ExpiryFaults(s, w.inboundExpired, id);
    assert id in w.inboundExpired <==> id in Elements(w.inboundExpired);
    ExpirySays(s1, w.outboundExpired, 0);
    OutboundExpiryLeavesStreams(s1, w.outboundExpired);
    var (s2, late) := ExpireOutbound(s1, w.outboundExpired);
    if late.None? {
      var s3 := PumpAll(dl, s2, w.inboundOrder, w.inboundIo);
      PumpAllReports(dl, s2, w.inboundOrder, w.inboundIo, id);
      assert id in w.inboundOrder <==> id in Elements(w.inboundOrder);
      if id in s.inbound { TimedIs(dl, s.connection.Closed?, s.inbound[id], w.inboundIo(id), id in s1.inboundTimers); }
      ReadReportsNoFault(s3, w.outboundOrder, w.outboundIo, id);
    }
  }

  lemma TimedIs(dl: DecompressLen, closed: bool, st: InboundStream, ios: seq<Io>, before: bool)
    requires st.state.Some?
    ensures Timed(Pump(dl, closed, st, ios, false), before)
            <==> !Closes(dl, closed, st, ios) && !Fails(dl, closed, st, ios) && (before || Count(dl, closed, st, ios) > 0)
  {
    hide Pump, AllActions, Carried;
    PumpOutcome(dl, closed, st, ios);
  }

  /** Whether the timer of a stream runs after a call. */
  ghost predicate RunsAfter(dl: DecompressLen, s: State, c: Call, id: StreamId, runs: bool) {
    match c
    case InboundReady(_) => runs || id == s.inboundId
    case PollHandler(w) =>
      if s.events != [] then runs
      else
        var still := runs && id !in w.inboundExpired;
        if w.outboundExpired == [] && id in s.inbound && s.inbound[id].state.Some? then
          !Closes(dl, s.connection.Closed?, s.inbound[id], w.inboundIo(id)) && !Fails(dl, s.connection.Closed?, s.inbound[id], w.inboundIo(id))
          && (still || Count(dl, s.connection.Closed?, s.inbound[id], w.inboundIo(id)) > 0)
        else still
    case _ => runs
  }

  ghost predicate RunsAfterAll(dl: DecompressLen, run: Run, calls: seq<Call>, id: StreamId, runs: bool)
    requires AllEnabled(dl, run, calls)
    decreases |calls|
  {
    if calls == [] then runs
    else RunsAfterAll(dl, Step(dl, run, calls[0]), calls[1..], id, RunsAfter(dl, run.s, calls[0], id, runs))
  }

  lemma StepTimes(dl: DecompressLen, run: Run, c: Call, id: StreamId)
    requires Inv(run) && Enabled(run, c)
    ensures id in Step(dl, run, c).s.inboundTimers <==> RunsAfter(dl, run.s, c, id, id in run.s.inboundTimers)
  {
    hide Told, Placed, Closes, Fails, Count;
    if c.PollHandler? && run.s.events == [] {
      hide Polled;
      TimersAfterPoll(dl, run, c.weather, id);
    }
  }

  /** In every run the timer of an inbound stream is armed when the stream comes and whenever
      something gets out on it, stops when it runs out or the stream goes, and else is left. */
  lemma {:induction false} TimersFollow(dl: DecompressLen, run: Run, calls: seq<Call>, id: StreamId)
    requires Inv(run) && AllEnabled(dl, run, calls)
    ensures id in Steps(dl, run, calls).s.inboundTimers <==> RunsAfterAll(dl, run, calls, id, id in run.s.inboundTimers)
    decreases |calls|
  {
    hide Step, Inv, RunsAfter, Enabled;
    if calls != [] {
      StepKeeps(dl, run, calls[0]);
      StepTimes(dl, run, calls[0], id);
      TimersFollow(dl, Step(dl, run, calls[0]), calls[1..], id);
    }
  }

  // ---------------------------------------------------------------- one fate for each stream

  ghost predicate EndsIn<T(!new)>(s: seq<T>, x: T) {
    s != [] && s[|s| - 1] == x
  }

  /** A stream that is open has not failed; one that is gone has failed, which was reported
      once and last, or its close was carried out or the connection is closed. */
  ghost predicate Fated(s: State, l: Ledger, faults: seq<Failure>, id: StreamId) {
    if id >= s.inboundId then id !in s.inbound && faults == []
    else if id in s.inbound then StreamFailed !in faults
    else if StreamFailed in faults then EndsIn(faults, StreamFailed) && StreamFailed !in faults[..|faults| - 1]
    else s.connection.Closed? || (id in l.written && EndsIn(l.written[id], CloseStream))
  }

  lemma ClosedWrote(dl: DecompressLen, st: InboundStream, ios: seq<Io>)
    requires st.state.Some? && Closes(dl, false, st, ios)
    ensures Pump(dl, false, st, ios, false) == Gone(None) && EndsIn(Written(dl, false, st, ios), CloseStream)
  {
    hide Pump, Written;
    PumpOutcome(dl, false, st, ios);
    assert Due(false, st) == AllActions(st);
  }

  lemma StaysOrGoes(dl: DecompressLen, closed: bool, st: InboundStream, ios: seq<Io>)
    requires st.state.Some?
    ensures Pump(dl, closed, st, ios, false).Kept? == (!Closes(dl, closed, st, ios) && !Fails(dl, closed, st, ios))
    ensures !(Closes(dl, closed, st, ios) && Fails(dl, closed, st, ios))
  {
    hide Pump, Count, AllActions;
    PumpOutcome(dl, closed, st, ios);
  }

  lemma PumpsIff(run: Run, w: Weather)
    requires Inv(run) && Possible(run.s, w)
    ensures Pumps(run.s, w) <==> run.s.events == [] && w.outboundExpired == []
  {
    hide Told, Placed;
    ExpiryLeavesStreams(run.s, w.inboundExpired);
    ExpirySays(ExpireInbound(run.s, w.inboundExpired), w.outboundExpired, 0);
  }

  /** A stream that was polled. */
  lemma PumpedFate(dl: DecompressLen, s: State, r: State, w: Weather, id: StreamId, before: seq<ResponseAction>, l: Ledger,
                   faults: seq<Failure>, timed: seq<Failure>)
    requires Present(s) && id in s.inbound && id < r.inboundId && PumpedAlone(dl, s, r, w, id) && (s.connection.Closed? ==> r.connection.Closed?)
    requires StreamFailed !in faults && StreamFailed !in timed
    requires id in l.written && l.written[id] == before + Written(dl, s.connection.Closed?, s.inbound[id], w.inboundIo(id))
    ensures var failed := Fails(dl, s.connection.Closed?, s.inbound[id], w.inboundIo(id));
            Fated(r, l, faults + (timed + (if failed then [StreamFailed] else [])), id)
  {
    hide Pump, Written, Fails, Closes;
    var st, ios := s.inbound[id], w.inboundIo(id);
    StaysOrGoes(dl, s.connection.Closed?, st, ios);
    if Closes(dl, false, st, ios) && !s.connection.Closed? { ClosedWrote(dl, st, ios); }
    if Fails(dl, s.connection.Closed?, st, ios) {
      var all := faults + (timed + [StreamFailed]);
      assert all[..|all| - 1] == faults + timed;
    }
  }

  lemma PollFate(dl: DecompressLen, run: Run, l: Ledger, w: Weather, faults: seq<Failure>, id: StreamId)
    requires Inv(run) && Possible(run.s, w) && Balanced(dl, run.s, l) && Fated(run.s, l, faults, id)
    ensures Fated(Polled(dl, run.s, w).0, Record(dl, run.s, l, PollHandler(w)), faults + FaultsBy(dl, run.s, PollHandler(w), id), id)
  {
    var s, c := run.s, PollHandler(w);
    PumpsIff(run, w);
    PolledInbound(dl, s, w);
    ExpiredAreOpen(run, w, id);
    if id in l.written { RecordedByPoll(dl, s, l, w, id); }
    assert Present(s) && (id in s.inbound ==> id in l.written);
    hide HandlerRequests.Kept, Polled, Pump, Written, Fails, Possible, Balanced, Pumps, Record, Fated;
    var r, l' := Polled(dl, s, w).0, Record(dl, s, l, c);
    assert id in s.inbound ==> StreamFailed !in faults by { OpenHasNotFailed(s, l, faults, id); }
    if Pumps(s, w) && id in s.inbound {
      PumpedFate(dl, s, r, w, id, l.written[id], l', faults, if id in w.inboundExpired then [StreamTimedOut] else []);
    } else {
      assert Pumps(s, w) ==> PumpedAlone(dl, s, r, w, id);
      PassedFate(dl, s, r, w, id, l, l', faults);
    }
  }

  lemma OpenHasNotFailed(s: State, l: Ledger, faults: seq<Failure>, id: StreamId)
    requires Fated(s, l, faults, id)
    ensures id in s.inbound ==> StreamFailed !in faults
  {}

  lemma RecordedByPoll(dl: DecompressLen, s: State, l: Ledger, w: Weather, id: StreamId)
    requires Balanced(dl, s, l) && id in l.written && Present(s)
    ensures var l' := Record(dl, s, l, PollHandler(w));
            id in l'.written
            && l'.written[id] == l.written[id] + (if Pumps(s, w) && id in s.inbound
                                                  then Written(dl, s.connection.Closed?, s.inbound[id], w.inboundIo(id)) else [])
  {
    hide Written, Pumps, StreamKept;
    assert l.written[id] + [] == l.written[id];
  }

  /** A stream that was not. */
  lemma PassedFate(dl: DecompressLen, s: State, r: State, w: Weather, id: StreamId, l: Ledger, l': Ledger, faults: seq<Failure>)
    requires r.inboundId == s.inboundId && (id in r.inbound <==> id in s.inbound) && (s.connection.Closed? ==> r.connection.Closed?)
    requires (id in l.written ==> id in l'.written && l'.written[id] == l.written[id]) && Fated(s, l, faults, id)
    requires id in w.inboundExpired ==> id in s.inbound
    requires id in s.inbound ==> id < s.inboundId && (s.events != [] || w.outboundExpired != [])
    ensures Fated(r, l', faults + FaultsBy(dl, s, PollHandler(w), id), id)
  {
    hide Fails;
    var more := FaultsBy(dl, s, PollHandler(w), id);
    assert id !in s.inbound ==> more == [];
    assert faults + [] == faults;
  }

  lemma ExpiredAreOpen(run: Run, w: Weather, id: StreamId)
    requires Inv(run) && Possible(run.s, w)
    ensures id in w.inboundExpired ==> id in run.s.inbound
    ensures id in run.s.inbound ==> id < run.s.inboundId && run.s.inbound[id].state.Some?
  {
    assert id in w.inboundExpired <==> id in Elements(w.inboundExpired);
  }

  lemma CallFate(dl: DecompressLen, run: Run, l: Ledger, c: Call, faults: seq<Failure>, id: StreamId)
    requires Enabled(run, c) && !c.PollHandler? && Balanced(dl, run.s, l) && Fated(run.s, l, faults, id)
    ensures Fated(Step(dl, run, c).s, Record(dl, run.s, l, c), faults, id)
  {
    hide StreamKept;
  }

  lemma StepFate(dl: DecompressLen, run: Run, l: Ledger, c: Call, id: StreamId)
    requires Inv(run) && Enabled(run, c) && Balanced(dl, run.s, l) && Fated(run.s, l, Faults(Log(run), id), id)
    ensures Fated(Step(dl, run, c).s, Record(dl, run.s, l, c), Faults(Log(Step(dl, run, c)), id), id)
  {
    hide HandlerRequests.Kept, Polled, Balanced, Fated, Record, Faults, Possible, Fails;
    FaultsAre(dl, run, c, id);
    var faults := Faults(Log(run), id);
    if c.PollHandler? {
      PollFate(dl, run, l, c.weather, faults, id);
    } else {
      assert faults + [] == faults;
      CallFate(dl, run, l, c, faults, id);
    }
  }

  lemma FaultsAre(dl: DecompressLen, run: Run, c: Call, id: StreamId)
    requires Inv(run) && Enabled(run, c)
    ensures Faults(Log(Step(dl, run, c)), id) == Faults(Log(run), id) + FaultsBy(dl, run.s, c, id)
  {
    hide Step, Inv, FaultsBy, Fresh, Log, Enabled;
    LogCollects(dl, run, c, IfFault(id));
    StepFaults(dl, run, c, id);
  }

  lemma {:induction false} RunFate(dl: DecompressLen, run: Run, l: Ledger, calls: seq<Call>, id: StreamId)
    requires Inv(run) && AllEnabled(dl, run, calls) && Balanced(dl, run.s, l) && Fated(run.s, l, Faults(Log(run), id), id)
    ensures var r := Steps(dl, run, calls); Fated(r.s, Records(dl, run, l, calls), Faults(Log(r), id), id)
    decreases |calls|
  {
    hide Step, Inv, Balanced, Fated, Record, Faults, Log, Enabled;
    if calls != [] {
      StepKeeps(dl, run, calls[0]);
      StepBalances(dl, run, l, calls[0]);
      StepFate(dl, run, l, calls[0], id);
      RunFate(dl, Step(dl, run, calls[0]), Record(dl, run.s, l, calls[0]), calls[1..], id);
    }
  }

  /** In every run an inbound stream that is open has not been reported broken, and one that
      is gone was closed as it was told to, or was reported broken, once and last, or went
      with the connection. None is dropped in silence. */
  lemma StreamsEndOneWay(dl: DecompressLen, calls: seq<Call>, id: StreamId)
    requires AllEnabled(dl, Start(), calls)
    ensures var run := Steps(dl, Start(), calls);
            Fated(run.s, Records(dl, Start(), NoBooks(), calls), Faults(Log(run), id), id)
  {
    StartInv();
    NoFaults(id);
    assert Log(Start()) == [];
    RunFate(dl, Start(), NoBooks(), calls, id);
  }
}
