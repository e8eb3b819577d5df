/** When a request ends twice: exactly, for every run, and that it can. */
module HandlerEndings {
  import opened Basics
  import opened SnappyScan
  import opened Handler
  import opened HandlerRequests

  /** Two endings have been told or queued. */
  ghost predicate EndedTwice(story: seq<HandlerEvent>) {
    exists i, j :: 0 <= i < j < |story| && Terminal(story[i]) && Terminal(story[j])
  }

  /** In every run a request has ended twice if and only if its stream was negotiated on a
      closed connection, is gone, and was first reported disconnected. What else can become
      of such a stream is that its timer runs out before a poll reads it. */
  lemma EndedTwiceIff(dl: DecompressLen, calls: seq<Call>, q: RequestId)
    requires AllEnabled(dl, Start(), calls)
    ensures var run := Steps(dl, Start(), calls); var story := Story(run.s, run.delivered, q);
            EndedTwice(story)
            <==> NegotiatedLate(dl, Start(), calls, q) && !HasStream(run.s, q)
                 && story != [] && story[0] == OutboundError(q, Disconnected)
    ensures var run := Steps(dl, Start(), calls); var story := Story(run.s, run.delivered, q);
            NegotiatedLate(dl, Start(), calls, q) && !HasStream(run.s, q) && !EndedTwice(story)
            ==> story == [OutboundError(q, StreamTimedOut)]
  {
    hide Step, Enabled, HandlerRequests.Kept;
    StartInv();
    RunsKeep(dl, Start(), calls);
    LateIsNegotiatedLate(dl, Start(), calls, q);
    var run := Steps(dl, Start(), calls);
    StoriesByPlace(run, q);
    TwiceByShape(Story(run.s, run.delivered, q), q);
  }

  lemma TwiceByShape(story: seq<HandlerEvent>, q: RequestId)
    ensures EndsTwice(story, q) ==> EndedTwice(story)
    ensures OnlyResponses(story) || EndsOnce(story) || |story| <= 1 ==> !EndedTwice(story)
  {
    if EndsTwice(story, q) { assert Terminal(story[0]) && Terminal(story[1]); }
    if EndedTwice(story) {
      var i, j :| 0 <= i < j < |story| && Terminal(story[i]) && Terminal(story[j]);
      OneEnding(story, i, j);
    }
  }

  // ---------------------------------------------------------------- every such stream can

  lemma {:induction false} StepsInTwo(dl: DecompressLen, run: Run, a: seq<Call>, b: seq<Call>)
    requires AllEnabled(dl, run, a) && AllEnabled(dl, Steps(dl, run, a), b)
    ensures AllEnabled(dl, run, a + b) && Steps(dl, run, a + b) == Steps(dl, Steps(dl, run, a), b)
    decreases |a|
  {
    hide Step, Enabled;
    if a == [] {
      assert a + b == b;
    } else {
      assert (a + b)[0] == a[0] && (a + b)[1..] == a[1..] + b;
      StepsInTwo(dl, Step(dl, run, a[0]), a[1..], b);
    }
  }

  lemma OneStep(dl: DecompressLen, run: Run, c: Call)
    requires Enabled(run, c)
    ensures AllEnabled(dl, run, [c]) && Steps(dl, run, [c]) == Step(dl, run, c)
  {
    hide Step, Enabled;
    assert [c][1..] == [];
  }

  lemma {:induction false} ListOf<T>(s: set<T>) returns (r: seq<T>)
    ensures NoDup(r) && Elements(r) == s
    decreases s
  {
    if s == {} {
      r := [];
    } else {
      var x :| x in s;
      var rest := ListOf(s - {x});
      assert x !in rest by { assert x !in Elements(rest); }
      r := [x] + rest;
      assert Elements(r) == {x} + Elements(rest);
    }
  }

  /** Nothing runs out, nothing can be written, and `first`, if it is read, has ended. */
  function Quiet(inbound: seq<StreamId>, outbound: seq<StreamId>, first: Option<StreamId>): (w: Weather) {
    Weather([], [], inbound, id => [], outbound, id => if Some(id) == first then Finished else NotReady)
  }

  /** On a closed connection a walk that finds nothing ready starts to close every stream. */
  lemma {:induction false} QuietReading(s: State, order: seq<StreamId>, io: StreamId -> OutIo)
    requires CanRead(s, order) && s.connection.Closed? && forall id :: io(id).NotReady?
    ensures var (r, event) := ReadAll(s, order, io);
            event.None? && r.connection.Closed? && r.pending == s.pending
            && (forall id :: id in s.outbound ==> id in r.outbound && r.outbound[id].request == s.outbound[id].request)
            && (forall i :: 0 <= i < |order| ==> order[i] in r.outbound && r.outbound[order[i]].state == Some(Closing))
            && (forall id :: id in s.outbound && s.outbound[id].state == Some(Closing) ==> r.outbound[id].state == Some(Closing))
    decreases |order|
  {
    if order != [] {
      var r := ReadOne(s, order[0], io(order[0])).0;
      ReadOneLeavesOthers(s, order, io(order[0]));
      ReadOneCloses(s, order[0]);
      QuietReading(r, order[1..], io);
      assert forall i :: 1 <= i < |order| ==> order[i] == order[1..][i - 1];
    }
  }

  lemma ReadOneCloses(s: State, id: StreamId)
    requires id in s.outbound && s.outbound[id].state.Some? && s.connection.Closed?
    ensures var (r, event) := ReadOne(s, id, NotReady);
            event.None? && r.connection.Closed? && r.pending == s.pending && r.outbound.Keys == s.outbound.Keys
            && r.outbound[id].state == Some(Closing)
            && (forall x :: x in s.outbound ==> r.outbound[x].request == s.outbound[x].request)
            && (forall x :: x in s.outbound && x != id ==> r.outbound[x] == s.outbound[x])
  {}

  /** A poll of a handler with nothing queued, up to the reading of outbound streams. */
  lemma QuietPoll(dl: DecompressLen, s: State, w: Weather)
    requires Present(s) && Possible(s, w) && s.events == [] && w.inboundExpired == [] && w.outboundExpired == []
    ensures CanPump(s, w.inboundOrder) && CanRead(PumpAll(dl, s, w.inboundOrder, w.inboundIo), w.outboundOrder)
    ensures var s3 := PumpAll(dl, s, w.inboundOrder, w.inboundIo);
            var (s4, event) := ReadAll(s3, w.outboundOrder, w.outboundIo);
            s3.outbound == s.outbound && s3.pending == s.pending && s3.connection == s.connection
            && Polled(dl, s, w) == if event.Some? then (s4, Notify(event.value)) else Conclude(s4)
  {
    hide PumpAll, ReadAll;
    StagesFit(dl, s, w);
    PumpingLeavesOutbound(dl, s, w.inboundOrder, w.inboundIo);
  }

  /** One quiet poll and every open stream is closing. */
  lemma ClosingPoll(dl: DecompressLen, run: Run, id: StreamId) returns (c: Call)
    requires Inv(run) && run.s.connection.Closed? && run.s.events == [] && id in run.s.outbound
    ensures Enabled(run, c)
    ensures var r := Step(dl, run, c);
            Inv(r) && r.s.connection.Closed? && id in r.s.outbound && r.s.outbound[id].state == Some(Closing)
            && r.s.outbound[id].request == run.s.outbound[id].request && r.late == run.late
  {
    var inbound := ListOf(run.s.inbound.Keys);
    var outbound := ListOf(run.s.outbound.Keys);
    var w := Quiet(inbound, outbound, None);
    c := PollHandler(w);
    assert id in outbound by { assert id in Elements(outbound); }
    QuietPoll(dl, run.s, w);
    StepKeeps(dl, run, c);
    hide Polled, PumpAll, ReadAll, Told, Placed, About;
    var s3 := PumpAll(dl, run.s, inbound, w.inboundIo);
    QuietReading(s3, outbound, w.outboundIo);
    var i :| 0 <= i < |outbound| && outbound[i] == id;
    assert Conclude(ReadAll(s3, outbound, w.outboundIo).0) == (ReadAll(s3, outbound, w.outboundIo).0, NothingYet);
  }

  /** Polls that deliver what is queued change nothing else. */
  lemma {:induction false} DeliverAll(dl: DecompressLen, run: Run) returns (calls: seq<Call>)
    requires Inv(run)
    ensures AllEnabled(dl, run, calls)
    ensures var r := Steps(dl, run, calls);
            Inv(r) && r.s == run.s.(events := []) && r.late == run.late
    decreases |run.s.events|
  {
    if run.s.events == [] {
      calls := [];
    } else {
      var inbound := ListOf(run.s.inbound.Keys);
      var outbound := ListOf(run.s.outbound.Keys);
      var c := PollHandler(Quiet(inbound, outbound, None));
      assert Enabled(run, c);
      StepKeeps(dl, run, c);
      var rest := DeliverAll(dl, Step(dl, run, c));
      calls := [c] + rest;
      assert calls[1..] == rest;
    }
  }

  /** A quiet weather in which `id` is read first and has ended. */
  lemma EndingWeather(s: State, id: StreamId) returns (w: Weather, others: seq<StreamId>)
    requires id in s.outbound
    ensures Possible(s, w) && w.inboundExpired == [] && w.outboundExpired == []
    ensures w.outboundOrder == [id] + others && w.outboundIo(id).Finished?
  {
    var inbound := ListOf(s.inbound.Keys);
    others := ListOf(s.outbound.Keys - {id});
    assert id !in others by { assert id !in Elements(others); }
    assert Elements([id] + others) == {id} + Elements(others) == s.outbound.Keys;
    w := Quiet(inbound, [id] + others, Some(id));
  }

  /** A closing stream that has closed ends its request. */
  lemma ClosedPoll(dl: DecompressLen, run: Run, id: StreamId) returns (c: Call)
    requires Inv(run) && run.s.connection.Closed? && run.s.events == [] && id in run.s.outbound
    requires run.s.outbound[id].state == Some(Closing)
    ensures Enabled(run, c)
    ensures var r, q := Step(dl, run, c), run.s.outbound[id].request;
            Inv(r) && r.late == run.late && r.given == run.given && r.negotiating == run.negotiating
            && r.delivered == run.delivered + [EndOfStream(q)] && r.s.pending == [] && !HasStream(r.s, q)
  {
    var w, others := EndingWeather(run.s, id);
    c := PollHandler(w);
    QuietPoll(dl, run.s, w);
    StepKeeps(dl, run, c);
    StreamsAreDistinct(run);
    NothingWaits(run);
    hide Polled, PumpAll, ReadAll, HandlerRequests.Kept, Possible, CanRead, CanPump, HasStream;
    var s3 := PumpAll(dl, run.s, w.inboundOrder, w.inboundIo);
    FirstIsRead(s3, id, others, w.outboundIo);
    DroppedStreams(s3, id);
  }

  lemma NothingWaits(run: Run)
    requires Inv(run) && run.s.connection.Closed?
    ensures run.s.pending == []
  {}

  lemma FirstIsRead(s: State, id: StreamId, others: seq<StreamId>, io: StreamId -> OutIo)
    requires CanRead(s, [id] + others) && id in s.outbound && s.outbound[id].state == Some(Closing) && io(id).Finished?
    ensures ReadAll(s, [id] + others, io) == (Dropped(s, id), Some(EndOfStream(s.outbound[id].request)))
  {
    assert ([id] + others)[0] == id;
  }

  /** On a closed connection every open stream has a future in which its request ends twice. */
  lemma LateStreamsCanEndTwice(dl: DecompressLen, run: Run, id: StreamId) returns (calls: seq<Call>)
    requires Inv(run) && run.s.connection.Closed? && id in run.s.outbound
    ensures AllEnabled(dl, run, calls)
    ensures var r, q := Steps(dl, run, calls), run.s.outbound[id].request;
            EndsTwice(Story(r.s, r.delivered, q), q)
  {
    hide Step, Enabled, HandlerRequests.Kept;
    var a := DeliverAll(dl, run);
    var run1 := Steps(dl, run, a);
    var b := ClosingPoll(dl, run1, id);
    OneStep(dl, run1, b);
    var run2 := Step(dl, run1, b);
    var c := DeliverAll(dl, run2);
    var run3 := Steps(dl, run2, c);
    var d := ClosedPoll(dl, run3, id);
    OneStep(dl, run3, d);
    var run4 := Step(dl, run3, d);
    StepsInTwo(dl, run2, c, [d]);
    StepsInTwo(dl, run1, [b], c + [d]);
    StepsInTwo(dl, run, a, [b] + (c + [d]));
    calls := a + ([b] + (c + [d]));
    LateOfStream(run3, id);
    EndOfStreamIsSecond(run3, run4, run3.s.outbound[id].request);
  }

  lemma LateOfStream(run: Run, id: StreamId)
    requires Inv(run) && run.s.connection.Closed? && id in run.s.outbound
    ensures var q := run.s.outbound[id].request; q in run.late && q in run.given && q !in run.negotiating
  {}

  lemma EndOfStreamIsSecond(run: Run, r: Run, q: RequestId)
    requires Inv(r) && q in r.late && q in r.given && q !in r.negotiating && r.s.pending == [] && !HasStream(r.s, q)
    requires r.delivered == run.delivered + [EndOfStream(q)]
    ensures EndsTwice(Story(r.s, r.delivered, q), q)
  {
    assert Told(r.s, r.delivered, r.given, r.negotiating, r.late, q);
    StreamIsOpen(r.s, q);
    AboutSnoc(run.delivered, EndOfStream(q), q);
    var before := About(run.delivered, q);
    var story := Story(r.s, r.delivered, q);
    assert story[|before|] == EndOfStream(q);
  }

  /** So whenever a stream is negotiated on a closed connection, its request can end twice. */
  lemma LateRequestsCanEndTwice(dl: DecompressLen, calls: seq<Call>, q: RequestId) returns (more: seq<Call>)
    requires AllEnabled(dl, Start(), calls)
    requires var run := Steps(dl, Start(), calls); run.s.connection.Closed? && q in run.negotiating
    ensures var all := calls + ([OutboundReady(q)] + more);
            AllEnabled(dl, Start(), all) && EndsTwice(Story(Steps(dl, Start(), all).s, Steps(dl, Start(), all).delivered, q), q)
  {
    StartInv();
    RunsKeep(dl, Start(), calls);
    var run := Steps(dl, Start(), calls);
    var c := OutboundReady(q);
    OneStep(dl, run, c);
    StepKeeps(dl, run, c);
    var next := Step(dl, run, c);
    var id := run.s.outboundId;
    assert next.s.outbound[id].request == q && next.s.connection.Closed?;
    hide Step, Enabled, HandlerRequests.Kept;
    more := LateStreamsCanEndTwice(dl, next, id);
    StepsInTwo(dl, run, [c], more);
    StepsInTwo(dl, Start(), calls, [c] + more);
  }

  /** And it happens: a request is given, its stream asked for, the connection shuts down and
      closes while the stream is negotiated, and then the stream arrives. */
  lemma EndingTwiceHappens(dl: DecompressLen) returns (calls: seq<Call>)
    ensures AllEnabled(dl, Start(), calls)
    ensures var run := Steps(dl, Start(), calls); EndsTwice(Story(run.s, run.delivered, 1), 1)
  {
    var poll := PollHandler(Quiet([], [], None));
    var a, b, c, d := GiveRequest(1, []), poll, BeginShutdown, poll;
    var run1 := Step(dl, Start(), a);
    var run2 := Step(dl, run1, b);
    assert run2.s.pending == [] && run2.negotiating == {1};
    var run3 := Step(dl, run2, c);
    var run4 := Step(dl, run3, d);
    assert run4.s.connection.Closed? && run4.negotiating == {1};
    OneStep(dl, run3, d);
    OneStep(dl, run2, c);
    OneStep(dl, run1, b);
    OneStep(dl, Start(), a);
    StepsInTwo(dl, run2, [c], [d]);
    StepsInTwo(dl, run1, [b], [c] + [d]);
    StepsInTwo(dl, Start(), [a], [b] + ([c] + [d]));
    var first := [a] + ([b] + ([c] + [d]));
    var more := LateRequestsCanEndTwice(dl, first, 1);
    calls := first + ([OutboundReady(1)] + more);
  }
}
