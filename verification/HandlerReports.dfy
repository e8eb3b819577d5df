/** What the handler reports, exactly: everything it ever says, as a function of the calls
    made to it and the answers the network gave. */
module HandlerReports {
  import opened Basics
  import opened SnappyScan
  import opened Handler
  import opened HandlerRequests

  /** Everything delivered and, behind it, everything queued. */
  function Log(run: Run): (r: seq<HandlerEvent>) {
    run.delivered + run.s.events
  }

  /** What a poll that starts with nothing queued says: what it returns, then what it queues. */
  function Outcome(s: State, out: Poll): (r: seq<HandlerEvent>) {
    (if out.Notify? then [out.event] else []) + s.events
  }

  ghost function Fresh(dl: DecompressLen, run: Run, c: Call): (r: seq<HandlerEvent>)
    requires Enabled(run, c)
  {
    match c
    case GiveRequest(q, _) => if run.s.connection.Live? then [] else [OutboundError(q, Disconnected)]
    case OutboundRefused(q) => [OutboundError(q, Disconnected)]
    case InboundReady(m) => [RequestReceived(run.s.inboundId, m)]
    case PollHandler(w) => if run.s.events != [] then [] else Outcome(Polled(dl, run.s, w).0, Polled(dl, run.s, w).1)
    case _ => []
  }

  /** The log only grows. */
  lemma LogGrows(dl: DecompressLen, run: Run, c: Call)
    requires Enabled(run, c)
    ensures Log(Step(dl, run, c)) == Log(run) + Fresh(dl, run, c)
  {
    hide Polled;
    match c
    case PollHandler(w) => PollGrows(dl, run, w);
    case _ =>
  }

  lemma PollGrows(dl: DecompressLen, run: Run, w: Weather)
    requires Enabled(run, PollHandler(w))
    ensures Log(Step(dl, run, PollHandler(w))) == Log(run) + Fresh(dl, run, PollHandler(w))
  {
    if run.s.events != [] {
      assert run.delivered + [run.s.events[0]] + run.s.events[1..] == Log(run) + [];
    } else {
      hide Polled;
      var (r, out) := Polled(dl, run.s, w);
      assert run.delivered + [] == run.delivered;
      assert Log(AfterPoll(run, r, out)) == run.delivered + Outcome(r, out);
    }
  }

  lemma LogCollects<U>(dl: DecompressLen, run: Run, c: Call, give: HandlerEvent -> seq<U>)
    requires Enabled(run, c)
    ensures Collect(Log(Step(dl, run, c)), give) == Collect(Log(run), give) + Collect(Fresh(dl, run, c), give)
  {
    hide Step, Fresh, Enabled;
    LogGrows(dl, run, c);
    CollectConcat(Log(run), Fresh(dl, run, c), give);
  }

  // ---------------------------------------------------------------- what is said about a request

  /** The answer ends the walk over the outbound streams; on a closed connection only a stream
      that is closing is asked. */
  predicate Stops(s: State, id: StreamId, io: OutIo) {
    !io.NotReady? && (s.connection.Closed? ==> id in s.outbound && s.outbound[id].state == Some(Closing))
  }

  /** How many streams the walk passes. */
  function Passed(s: State, order: seq<StreamId>, io: StreamId -> OutIo): (k: nat)
    ensures k <= |order| && forall i :: 0 <= i < k ==> !Stops(s, order[i], io(order[i]))
    ensures k < |order| ==> Stops(s, order[k], io(order[k]))
  {
    if order == [] || Stops(s, order[0], io(order[0])) then 0
    else
      var k := Passed(s, order[1..], io);
      assert forall i :: 0 < i <= k ==> order[i] == order[1..][i - 1];
      1 + k
  }

  predicate IsOf(s: State, id: StreamId, q: RequestId) {
    id in s.outbound && s.outbound[id].request == q
  }

  /** The report of an answer. */
  function Report(closed: bool, q: RequestId, io: OutIo): (e: HandlerEvent)
    requires !io.NotReady?
    ensures Subject(e) == Some(q)
  {
    if closed then EndOfStream(q)
    else
      match io
      case Received(m) => ResponseReceived(q, m)
      case Finished => EndOfStream(q)
      case Failed => OutboundError(q, StreamFailed)
  }

  ghost predicate PassedOpen(s: State, order: seq<StreamId>, k: nat, q: RequestId)
    requires k <= |order|
  {
    exists i :: 0 <= i < k && IsOf(s, order[i], q) && s.outbound[order[i]].state == Some(PendingResponse)
  }

  /** What the walk says about `q`: the report if it stops at the stream of `q`; and if the
      connection is closed and it passes an open stream of `q`, that this is disconnected. */
  ghost function WalkSays(s: State, order: seq<StreamId>, io: StreamId -> OutIo, q: RequestId): (r: seq<HandlerEvent>) {
    var k := Passed(s, order, io);
    if k < |order| && IsOf(s, order[k], q) then [Report(s.connection.Closed?, q, io(order[k]))]
    else if s.connection.Closed? && PassedOpen(s, order, k, q) then [OutboundError(q, Disconnected)]
    else []
  }

  ghost predicate NoneOf(s: State, order: seq<StreamId>, q: RequestId) {
    forall i :: 0 <= i < |order| ==> !IsOf(s, order[i], q)
  }

  ghost predicate OneEach(s: State) {
    forall a, b :: a in s.outbound && b in s.outbound && s.outbound[a].request == s.outbound[b].request ==> a == b
  }

  function Event(event: Option<HandlerEvent>): (r: seq<HandlerEvent>) {
    if event.Some? then [event.value] else []
  }

  lemma AboutOne(e: HandlerEvent, q: RequestId)
    ensures About([e], q) == if Subject(e) == Some(q) then [e] else []
  {
    CollectOne(e, IfAbout(q));
  }

  /** Reading one stream. */
  lemma OneSays(s: State, id: StreamId, io: OutIo, q: RequestId)
    requires id in s.outbound && s.outbound[id].state.Some?
    requires !s.connection.Closed? ==> s.outbound[id].state == Some(PendingResponse)
    ensures var (r, event) := ReadOne(s, id, io);
            r.connection == s.connection && event.Some? == Stops(s, id, io)
            && (forall x :: x in s.outbound && x != id ==> x in r.outbound && r.outbound[x] == s.outbound[x])
            && (forall x :: x in r.outbound ==> x in s.outbound && r.outbound[x].request == s.outbound[x].request)
            && About(Event(event), q) == (if Stops(s, id, io) && IsOf(s, id, q) then [Report(s.connection.Closed?, q, io)] else [])
            && About(r.events, q) == About(s.events, q)
                 + (if s.connection.Closed? && IsOf(s, id, q) && s.outbound[id].state == Some(PendingResponse)
                    then [OutboundError(q, Disconnected)] else [])
  {
    var (r, event) := ReadOne(s, id, io);
    if event.Some? { AboutOne(event.value, q); }
    assert About(s.events, q) + [] == About(s.events, q);
    AboutSnoc(s.events, OutboundError(s.outbound[id].request, Disconnected), q);
    forall x | x in s.outbound && x != id ensures x in r.outbound && r.outbound[x] == s.outbound[x] {
      assert x in s.outbound - {id};
      assert x in r.outbound - {id} && (r.outbound - {id})[x] == (s.outbound - {id})[x];
    }
  }

  ghost predicate Readable(s: State, order: seq<StreamId>) {
    CanRead(s, order) && OneEach(s)
    && (!s.connection.Closed? ==> forall id :: id in s.outbound ==> s.outbound[id].state == Some(PendingResponse))
  }

  lemma StaysReadable(s: State, order: seq<StreamId>, io: OutIo)
    requires Readable(s, order) && order != [] && ReadOne(s, order[0], io).1.None?
    ensures Readable(ReadOne(s, order[0], io).0, order[1..])
  {
    ReadOneLeavesOthers(s, order, io);
    OneSays(s, order[0], io, 0);
  }

  /** The walk looks only at the streams in its order. */
  lemma {:induction false} SameWalk(s: State, r: State, order: seq<StreamId>, io: StreamId -> OutIo, q: RequestId)
    requires r.connection == s.connection
    requires forall i :: 0 <= i < |order| ==> order[i] in s.outbound && order[i] in r.outbound && r.outbound[order[i]] == s.outbound[order[i]]
    ensures Passed(r, order, io) == Passed(s, order, io) && WalkSays(r, order, io, q) == WalkSays(s, order, io, q)
    decreases |order|
  {
    if order != [] {
      assert forall i :: 0 <= i < |order[1..]| ==> order[1..][i] == order[i + 1];
      SameWalk(s, r, order[1..], io, q);
    }
    var k := Passed(s, order, io);
    assert PassedOpen(r, order, k, q) == PassedOpen(s, order, k, q);
  }

  /** Past a stream that is not the one of `q`. */
  lemma WalkOn(s: State, order: seq<StreamId>, io: StreamId -> OutIo, q: RequestId)
    requires order != [] && !Stops(s, order[0], io(order[0])) && !IsOf(s, order[0], q)
    ensures WalkSays(s, order, io, q) == WalkSays(s, order[1..], io, q)
  {
    var rest := order[1..];
    var k := Passed(s, rest, io);
    assert Passed(s, order, io) == 1 + k;
    assert forall i :: 0 <= i < |rest| ==> rest[i] == order[i + 1];
    if PassedOpen(s, rest, k, q) {
      var i :| 0 <= i < k && IsOf(s, rest[i], q) && s.outbound[rest[i]].state == Some(PendingResponse);
      assert IsOf(s, order[i + 1], q);
    }
  }

  /** A walk over streams of other requests says nothing. */
  lemma {:induction false} OthersSayNothing(s: State, order: seq<StreamId>, io: StreamId -> OutIo, q: RequestId)
    requires Readable(s, order) && NoneOf(s, order, q)
    ensures var (r, event) := ReadAll(s, order, io);
            About(Event(event), q) == [] && About(r.events, q) == About(s.events, q)
    decreases |order|
  {
    hide ReadOne, About, Stops;
    if order != [] {
      var (r, event) := ReadOne(s, order[0], io(order[0]));
      ReadOneLeavesOthers(s, order, io(order[0]));
      assert !IsOf(s, order[0], q);
      OneSays(s, order[0], io(order[0]), q);
      if event.None? {
        StaysReadable(s, order, io(order[0]));
        assert NoneOf(r, order[1..], q) by {
          assert forall i :: 0 <= i < |order[1..]| ==> order[1..][i] == order[i + 1];
        }
        OthersSayNothing(r, order[1..], io, q);
      }
    } else {
      EmptyAbout(q);
    }
  }

  lemma EmptyAbout(q: RequestId)
    ensures About([], q) == []
  {}

  /** The stream that is read is the one of `q`. */
  lemma OwnStreamSays(s: State, order: seq<StreamId>, io: StreamId -> OutIo, q: RequestId)
    requires Readable(s, order) && order != [] && IsOf(s, order[0], q) && About(s.events, q) == []
    ensures var (r, event) := ReadAll(s, order, io);
            About(Event(event), q) + About(r.events, q) == WalkSays(s, order, io, q)
  {
    var (r, event) := ReadOne(s, order[0], io(order[0]));
    ReadOneLeavesOthers(s, order, io(order[0]));
    OneSays(s, order[0], io(order[0]), q);
    assert forall i :: 0 < i < |order| ==> order[i] != order[0] && !IsOf(s, order[i], q);
    if event.None? {
      StaysReadable(s, order, io(order[0]));
      assert NoneOf(r, order[1..], q) by {
        assert forall i :: 0 <= i < |order[1..]| ==> order[1..][i] == order[i + 1];
      }
      OthersSayNothing(r, order[1..], io, q);
      assert PassedOpen(s, order, Passed(s, order, io), q) <==> s.outbound[order[0]].state == Some(PendingResponse);
    }
  }

  /** A walk says what it should about every request of which nothing is queued. */
  lemma {:induction false} WalkIsSaid(s: State, order: seq<StreamId>, io: StreamId -> OutIo, q: RequestId)
    requires Readable(s, order) && About(s.events, q) == []
    ensures var (r, event) := ReadAll(s, order, io);
            About(Event(event), q) + About(r.events, q) == WalkSays(s, order, io, q)
    decreases |order|
  {
    hide ReadOne, About, Stops;
    if order == [] {
      EmptyAbout(q);
    } else if IsOf(s, order[0], q) {
      OwnStreamSays(s, order, io, q);
    } else {
      var (r, event) := ReadOne(s, order[0], io(order[0]));
      ReadOneLeavesOthers(s, order, io(order[0]));
      OneSays(s, order[0], io(order[0]), q);
      if event.None? {
        StaysReadable(s, order, io(order[0]));
        WalkIsSaid(r, order[1..], io, q);
        assert forall i :: 0 <= i < |order[1..]| ==> order[1..][i] == order[i + 1];
        SameWalk(s, r, order[1..], io, q);
        WalkOn(s, order, io, q);
      }
    }
  }

  /** What a call says about a request. A poll first delivers what is queued; else it reports
      the first outbound timer that has run out; else it walks the outbound streams. */
  ghost function SaidBy(s: State, c: Call, q: RequestId): (r: seq<HandlerEvent>) {
    match c
    case GiveRequest(x, _) => if x == q && !s.connection.Live? then [OutboundError(q, Disconnected)] else []
    case OutboundRefused(x) => if x == q then [OutboundError(q, Disconnected)] else []
    case PollHandler(w) =>
      if s.events != [] then []
      else if w.outboundExpired != [] then
        if IsOf(s, w.outboundExpired[0], q) then [OutboundError(q, StreamTimedOut)] else []
      else WalkSays(s, w.outboundOrder, w.outboundIo, q)
    case _ => []
  }

  lemma ConcludeSays(s: State, q: RequestId)
    ensures var (r, out) := Conclude(s); About(Outcome(r, out), q) == About(s.events, q)
  {
    var (r, out) := Conclude(s);
    assert [] + s.events == s.events;
    if out.Notify? {
      CollectConcat([CloseConnection], s.events, IfAbout(q));
      AboutOne(CloseConnection, q);
    }
  }

  lemma OutcomeAbout(r: State, event: Option<HandlerEvent>, q: RequestId)
    requires event.Some?
    ensures About(Outcome(r, Notify(event.value)), q) == About(Event(event), q) + About(r.events, q)
  {
    CollectConcat(Event(event), r.events, IfAbout(q));
  }

  /** The first outbound timer to run out is reported. */
  lemma ExpirySays(s: State, expired: seq<StreamId>, q: RequestId)
    requires s.outboundTimers == s.outbound.Keys && Elements(expired) <= s.outboundTimers
    ensures var (r, event) := ExpireOutbound(s, expired);
            r.events == s.events && event.Some? == (expired != []) && (expired == [] ==> r == s)
            && About(Event(event), q) == if expired != [] && IsOf(s, expired[0], q) then [OutboundError(q, StreamTimedOut)] else []
  {
    if expired != [] {
      assert expired[0] in Elements(expired);
      AboutOne(OutboundError(s.outbound[expired[0]].request, StreamTimedOut), q);
    }
  }

  lemma RunIsReadable(run: Run, s: State, order: seq<StreamId>)
    requires Inv(run) && Aside(run.s, s) && CanRead(s, order)
    ensures Readable(s, order)
  {}

  /** The same streams: only what goes on beside them has changed. */
  lemma AsideSays(a: State, b: State, w: Weather, q: RequestId)
    requires Aside(a, b) && Elements(w.outboundOrder) == a.outbound.Keys
    ensures WalkSays(b, w.outboundOrder, w.outboundIo, q) == WalkSays(a, w.outboundOrder, w.outboundIo, q)
    ensures forall id :: IsOf(a, id, q) == IsOf(b, id, q)
  {
    hide WalkSays;
    assert forall i :: 0 <= i < |w.outboundOrder| ==> w.outboundOrder[i] in Elements(w.outboundOrder);
    SameWalk(a, b, w.outboundOrder, w.outboundIo, q);
  }

  lemma AsideTwice(a: State, b: State, c: State)
    requires Aside(a, b) && Aside(b, c)
    ensures Aside(a, c)
  {}

  lemma PollSays(dl: DecompressLen, run: Run, w: Weather, q: RequestId)
    requires Inv(run) && Possible(run.s, w) && run.s.events == []
    ensures About(Fresh(dl, run, PollHandler(w)), q) == SaidBy(run.s, PollHandler(w), q)
  {
    hide Told, Placed, ReadAll, PumpAll, ExpireOutbound, ExpireInbound, WalkSays, About, Conclude;
    var s := run.s;
    EmptyAbout(q);
    StagesFit(dl, s, w);
    var s1 := ExpireInbound(s, w.inboundExpired);
    ExpireInboundAside(s, w.inboundExpired);
    var (s2, late) := ExpireOutbound(s1, w.outboundExpired);
    ExpirySays(s1, w.outboundExpired, q);
    assert About(s1.events, q) == [];
    AsideSays(s, s1, w, q);
    if late.Some? {
      OutcomeAbout(s2, late, q);
    } else {
      var s3 := PumpAll(dl, s2, w.inboundOrder, w.inboundIo);
      PumpAllAside(dl, s2, w.inboundOrder, w.inboundIo);
      AsideTwice(s, s1, s3);
      AsideSays(s, s3, w, q);
      RunIsReadable(run, s3, w.outboundOrder);
      WalkIsSaid(s3, w.outboundOrder, w.outboundIo, q);
      var (s4, event) := ReadAll(s3, w.outboundOrder, w.outboundIo);
      if event.Some? { OutcomeAbout(s4, event, q); } else { ConcludeSays(s4, q); }
    }
  }

  lemma StepSays(dl: DecompressLen, run: Run, c: Call, q: RequestId)
    requires Inv(run) && Enabled(run, c)
    ensures About(Fresh(dl, run, c), q) == SaidBy(run.s, c, q)
  {
    hide Polled, Told, Placed, WalkSays;
    match c
    case GiveRequest(x, _) => AboutOne(OutboundError(x, Disconnected), q);
    case OutboundRefused(x) => AboutOne(OutboundError(x, Disconnected), q);
    case InboundReady(m) => AboutOne(RequestReceived(run.s.inboundId, m), q);
    case PollHandler(w) => if run.s.events == [] { PollSays(dl, run, w, q); }
    case _ =>
  }

  /** What the calls of a run say about a request, one after the other. */
  ghost function SaidIn(dl: DecompressLen, run: Run, calls: seq<Call>, q: RequestId): (r: seq<HandlerEvent>)
    requires AllEnabled(dl, run, calls)
    decreases |calls|
  {
    if calls == [] then [] else SaidBy(run.s, calls[0], q) + SaidIn(dl, Step(dl, run, calls[0]), calls[1..], q)
  }

  lemma StoryInLog(run: Run, q: RequestId)
    ensures Story(run.s, run.delivered, q) == About(Log(run), q)
  {
    CollectConcat(run.delivered, run.s.events, IfAbout(q));
  }

  lemma {:induction false} StoryGrows(dl: DecompressLen, run: Run, calls: seq<Call>, q: RequestId)
    requires Inv(run) && AllEnabled(dl, run, calls)
    ensures About(Log(Steps(dl, run, calls)), q) == About(Log(run), q) + SaidIn(dl, run, calls, q)
    decreases |calls|
  {
    hide Step, Inv, SaidBy, Fresh, Log, Enabled;
    if calls == [] {
      assert About(Log(run), q) + [] == About(Log(run), q);
    } else {
      var next := Step(dl, run, calls[0]);
      StepKeeps(dl, run, calls[0]);
      LogCollects(dl, run, calls[0], IfAbout(q));
      StepSays(dl, run, calls[0], q);
      StoryGrows(dl, next, calls[1..], q);
      Associate(About(Log(run), q), SaidBy(run.s, calls[0], q), SaidIn(dl, next, calls[1..], q));
    }
  }

  /** In every run the story of a request is what its calls say, in order, and nothing else. */
  lemma StoryIsWhatIsSaid(dl: DecompressLen, calls: seq<Call>, q: RequestId)
    requires AllEnabled(dl, Start(), calls)
    ensures var run := Steps(dl, Start(), calls); Story(run.s, run.delivered, q) == SaidIn(dl, Start(), calls, q)
  {
    StartInv();
    StoryGrows(dl, Start(), calls, q);
    StoryInLog(Steps(dl, Start(), calls), q);
    EmptyAbout(q);
    assert Log(Start()) == [];
  }

  // ---------------------------------------------------------------- its responses

  function IfResponse(): (give: HandlerEvent -> seq<Bytes>) {
    (e: HandlerEvent) => if e.ResponseReceived? then [e.message] else []
  }

  function Responses(story: seq<HandlerEvent>): (r: seq<Bytes>) {
    Collect(story, IfResponse())
  }

  /** The message a call takes from the stream of `q`: a poll of an open connection with
      nothing queued and no timer run out takes the answer of the first stream that has one. */
  ghost function TakenBy(s: State, c: Call, q: RequestId): (r: seq<Bytes>) {
    if c.PollHandler? && s.events == [] && c.weather.outboundExpired == [] && !s.connection.Closed? then
      var w := c.weather;
      var k := Passed(s, w.outboundOrder, w.outboundIo);
      if k < |w.outboundOrder| && IsOf(s, w.outboundOrder[k], q) && w.outboundIo(w.outboundOrder[k]).Received? then
        [w.outboundIo(w.outboundOrder[k]).message]
      else []
    else []
  }

  ghost function TakenIn(dl: DecompressLen, run: Run, calls: seq<Call>, q: RequestId): (r: seq<Bytes>)
    requires AllEnabled(dl, run, calls)
    decreases |calls|
  {
    if calls == [] then [] else TakenBy(run.s, calls[0], q) + TakenIn(dl, Step(dl, run, calls[0]), calls[1..], q)
  }

  lemma SaidIsTaken(s: State, c: Call, q: RequestId)
    ensures Responses(SaidBy(s, c, q)) == TakenBy(s, c, q)
  {
    var said := SaidBy(s, c, q);
    if said != [] {
      assert said == [said[0]];
      CollectOne(said[0], IfResponse());
    }
  }

  lemma {:induction false} AllSaidIsTaken(dl: DecompressLen, run: Run, calls: seq<Call>, q: RequestId)
    requires AllEnabled(dl, run, calls)
    ensures Responses(SaidIn(dl, run, calls, q)) == TakenIn(dl, run, calls, q)
    decreases |calls|
  {
    hide Step, SaidBy, TakenBy, Enabled;
    if calls != [] {
      var next := Step(dl, run, calls[0]);
      SaidIsTaken(run.s, calls[0], q);
      AllSaidIsTaken(dl, next, calls[1..], q);
      CollectConcat(SaidBy(run.s, calls[0], q), SaidIn(dl, next, calls[1..], q), IfResponse());
    }
  }

  /** In every run the responses reported for a request are the messages taken from its
      stream, each once, in the order they were taken. */
  lemma ResponsesAreTheAnswers(dl: DecompressLen, calls: seq<Call>, q: RequestId)
    requires AllEnabled(dl, Start(), calls)
    ensures var run := Steps(dl, Start(), calls);
            Responses(Story(run.s, run.delivered, q)) == TakenIn(dl, Start(), calls, q)
  {
    StoryIsWhatIsSaid(dl, calls, q);
    AllSaidIsTaken(dl, Start(), calls, q);
  }

  // ---------------------------------------------------------------- opening streams

  /** A walk reports something exactly when it stops. */
  lemma {:induction false} WalkStops(s: State, order: seq<StreamId>, io: StreamId -> OutIo)
    requires Readable(s, order)
    ensures var (r, event) := ReadAll(s, order, io);
            r.pending == s.pending && event.Some? == (Passed(s, order, io) < |order|)
    decreases |order|
  {
    hide Stops, About, WalkSays;
    if order != [] {
      var (r, event) := ReadOne(s, order[0], io(order[0]));
      assert r.pending == s.pending;
      ReadOneLeavesOthers(s, order, io(order[0]));
      OneSays(s, order[0], io(order[0]), 0);
      hide ReadOne;
      if event.None? {
        StaysReadable(s, order, io(order[0]));
        WalkStops(r, order[1..], io);
        assert forall i :: 0 <= i < |order[1..]| ==> order[1..][i] == order[i + 1];
        SameWalk(s, r, order[1..], io, 0);
      }
    }
  }

  /** A poll asks for a stream exactly when nothing is queued, no outbound timer has run out,
      no outbound stream has anything to report and a request waits: for the latest one. */
  lemma OpensIff(dl: DecompressLen, run: Run, w: Weather, info: OpenInfo)
    requires Inv(run) && Possible(run.s, w)
    ensures var s := run.s;
            Polled(dl, s, w).1 == OpenSubstream(info)
            <==> s.events == [] && w.outboundExpired == [] && Passed(s, w.outboundOrder, w.outboundIo) == |w.outboundOrder|
                 && s.pending != [] && s.pending[|s.pending| - 1] == info
    ensures var (r, out) := Polled(dl, run.s, w);
            run.s.pending == r.pending + (if out.OpenSubstream? then [out.info] else [])
  {
    hide Told, Placed, ReadAll, PumpAll, ExpireOutbound, ExpireInbound, About, Passed;
    var s := run.s;
    if s.events == [] {
      StagesFit(dl, s, w);
      var s1 := ExpireInbound(s, w.inboundExpired);
      ExpireInboundAside(s, w.inboundExpired);
      var (s2, late) := ExpireOutbound(s1, w.outboundExpired);
      ExpirySays(s1, w.outboundExpired, 0);
      OutboundExpiryLeavesStreams(s1, w.outboundExpired);
      if late.None? {
        var s3 := PumpAll(dl, s2, w.inboundOrder, w.inboundIo);
        PumpAllAside(dl, s2, w.inboundOrder, w.inboundIo);
        AsideTwice(s, s1, s3);
        RunIsReadable(run, s3, w.outboundOrder);
        assert forall i :: 0 <= i < |w.outboundOrder| ==> w.outboundOrder[i] in Elements(w.outboundOrder);
        SameWalk(s, s3, w.outboundOrder, w.outboundIo, 0);
        WalkStops(s3, w.outboundOrder, w.outboundIo);
      }
    }
  }

  /** What waits was given, as it waits. */
  ghost predicate WaitsAsGiven(s: State, calls: seq<Call>) {
    forall i :: 0 <= i < |s.pending| ==> GiveRequest(s.pending[i].request, s.pending[i].message) in calls
  }

  lemma StepWaits(dl: DecompressLen, run: Run, before: seq<Call>, c: Call)
    requires Inv(run) && Enabled(run, c) && WaitsAsGiven(run.s, before)
    ensures WaitsAsGiven(Step(dl, run, c).s, before + [c])
  {
    hide Polled, Told, Placed;
    if c.PollHandler? {
      OpensIff(dl, run, c.weather, OpenInfo(0, []));
      var r := Polled(dl, run.s, c.weather).0;
      forall i | 0 <= i < |r.pending| ensures GiveRequest(r.pending[i].request, r.pending[i].message) in before + [c] {
        assert r.pending[i] == run.s.pending[i];
      }
    }
  }

  lemma {:induction false} RunWaits(dl: DecompressLen, run: Run, before: seq<Call>, calls: seq<Call>)
    requires Inv(run) && AllEnabled(dl, run, calls) && WaitsAsGiven(run.s, before)
    ensures WaitsAsGiven(Steps(dl, run, calls).s, before + calls)
    decreases |calls|
  {
    hide Step, Inv, WaitsAsGiven, Enabled;
    if calls == [] {
      assert before + [] == before;
    } else {
      StepKeeps(dl, run, calls[0]);
      StepWaits(dl, run, before, calls[0]);
      RunWaits(dl, Step(dl, run, calls[0]), before + [calls[0]], calls[1..]);
      assert before + [calls[0]] + calls[1..] == before + calls;
    }
  }

  /** In every run a stream is asked for with the request and the message that were given. */
  lemma OpenedAsGiven(dl: DecompressLen, calls: seq<Call>, w: Weather)
    requires AllEnabled(dl, Start(), calls) && Enabled(Steps(dl, Start(), calls), PollHandler(w))
    requires Polled(dl, Steps(dl, Start(), calls).s, w).1.OpenSubstream?
    ensures var info := Polled(dl, Steps(dl, Start(), calls).s, w).1.info;
            GiveRequest(info.request, info.message) in calls
  {
    hide Polled, Passed;
    StartInv();
    RunsKeep(dl, Start(), calls);
    RunWaits(dl, Start(), [], calls);
    assert [] + calls == calls;
    var run := Steps(dl, Start(), calls);
    OpensIff(dl, run, w, Polled(dl, run.s, w).1.info);
  }

  // ---------------------------------------------------------------- closing the connection

  function IfClosing(): (give: HandlerEvent -> seq<HandlerEvent>) {
    (e: HandlerEvent) => if e.CloseConnection? then [e] else []
  }

  predicate NoClosing(log: seq<HandlerEvent>) {
    CloseConnection !in log
  }

  lemma {:induction false} ExpiryNoClosing(s: State, expired: seq<StreamId>)
    requires NoClosing(s.events)
    ensures NoClosing(ExpireInbound(s, expired).events)
    decreases |expired|
  {
    if expired != [] {
      var id := expired[0];
      ExpiryNoClosing(s.(inboundTimers := s.inboundTimers - {id},
                         events := s.events + (if id in s.inbound then [InboundError(id, StreamTimedOut)] else [])), expired[1..]);
    }
  }

  lemma {:induction false} PumpNoClosing(dl: DecompressLen, s: State, order: seq<StreamId>, io: StreamId -> seq<Io>)
    requires CanPump(s, order) && NoClosing(s.events)
    ensures NoClosing(PumpAll(dl, s, order, io).events)
    decreases |order|
  {
    hide Pump;
    if order != [] {
      PumpOneLeavesOthers(dl, s, order, io(order[0]));
      PumpNoClosing(dl, PumpOne(dl, s, order[0], io(order[0])), order[1..], io);
    }
  }

  lemma {:induction false} ReadNoClosing(s: State, order: seq<StreamId>, io: StreamId -> OutIo)
    requires CanRead(s, order) && NoClosing(s.events)
    ensures var (r, event) := ReadAll(s, order, io);
            NoClosing(r.events) && (event.Some? ==> !event.value.CloseConnection?)
    decreases |order|
  {
    if order != [] {
      ReadOneLeavesOthers(s, order, io(order[0]));
      ReadNoClosing(ReadOne(s, order[0], io(order[0])).0, order[1..], io);
    }
  }

  lemma {:induction false} LateIsError(s: State, expired: seq<StreamId>)
    ensures ExpireOutbound(s, expired).1.Some? ==> ExpireOutbound(s, expired).1.value.OutboundError?
    decreases |expired|
  {
    if expired != [] && expired[0] !in s.outbound {
      LateIsError(s.(outboundTimers := s.outboundTimers - {expired[0]}), expired[1..]);
    }
  }

  predicate NothingLeft(s: State) {
    s.inbound == map[] && s.outbound == map[] && s.pending == [] && s.events == []
  }

  /** A poll closes a connection that shuts down when nothing is left, and only then. */
  lemma ClosesIff(dl: DecompressLen, s: State, w: Weather)
    requires Present(s) && Possible(s, w) && s.events == []
    ensures var (r, out) := Polled(dl, s, w);
            NoClosing(r.events)
            && (out == Notify(CloseConnection) ==> s.connection.ShuttingDown? && r.connection.Closed? && NothingLeft(r))
            && (out != Notify(CloseConnection) ==> r.connection == s.connection)
            && (out.NothingYet? && s.connection.ShuttingDown? ==> !NothingLeft(r))
  {
    hide ExpireInbound, ExpireOutbound, PumpAll, ReadAll, ReadOne;
    StagesFit(dl, s, w);
    var s1 := ExpireInbound(s, w.inboundExpired);
    ExpiryNoClosing(s, w.inboundExpired);
    ExpiryLeavesStreams(s, w.inboundExpired);
    LateIsError(s1, w.outboundExpired);
    OutboundExpiryLeavesStreams(s1, w.outboundExpired);
    var (s2, late) := ExpireOutbound(s1, w.outboundExpired);
    if late.None? {
      PumpNoClosing(dl, s2, w.inboundOrder, w.inboundIo);
      PumpingLeavesOutbound(dl, s2, w.inboundOrder, w.inboundIo);
      var s3 := PumpAll(dl, s2, w.inboundOrder, w.inboundIo);
      ReadNoClosing(s3, w.outboundOrder, w.outboundIo);
      ReadingLeavesInbound(s3, w.outboundOrder, w.outboundIo);
    }
  }

  ghost predicate ClosingTold(run: Run) {
    Collect(Log(run), IfClosing()) == if run.s.connection.Closed? then [CloseConnection] else []
  }

  lemma NoneClosing(log: seq<HandlerEvent>)
    requires NoClosing(log)
    ensures Collect(log, IfClosing()) == []
  {
    CollectNothing(log, IfClosing());
  }

  lemma PollTellsClosing(dl: DecompressLen, run: Run, w: Weather)
    requires Enabled(run, PollHandler(w)) && run.s.events == []
    ensures var next := Step(dl, run, PollHandler(w));
            Collect(Fresh(dl, run, PollHandler(w)), IfClosing())
            == if next.s.connection.Closed? && !run.s.connection.Closed? then [CloseConnection] else []
  {
    hide Polled;
    var (r, out) := Polled(dl, run.s, w);
    ClosesIff(dl, run.s, w);
    NoneClosing(r.events);
    if out.Notify? {
      CollectConcat([out.event], r.events, IfClosing());
      CollectOne(out.event, IfClosing());
    } else {
      assert [] + r.events == r.events;
    }
  }

  lemma StepTellsClosing(dl: DecompressLen, run: Run, c: Call)
    requires Enabled(run, c) && ClosingTold(run)
    ensures ClosingTold(Step(dl, run, c))
  {
    hide Polled, Possible, Collect;
    LogCollects(dl, run, c, IfClosing());
    if c.PollHandler? && run.s.events == [] {
      PollTellsClosing(dl, run, c.weather);
      ClosesIff(dl, run.s, c.weather);
    } else {
      NoneClosing(Fresh(dl, run, c));
      OnlyPollsClose(dl, run, c);
    }
  }

  lemma OnlyPollsClose(dl: DecompressLen, run: Run, c: Call)
    requires Enabled(run, c) && (c.PollHandler? ==> run.s.events != [])
    ensures Step(dl, run, c).s.connection.Closed? == run.s.connection.Closed?
  {}

  /** In every run the closing of the connection is told once, when it has closed, and not before. */
  lemma {:induction false} ClosingIsToldOnce(dl: DecompressLen, run: Run, calls: seq<Call>)
    requires ClosingTold(run) && AllEnabled(dl, run, calls)
    ensures ClosingTold(Steps(dl, run, calls))
    decreases |calls|
  {
    hide Step, ClosingTold, Enabled;
    if calls != [] {
      StepTellsClosing(dl, run, calls[0]);
      ClosingIsToldOnce(dl, Step(dl, run, calls[0]), calls[1..]);
    }
  }

  lemma StepLives(dl: DecompressLen, run: Run, c: Call)
    requires Enabled(run, c)
    ensures Step(dl, run, c).s.connection.Live? <==> run.s.connection.Live? && c != BeginShutdown
  {
    if c.PollHandler? && run.s.events == [] {
      hide Polled, Possible;
      ClosesIff(dl, run.s, c.weather);
    }
  }

  /** In every run the connection is live until it is told to shut down. */
  lemma {:induction false} LiveUntilShutdown(dl: DecompressLen, run: Run, calls: seq<Call>)
    requires AllEnabled(dl, run, calls)
    ensures Steps(dl, run, calls).s.connection.Live? <==> run.s.connection.Live? && BeginShutdown !in calls
    decreases |calls|
  {
    hide Step, Enabled;
    if calls != [] {
      StepLives(dl, run, calls[0]);
      LiveUntilShutdown(dl, Step(dl, run, calls[0]), calls[1..]);
    }
  }
}
