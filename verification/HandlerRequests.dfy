/** What every run of the handler keeps for the requests it was given. */
module HandlerRequests {
  import opened Basics
  import opened SnappyScan
  import opened Handler

  /** A run so far: the handler, the events it has delivered, the requests it was given,
      those whose stream is being negotiated, and those whose stream was negotiated when the
      connection was closed already. */
  datatype Run = Run(
    s: State,
    delivered: seq<HandlerEvent>,
    given: set<RequestId>,
    negotiating: set<RequestId>,
    late: set<RequestId>)

  /** A call into the handler, and what it may assume of its caller: request ids are not
      reused, and only a stream that was asked for is negotiated or fails to be. */
  datatype Call =
    | GiveRequest(request: RequestId, message: Bytes)
    | SendResponse(stream: StreamId, payload: Bytes)
    | FinishStream(stream: StreamId)
    | BeginShutdown
    | InboundReady(message: Bytes)
    | OutboundReady(request: RequestId)
    | OutboundRefused(request: RequestId)
    | PollHandler(weather: Weather)

  ghost predicate Enabled(run: Run, c: Call) {
    match c
    case GiveRequest(q, _) => q !in run.given
    case OutboundReady(q) => q in run.negotiating
    case OutboundRefused(q) => q in run.negotiating
    case PollHandler(w) => Present(run.s) && Possible(run.s, w)
    case _ => true
  }

  function AfterPoll(run: Run, s: State, out: Poll): (r: Run) {
    match out
    case NothingYet => run.(s := s)
    case Notify(e) => run.(s := s, delivered := run.delivered + [e])
    case OpenSubstream(info) => run.(s := s, negotiating := run.negotiating + {info.request})
  }

  function Negotiated(run: Run, q: RequestId): (r: Run) {
    run.(s := NegotiatedOutbound(run.s, q), negotiating := run.negotiating - {q},
         late := if run.s.connection.Closed? then run.late + {q} else run.late)
  }

  ghost function Step(dl: DecompressLen, run: Run, c: Call): (r: Run)
    requires Enabled(run, c)
  {
    match c
    case GiveRequest(q, m) => run.(s := Asked(run.s, q, m), given := run.given + {q})
    case SendResponse(id, p) => run.(s := Responded(run.s, id, p))
    case FinishStream(id) => run.(s := StreamClosed(run.s, id))
    case BeginShutdown => run.(s := ShutDown(run.s))
    case InboundReady(m) => run.(s := NegotiatedInbound(run.s, m))
    case OutboundReady(q) => Negotiated(run, q)
    case OutboundRefused(q) => run.(s := DialFailed(run.s, q), negotiating := run.negotiating - {q})
    case PollHandler(w) =>
      var (s, out) := Polled(dl, run.s, w);
      AfterPoll(run, s, out)
  }

  ghost predicate AllEnabled(dl: DecompressLen, run: Run, calls: seq<Call>)
    decreases |calls|
  {
    calls != [] ==> Enabled(run, calls[0]) && AllEnabled(dl, Step(dl, run, calls[0]), calls[1..])
  }

  ghost function Steps(dl: DecompressLen, run: Run, calls: seq<Call>): (r: Run)
    requires AllEnabled(dl, run, calls)
    decreases |calls|
  {
    if calls == [] then run else Steps(dl, Step(dl, run, calls[0]), calls[1..])
  }

  function Start(): (r: Run) {
    Run(State([], 0, 0, map[], {}, map[], {}, [], Live), [], {}, {}, {})
  }

  // ---------------------------------------------------------------- what is said about a request

  function Subject(e: HandlerEvent): (r: Option<RequestId>) {
    if e.ResponseReceived? || e.EndOfStream? || e.OutboundError? then Some(e.request) else None
  }

  predicate Terminal(e: HandlerEvent) {
    e.EndOfStream? || e.OutboundError?
  }

  function IfAbout(q: RequestId): (give: HandlerEvent -> seq<HandlerEvent>) {
    (e: HandlerEvent) => if Subject(e) == Some(q) then [e] else []
  }

  /** The events about one request, in order. */
  function About(log: seq<HandlerEvent>, q: RequestId): (r: seq<HandlerEvent>) {
    Collect(log, IfAbout(q))
  }

  lemma AboutSnoc(log: seq<HandlerEvent>, e: HandlerEvent, q: RequestId)
    ensures About(log + [e], q) == About(log, q) + (if Subject(e) == Some(q) then [e] else [])
  {
    CollectSnoc(log, e, IfAbout(q));
  }

  /** Delivering the first queued event moves it and changes no story. */
  lemma AboutMoved(delivered: seq<HandlerEvent>, events: seq<HandlerEvent>, q: RequestId)
    requires events != []
    ensures About(delivered + [events[0]], q) + About(events[1..], q) == About(delivered, q) + About(events, q)
  {
    AboutSnoc(delivered, events[0], q);
    Associate(About(delivered, q), IfAbout(q)(events[0]), About(events[1..], q));
  }

  /** Everything said or queued about a request. */
  function Story(s: State, delivered: seq<HandlerEvent>, q: RequestId): (r: seq<HandlerEvent>) {
    About(delivered, q) + About(s.events, q)
  }

  predicate OnlyResponses(story: seq<HandlerEvent>) {
    forall i :: 0 <= i < |story| ==> story[i].ResponseReceived?
  }

  /** Responses, then one terminal event. */
  predicate EndsOnce(story: seq<HandlerEvent>) {
    story != [] && Terminal(story[|story| - 1]) && OnlyResponses(story[..|story| - 1])
  }

  /** Just "disconnected", and then the end of the closing stream or its timeout. */
  predicate EndsTwice(story: seq<HandlerEvent>, q: RequestId) {
    story == [OutboundError(q, Disconnected), EndOfStream(q)]
    || story == [OutboundError(q, Disconnected), OutboundError(q, StreamTimedOut)]
  }

  // ---------------------------------------------------------------- where a request is

  ghost predicate Waiting(s: State, q: RequestId) {
    exists i :: 0 <= i < |s.pending| && s.pending[i].request == q
  }

  ghost predicate OpenAs(s: State, q: RequestId, state: OutboundState) {
    exists id :: id in s.outbound && s.outbound[id].request == q && s.outbound[id].state == Some(state)
  }

  ghost predicate HasStream(s: State, q: RequestId) {
    exists id :: id in s.outbound && s.outbound[id].request == q
  }

  /** The request is at one place at most, and every place holds a request once. */
  ghost predicate Placed(s: State, given: set<RequestId>, negotiating: set<RequestId>) {
    (forall i, j :: 0 <= i < j < |s.pending| ==> s.pending[i].request != s.pending[j].request)
    && (forall a, b :: a in s.outbound && b in s.outbound && s.outbound[a].request == s.outbound[b].request ==> a == b)
    && (forall i :: 0 <= i < |s.pending| ==> s.pending[i].request in given && s.pending[i].request !in negotiating && !HasStream(s, s.pending[i].request))
    && (forall id :: id in s.outbound ==> s.outbound[id].request in given && s.outbound[id].request !in negotiating)
    && negotiating <= given
  }

  /** Streams and timers fit: the outbound timers are exactly the outbound streams, the
      inbound timers are among the inbound streams, ids are not reused, and streams close
      only on a closed connection, on which nothing waits. */
  ghost predicate Fit(s: State) {
    Present(s)
    && s.outboundTimers == s.outbound.Keys
    && s.inboundTimers <= s.inbound.Keys
    && (forall id :: id in s.outbound ==> id < s.outboundId)
    && (forall id :: id in s.inbound ==> id < s.inboundId)
    && (!s.connection.Closed? ==> forall id :: id in s.outbound ==> s.outbound[id].state == Some(PendingResponse))
    && (s.connection.Closed? ==> s.pending == [])
  }

  /** What has been said about a request follows from where it is. */
  ghost predicate Told(s: State, delivered: seq<HandlerEvent>, given: set<RequestId>, negotiating: set<RequestId>, late: set<RequestId>, q: RequestId) {
    var story := Story(s, delivered, q);
    if q !in given || Waiting(s, q) || q in negotiating then story == [] && q !in late
    else if OpenAs(s, q, PendingResponse) then OnlyResponses(story) && (q in late ==> story == [])
    else if OpenAs(s, q, Closing) then story == [OutboundError(q, Disconnected)] && q in late
    else if q in late then story == [OutboundError(q, StreamTimedOut)] || EndsTwice(story, q)
    else EndsOnce(story)
  }

  /** Requests are late exactly on a closed connection, and there all that have a stream are:
      a connection closes when it has no streams left. */
  ghost predicate LateFit(s: State, late: set<RequestId>) {
    if s.connection.Closed? then forall id :: id in s.outbound ==> s.outbound[id].request in late else late == {}
  }

  ghost predicate Kept(s: State, delivered: seq<HandlerEvent>, given: set<RequestId>, negotiating: set<RequestId>, late: set<RequestId>) {
    Fit(s) && Placed(s, given, negotiating) && LateFit(s, late)
    && forall q :: Told(s, delivered, given, negotiating, late, q)
  }

  ghost predicate Inv(run: Run) {
    Kept(run.s, run.delivered, run.given, run.negotiating, run.late)
  }

  lemma StartInv()
    ensures Inv(Start())
  {}

  // ---------------------------------------------------------------- steps

  /** A step that touches no outbound stream, no waiting request and says nothing about any request. */
  ghost predicate Aside(s: State, r: State) {
    r.outbound == s.outbound && r.outboundTimers == s.outboundTimers && r.outboundId == s.outboundId
    && r.pending == s.pending && r.connection == s.connection
    && forall q :: About(r.events, q) == About(s.events, q)
  }

  lemma AsideKeeps(s: State, r: State, delivered: seq<HandlerEvent>, given: set<RequestId>, negotiating: set<RequestId>, late: set<RequestId>)
    requires Kept(s, delivered, given, negotiating, late) && Aside(s, r)
    requires r.inboundTimers <= r.inbound.Keys
    requires forall id :: id in r.inbound ==> id < r.inboundId && r.inbound[id].state.Some?
    ensures Kept(r, delivered, given, negotiating, late)
  {
    forall q ensures Told(r, delivered, given, negotiating, late, q) {
      assert Told(s, delivered, given, negotiating, late, q);
      assert Waiting(r, q) == Waiting(s, q);
      assert OpenAs(r, q, PendingResponse) == OpenAs(s, q, PendingResponse);
      assert OpenAs(r, q, Closing) == OpenAs(s, q, Closing);
    }
    assert forall q :: HasStream(r, q) == HasStream(s, q);
  }

  /** Nothing that concerns the request has changed. */
  ghost predicate Same(a: Run, b: Run, q: RequestId) {
    (q in a.given <==> q in b.given) && (q in a.negotiating <==> q in b.negotiating) && (q in a.late <==> q in b.late)
    && (Waiting(a.s, q) <==> Waiting(b.s, q))
    && (OpenAs(a.s, q, PendingResponse) <==> OpenAs(b.s, q, PendingResponse))
    && (OpenAs(a.s, q, Closing) <==> OpenAs(b.s, q, Closing))
    && Story(a.s, a.delivered, q) == Story(b.s, b.delivered, q)
  }

  lemma SameTold(a: Run, b: Run, q: RequestId)
    requires Same(a, b, q) && Told(a.s, a.delivered, a.given, a.negotiating, a.late, q)
    ensures Told(b.s, b.delivered, b.given, b.negotiating, b.late, q)
  {}

  /** Only `q` is concerned, and what is said about it fits. */
  lemma OneConcerned(a: Run, b: Run, q: RequestId)
    requires Inv(a) && Fit(b.s) && Placed(b.s, b.given, b.negotiating) && LateFit(b.s, b.late)
    requires forall x :: x != q ==> Same(a, b, x)
    requires Told(b.s, b.delivered, b.given, b.negotiating, b.late, q)
    ensures Inv(b)
  {
    forall x ensures Told(b.s, b.delivered, b.given, b.negotiating, b.late, x) {
      if x != q { SameTold(a, b, x); }
    }
  }

  lemma PendingSnoc(s: State, r: State, q: RequestId, m: Bytes)
    requires r.pending == s.pending + [OpenInfo(q, m)]
    ensures forall x :: Waiting(r, x) <==> Waiting(s, x) || x == q
  {
    assert r.pending[|s.pending|].request == q;
    forall x | Waiting(s, x) ensures Waiting(r, x) {
      var i :| 0 <= i < |s.pending| && s.pending[i].request == x;
      assert r.pending[i].request == x;
    }
  }

  lemma SameStreams(s: State, r: State)
    requires r.outbound == s.outbound
    ensures forall x :: (HasStream(r, x) <==> HasStream(s, x))
              && (OpenAs(r, x, PendingResponse) <==> OpenAs(s, x, PendingResponse))
              && (OpenAs(r, x, Closing) <==> OpenAs(s, x, Closing))
  {}

  /** Only the stream `id` is new or changed, and its request has no other. */
  lemma StreamChanged(s: State, r: State, id: StreamId)
    requires id in r.outbound && (id in s.outbound ==> s.outbound[id].request == r.outbound[id].request)
    requires r.outbound.Keys == s.outbound.Keys + {id} && forall b :: b in s.outbound && b != id ==> r.outbound[b] == s.outbound[b]
    ensures var q := r.outbound[id].request;
            HasStream(r, q) && (r.outbound[id].state.Some? ==> OpenAs(r, q, r.outbound[id].state.value))
            && forall x :: x != q ==>
                 (HasStream(r, x) <==> HasStream(s, x))
                 && (OpenAs(r, x, PendingResponse) <==> OpenAs(s, x, PendingResponse))
                 && (OpenAs(r, x, Closing) <==> OpenAs(s, x, Closing))
  {
    var q := r.outbound[id].request;
    forall x | x != q
      ensures (HasStream(r, x) <==> HasStream(s, x))
              && (OpenAs(r, x, PendingResponse) <==> OpenAs(s, x, PendingResponse))
              && (OpenAs(r, x, Closing) <==> OpenAs(s, x, Closing))
    {
      assert forall b :: b in s.outbound && s.outbound[b].request == x ==> b in r.outbound && r.outbound[b] == s.outbound[b];
      assert forall b :: b in r.outbound && r.outbound[b].request == x ==> b in s.outbound && r.outbound[b] == s.outbound[b];
    }
  }

  lemma SamePending(s: State, r: State)
    requires r.pending == s.pending
    ensures forall x :: Waiting(r, x) <==> Waiting(s, x)
  {}

  lemma SaidSnoc(s: State, r: State, delivered: seq<HandlerEvent>, e: HandlerEvent)
    requires r.events == s.events + [e]
    ensures forall x: RequestId :: Story(r, delivered, x) == Story(s, delivered, x) + (if Subject(e) == Some(x) then [e] else [])
  {
    forall x: RequestId ensures Story(r, delivered, x) == Story(s, delivered, x) + (if Subject(e) == Some(x) then [e] else []) {
      AboutSnoc(s.events, e, x);
    }
  }

  lemma GiveRequestKeeps(run: Run, q: RequestId, m: Bytes)
    requires Inv(run) && q !in run.given
    ensures Inv(run.(s := Asked(run.s, q, m), given := run.given + {q}))
  {
    hide About;
    var next := run.(s := Asked(run.s, q, m), given := run.given + {q});
    assert Told(run.s, run.delivered, run.given, run.negotiating, run.late, q);
    SameStreams(run.s, next.s);
    if run.s.connection.Live? {
      PendingSnoc(run.s, next.s, q, m);
    } else {
      SamePending(run.s, next.s);
      SaidSnoc(run.s, next.s, run.delivered, OutboundError(q, Disconnected));
    }
    OneConcerned(run, next, q);
  }

  lemma OutboundRefusedKeeps(run: Run, q: RequestId)
    requires Inv(run) && q in run.negotiating
    ensures Inv(run.(s := DialFailed(run.s, q), negotiating := run.negotiating - {q}))
  {
    hide About;
    var next := run.(s := DialFailed(run.s, q), negotiating := run.negotiating - {q});
    assert Told(run.s, run.delivered, run.given, run.negotiating, run.late, q);
    SameStreams(run.s, next.s);
    SamePending(run.s, next.s);
    SaidSnoc(run.s, next.s, run.delivered, OutboundError(q, Disconnected));
    assert Story(next.s, next.delivered, q) == [OutboundError(q, Disconnected)];
    OneConcerned(run, next, q);
  }

  lemma ReadyFits(run: Run, q: RequestId)
    requires Inv(run) && q in run.negotiating
    ensures var next := Negotiated(run, q); Fit(next.s) && Placed(next.s, next.given, next.negotiating) && LateFit(next.s, next.late)
    ensures q in run.given && !Waiting(run.s, q) && !HasStream(run.s, q)
  {
    hide Told, OpenAs;
    StreamChanged(run.s, Negotiated(run, q).s, run.s.outboundId);
  }

  lemma OutboundReadyKeeps(run: Run, q: RequestId)
    requires Inv(run) && q in run.negotiating
    ensures Inv(Negotiated(run, q))
  {
    var next := Negotiated(run, q);
    ReadyFits(run, q);
    assert Told(run.s, run.delivered, run.given, run.negotiating, run.late, q);
    SamePending(run.s, next.s);
    StreamChanged(run.s, next.s, run.s.outboundId);
    hide About, Fit, Placed, LateFit, Waiting, OpenAs, HasStream;
    OneConcerned(run, next, q);
  }

  lemma ShutdownKeeps(run: Run)
    requires Inv(run)
    ensures Inv(run.(s := ShutDown(run.s)))
  {
    var next := run.(s := ShutDown(run.s));
    SameStreams(run.s, next.s);
    SamePending(run.s, next.s);
    forall q ensures Told(next.s, next.delivered, next.given, next.negotiating, next.late, q) {
      assert Told(run.s, run.delivered, run.given, run.negotiating, run.late, q);
      SameTold(run, next, q);
    }
  }

  lemma InboundCallsKeep(run: Run, c: Call)
    requires Inv(run) && (c.SendResponse? || c.FinishStream? || c.InboundReady?)
    ensures forall dl :: Inv(Step(dl, run, c))
  {
    var r := match c
             case SendResponse(id, p) => Responded(run.s, id, p)
             case FinishStream(id) => StreamClosed(run.s, id)
             case InboundReady(m) => NegotiatedInbound(run.s, m);
    if c.InboundReady? {
      forall q ensures About(r.events, q) == About(run.s.events, q) {
        AboutSnoc(run.s.events, RequestReceived(run.s.inboundId, c.message), q);
      }
    }
    AsideKeeps(run.s, r, run.delivered, run.given, run.negotiating, run.late);
    assert forall dl :: Step(dl, run, c) == run.(s := r);
  }

  // ---------------------------------------------------------------- poll

  lemma DeliverKeeps(run: Run)
    requires Inv(run) && run.s.events != []
    ensures Inv(run.(s := run.s.(events := run.s.events[1..]), delivered := run.delivered + [run.s.events[0]]))
  {
    hide About;
    var next := run.(s := run.s.(events := run.s.events[1..]), delivered := run.delivered + [run.s.events[0]]);
    SameStreams(run.s, next.s);
    SamePending(run.s, next.s);
    forall q: RequestId ensures Told(next.s, next.delivered, next.given, next.negotiating, next.late, q) {
      assert Told(run.s, run.delivered, run.given, run.negotiating, run.late, q);
      AboutMoved(run.delivered, run.s.events, q);
      SameTold(run, next, q);
    }
  }

  ghost predicate InboundFit(s: State) {
    s.inboundTimers <= s.inbound.Keys && forall id :: id in s.inbound ==> id < s.inboundId && s.inbound[id].state.Some?
  }

  lemma {:induction false} ExpireInboundAside(s: State, expired: seq<StreamId>)
    requires InboundFit(s)
    ensures var r := ExpireInbound(s, expired); Aside(s, r) && InboundFit(r)
    decreases |expired|
  {
    if expired != [] {
      var id := expired[0];
      var mid := s.(inboundTimers := s.inboundTimers - {id},
                    events := s.events + (if id in s.inbound then [InboundError(id, StreamTimedOut)] else []));
      forall q: RequestId ensures About(mid.events, q) == About(s.events, q) {
        if id in s.inbound { AboutSnoc(s.events, InboundError(id, StreamTimedOut), q); } else { assert s.events + [] == s.events; }
      }
      ExpireInboundAside(mid, expired[1..]);
    }
  }

  lemma PumpOneAside(dl: DecompressLen, s: State, id: StreamId, ios: seq<Io>)
    requires InboundFit(s) && id in s.inbound
    ensures var r := PumpOne(dl, s, id, ios); Aside(s, r) && InboundFit(r)
  {
    hide Pump;
    var r := PumpOne(dl, s, id, ios);
    var p := Pump(dl, s.connection.Closed?, s.inbound[id], ios, false);
    forall q: RequestId ensures About(r.events, q) == About(s.events, q) {
      if p.Gone? && p.failure.Some? { AboutSnoc(s.events, InboundError(id, p.failure.value), q); } else { assert s.events + [] == s.events; }
    }
  }

  lemma {:induction false} PumpAllAside(dl: DecompressLen, s: State, order: seq<StreamId>, io: StreamId -> seq<Io>)
    requires InboundFit(s) && CanPump(s, order)
    ensures var r := PumpAll(dl, s, order, io); Aside(s, r) && InboundFit(r)
    decreases |order|
  {
    hide PumpOne;
    if order != [] {
      PumpOneAside(dl, s, order[0], io(order[0]));
      PumpOneLeavesOthers(dl, s, order, io(order[0]));
      PumpAllAside(dl, PumpOne(dl, s, order[0], io(order[0])), order[1..], io);
    }
  }

  /** Nothing about the request is queued. */
  predicate Unsaid(s: State, q: RequestId) {
    About(s.events, q) == []
  }

  lemma DroppedStreams(s: State, id: StreamId)
    requires id in s.outbound
    requires forall b :: b in s.outbound && s.outbound[b].request == s.outbound[id].request ==> b == id
    ensures var r := Dropped(s, id);
            !HasStream(r, s.outbound[id].request)
            && forall x :: x != s.outbound[id].request ==>
                 (HasStream(r, x) <==> HasStream(s, x))
                 && (OpenAs(r, x, PendingResponse) <==> OpenAs(s, x, PendingResponse))
                 && (OpenAs(r, x, Closing) <==> OpenAs(s, x, Closing))
  {
    var r := Dropped(s, id);
    assert forall b :: b in s.outbound && s.outbound[b].request != s.outbound[id].request ==> b in r.outbound;
  }

  /** An event about `q` is delivered at once while nothing about `q` is queued. */
  lemma DeliveredNow(s: State, delivered: seq<HandlerEvent>, e: HandlerEvent, q: RequestId)
    requires Subject(e) == Some(q) && Unsaid(s, q)
    ensures Story(s, delivered + [e], q) == Story(s, delivered, q) + [e]
    ensures forall x: RequestId :: x != q ==> Story(s, delivered + [e], x) == Story(s, delivered, x)
  {
    forall x: RequestId ensures About(delivered + [e], x) == About(delivered, x) + (if x == q then [e] else []) {
      AboutSnoc(delivered, e, x);
    }
    assert About(delivered, q) + [] + [e] == About(delivered, q) + [e] + [];
  }

  /** A stream that goes with a terminal event ends the story of its request. */
  lemma DropKeeps(run: Run, id: StreamId, e: HandlerEvent)
    requires Inv(run) && id in run.s.outbound
    requires var q := run.s.outbound[id].request;
             Unsaid(run.s, q) && Subject(e) == Some(q)
             && if run.s.outbound[id].state == Some(PendingResponse) then
                  e == OutboundError(q, StreamTimedOut)
                  || (!run.s.connection.Closed? && (e == EndOfStream(q) || e == OutboundError(q, StreamFailed)))
                else e == EndOfStream(q) || e == OutboundError(q, StreamTimedOut)
    ensures Inv(run.(s := Dropped(run.s, id), delivered := run.delivered + [e]))
  {
    hide About;
    var q := run.s.outbound[id].request;
    var next := run.(s := Dropped(run.s, id), delivered := run.delivered + [e]);
    var story := Story(run.s, run.delivered, q);
    assert Told(run.s, run.delivered, run.given, run.negotiating, run.late, q);
    DroppedStreams(run.s, id);
    SamePending(run.s, next.s);
    DeliveredNow(run.s, run.delivered, e, q);
    assert HasStream(run.s, q);
    if run.s.outbound[id].state == Some(PendingResponse) {
      assert OpenAs(run.s, q, PendingResponse);
      assert (story + [e])[..|story|] == story;
    } else {
      assert run.s.outbound[id].state.value.Closing?;
      assert OpenAs(run.s, q, Closing) && !OpenAs(run.s, q, PendingResponse);
      assert [OutboundError(q, Disconnected)] + [e] == [OutboundError(q, Disconnected), e];
    }
    OneConcerned(run, next, q);
  }

  lemma ResponseKeeps(run: Run, id: StreamId, m: Bytes)
    requires Inv(run) && id in run.s.outbound && run.s.outbound[id].state == Some(PendingResponse)
    requires Unsaid(run.s, run.s.outbound[id].request) && !run.s.connection.Closed?
    ensures Inv(run.(s := run.s.(outboundTimers := run.s.outboundTimers + {id}),
                     delivered := run.delivered + [ResponseReceived(run.s.outbound[id].request, m)]))
  {
    hide About;
    var q := run.s.outbound[id].request;
    var e := ResponseReceived(q, m);
    var next := run.(s := run.s.(outboundTimers := run.s.outboundTimers + {id}), delivered := run.delivered + [e]);
    assert run.s.outboundTimers + {id} == run.s.outboundTimers;
    assert Told(run.s, run.delivered, run.given, run.negotiating, run.late, q);
    assert OpenAs(run.s, q, PendingResponse);
    SameStreams(run.s, next.s);
    SamePending(run.s, next.s);
    DeliveredNow(run.s, run.delivered, e, q);
    OneConcerned(run, next, q);
  }

  function StartedClosing(s: State, id: StreamId): (r: State)
    requires id in s.outbound
  {
    var q := s.outbound[id].request;
    s.(outbound := s.outbound[id := OutboundStream(Some(Closing), q)], events := s.events + [OutboundError(q, Disconnected)])
  }

  lemma ClosingFits(run: Run, id: StreamId)
    requires Inv(run) && id in run.s.outbound && run.s.connection.Closed?
    ensures var r := StartedClosing(run.s, id); Fit(r) && Placed(r, run.given, run.negotiating) && LateFit(r, run.late)
    ensures var q := run.s.outbound[id].request; q in run.given && q !in run.negotiating && q in run.late && !Waiting(run.s, q)
  {
    hide Told, OpenAs;
    StreamChanged(run.s, StartedClosing(run.s, id), id);
  }

  /** The stream is its request's only one. */
  lemma ClosingOnly(run: Run, id: StreamId)
    requires Inv(run) && id in run.s.outbound
    ensures !OpenAs(StartedClosing(run.s, id), run.s.outbound[id].request, PendingResponse)
  {
    StreamsAreDistinct(run);
  }

  lemma StartClosingKeeps(run: Run, id: StreamId)
    requires Inv(run) && id in run.s.outbound && run.s.outbound[id].state == Some(PendingResponse)
    requires run.s.connection.Closed?
    ensures Inv(run.(s := StartedClosing(run.s, id)))
  {
    var q := run.s.outbound[id].request;
    var r := StartedClosing(run.s, id);
    ClosingFits(run, id);
    ClosingOnly(run, id);
    assert Told(run.s, run.delivered, run.given, run.negotiating, run.late, q);
    assert OpenAs(run.s, q, PendingResponse);
    SamePending(run.s, r);
    SaidSnoc(run.s, r, run.delivered, OutboundError(q, Disconnected));
    StreamChanged(run.s, r, id);
    hide About, Fit, Placed, LateFit, Waiting, OpenAs, HasStream;
    OneConcerned(run, run.(s := r), q);
  }

  ghost predicate UnsaidAlong(s: State, order: seq<StreamId>) {
    forall i :: 0 <= i < |order| && order[i] in s.outbound ==> Unsaid(s, s.outbound[order[i]].request)
  }

  lemma ReadOneKeeps(run: Run, id: StreamId, io: OutIo)
    requires Inv(run) && id in run.s.outbound && Unsaid(run.s, run.s.outbound[id].request)
    ensures var (r, event) := ReadOne(run.s, id, io);
            Inv(run.(s := r, delivered := run.delivered + (if event.Some? then [event.value] else [])))
  {
    var q := run.s.outbound[id].request;
    var (r, event) := ReadOne(run.s, id, io);
    assert run.delivered + [] == run.delivered;
    if run.s.outbound[id].state == Some(PendingResponse) {
      if run.s.connection.Closed? {
        StartClosingKeeps(run, id);
      } else {
        match io
        case NotReady =>
        case Received(m) => ResponseKeeps(run, id, m);
        case Finished => DropKeeps(run, id, EndOfStream(q));
        case Failed => DropKeeps(run, id, OutboundError(q, StreamFailed));
      }
    } else if !io.NotReady? {
      DropKeeps(run, id, EndOfStream(q));
    }
  }

  /** Reading one stream queues nothing about the requests of the others. */
  lemma ReadOneUnsaid(s: State, order: seq<StreamId>, io: OutIo)
    requires CanRead(s, order) && order != [] && UnsaidAlong(s, order)
    requires forall a, b :: a in s.outbound && b in s.outbound && s.outbound[a].request == s.outbound[b].request ==> a == b
    requires ReadOne(s, order[0], io).1.None?
    ensures UnsaidAlong(ReadOne(s, order[0], io).0, order[1..])
  {
    var r := ReadOne(s, order[0], io).0;
    forall i | 0 <= i < |order[1..]| && order[1..][i] in r.outbound ensures Unsaid(r, r.outbound[order[1..][i]].request) {
      var id := order[i + 1];
      assert id != order[0] && id in s.outbound;
      assert r.outbound[id] == s.outbound[id];
      assert Unsaid(s, s.outbound[id].request);
      if r.events != s.events { AboutSnoc(s.events, OutboundError(s.outbound[order[0]].request, Disconnected), s.outbound[id].request); }
    }
  }

  lemma {:induction false} ReadAllKeeps(run: Run, order: seq<StreamId>, io: StreamId -> OutIo)
    requires Inv(run) && CanRead(run.s, order) && UnsaidAlong(run.s, order)
    ensures var (r, event) := ReadAll(run.s, order, io);
            Inv(run.(s := r, delivered := run.delivered + (if event.Some? then [event.value] else [])))
    decreases |order|
  {
    hide Kept, ReadOne;
    if order == [] {
      assert run.delivered + [] == run.delivered;
    } else {
      var (r, event) := ReadOne(run.s, order[0], io(order[0]));
      ReadOneKeeps(run, order[0], io(order[0]));
      ReadOneLeavesOthers(run.s, order, io(order[0]));
      if event.None? {
        assert run.delivered + [] == run.delivered;
        StreamsAreDistinct(run);
        ReadOneUnsaid(run.s, order, io(order[0]));
        ReadAllKeeps(run.(s := r), order[1..], io);
      }
    }
  }

  lemma StreamsAreDistinct(run: Run)
    requires Inv(run)
    ensures forall a, b :: a in run.s.outbound && b in run.s.outbound && run.s.outbound[a].request == run.s.outbound[b].request ==> a == b
  {}

  /** Taking the last waiting request leaves the others waiting. */
  lemma PendingPop(s: State, r: State)
    requires s.pending != [] && r.pending == s.pending[..|s.pending| - 1]
    requires forall i, j :: 0 <= i < j < |s.pending| ==> s.pending[i].request != s.pending[j].request
    ensures var q := s.pending[|s.pending| - 1].request;
            Waiting(s, q) && !Waiting(r, q) && forall x :: x != q ==> (Waiting(r, x) <==> Waiting(s, x))
  {
    var q := s.pending[|s.pending| - 1].request;
    forall x | x != q && Waiting(s, x) ensures Waiting(r, x) {
      var i :| 0 <= i < |s.pending| && s.pending[i].request == x;
      assert r.pending[i].request == x;
    }
  }

  lemma OpenKeeps(run: Run)
    requires Inv(run) && run.s.pending != []
    ensures var (r, out) := Conclude(run.s); Inv(AfterPoll(run, r, out))
  {
    hide About;
    var (r, out) := Conclude(run.s);
    var next := AfterPoll(run, r, out);
    var q := run.s.pending[|run.s.pending| - 1].request;
    SameStreams(run.s, r);
    PendingPop(run.s, r);
    assert Told(run.s, run.delivered, run.given, run.negotiating, run.late, q);
    forall x | x != q ensures Same(run, next, x) {}
    OneConcerned(run, next, q);
  }

  lemma ConcludeKeeps(run: Run)
    requires Inv(run)
    ensures var (r, out) := Conclude(run.s); Inv(AfterPoll(run, r, out))
  {
    if run.s.pending != [] {
      OpenKeeps(run);
    } else if Drained(run.s) {
      hide About;
      var next := run.(s := run.s.(connection := Closed), delivered := run.delivered + [CloseConnection]);
      SameStreams(run.s, next.s);
      SamePending(run.s, next.s);
      forall q: RequestId ensures Told(next.s, next.delivered, next.given, next.negotiating, next.late, q) {
        assert Told(run.s, run.delivered, run.given, run.negotiating, run.late, q);
        AboutSnoc(run.delivered, CloseConnection, q);
        SameTold(run, next, q);
      }
    }
  }

  /** The first outbound timer to run out takes its stream with it. */
  lemma ExpireOutboundKeeps(run: Run, expired: seq<StreamId>)
    requires Inv(run) && Elements(expired) <= run.s.outboundTimers
    requires forall q: RequestId :: Unsaid(run.s, q)
    ensures var (r, event) := ExpireOutbound(run.s, expired);
            Inv(run.(s := r, delivered := run.delivered + (if event.Some? then [event.value] else [])))
            && (event.None? ==> r == run.s)
  {
    if expired != [] {
      var id := expired[0];
      assert id in Elements(expired);
      DropKeeps(run, id, OutboundError(run.s.outbound[id].request, StreamTimedOut));
    } else {
      assert run.delivered + [] == run.delivered;
    }
  }

  lemma PollKeeps(dl: DecompressLen, run: Run, w: Weather)
    requires Inv(run) && Possible(run.s, w)
    ensures Inv(Step(dl, run, PollHandler(w)))
  {
    hide Told, Placed, ReadAll, PumpAll, ExpireOutbound, ExpireInbound;
    if run.s.events != [] {
      DeliverKeeps(run);
    } else {
      StagesFit(dl, run.s, w);
      var s1 := ExpireInbound(run.s, w.inboundExpired);
      ExpireInboundAside(run.s, w.inboundExpired);
      AsideKeeps(run.s, s1, run.delivered, run.given, run.negotiating, run.late);
      var run1 := run.(s := s1);
      assert forall q: RequestId :: Unsaid(s1, q);
      var (s2, late) := ExpireOutbound(s1, w.outboundExpired);
      ExpireOutboundKeeps(run1, w.outboundExpired);
      if late.None? {
        var s3 := PumpAll(dl, s2, w.inboundOrder, w.inboundIo);
        PumpAllAside(dl, s2, w.inboundOrder, w.inboundIo);
        AsideKeeps(s2, s3, run.delivered, run.given, run.negotiating, run.late);
        ReadAllKeeps(run.(s := s3), w.outboundOrder, w.outboundIo);
        var (s4, event) := ReadAll(s3, w.outboundOrder, w.outboundIo);
        assert run.delivered + [] == run.delivered;
        if event.None? { ConcludeKeeps(run.(s := s4)); }
      }
    }
  }

  /** Every call keeps the invariant. */
  lemma StepKeeps(dl: DecompressLen, run: Run, c: Call)
    requires Inv(run) && Enabled(run, c)
    ensures Inv(Step(dl, run, c))
  {
    match c
    case GiveRequest(q, m) => GiveRequestKeeps(run, q, m);
    case OutboundReady(q) => OutboundReadyKeeps(run, q);
    case OutboundRefused(q) => OutboundRefusedKeeps(run, q);
    case BeginShutdown => ShutdownKeeps(run);
    case PollHandler(w) => PollKeeps(dl, run, w);
    case _ => InboundCallsKeep(run, c);
  }

  /** So every run does. */
  lemma {:induction false} RunsKeep(dl: DecompressLen, run: Run, calls: seq<Call>)
    requires Inv(run) && AllEnabled(dl, run, calls)
    ensures Inv(Steps(dl, run, calls))
    decreases |calls|
  {
    hide Kept, Step;
    if calls != [] {
      StepKeeps(dl, run, calls[0]);
      RunsKeep(dl, Step(dl, run, calls[0]), calls[1..]);
    }
  }

  // ---------------------------------------------------------------- results

  ghost predicate ExactlyOne(a: bool, b: bool, c: bool, d: bool) {
    (a && !b && !c && !d) || (!a && b && !c && !d) || (!a && !b && c && !d) || (!a && !b && !c && d)
  }

  /** The request has come to its end: no place holds it and its end has been told or queued. */
  ghost predicate Over(run: Run, q: RequestId) {
    !Waiting(run.s, q) && q !in run.negotiating && !HasStream(run.s, q)
    && exists i :: 0 <= i < |Story(run.s, run.delivered, q)| && Terminal(Story(run.s, run.delivered, q)[i])
  }

  /** In every run each request given is waiting, being negotiated, on a stream, or over:
      one of the four and never two. */
  lemma EachRequestHasOnePlace(dl: DecompressLen, calls: seq<Call>, q: RequestId)
    requires AllEnabled(dl, Start(), calls) && q in Steps(dl, Start(), calls).given
    ensures var run := Steps(dl, Start(), calls);
            ExactlyOne(Waiting(run.s, q), q in run.negotiating, HasStream(run.s, q), Over(run, q))
  {
    StartInv();
    RunsKeep(dl, Start(), calls);
    OnePlace(Steps(dl, Start(), calls), q);
  }

  lemma OnePlace(run: Run, q: RequestId)
    requires Inv(run) && q in run.given
    ensures ExactlyOne(Waiting(run.s, q), q in run.negotiating, HasStream(run.s, q), Over(run, q))
  {
    hide About;
    assert Told(run.s, run.delivered, run.given, run.negotiating, run.late, q);
    StreamIsOpen(run.s, q);
    if !Waiting(run.s, q) && q !in run.negotiating && !HasStream(run.s, q) {
      var story := Story(run.s, run.delivered, q);
      assert Terminal(story[|story| - 1]);
    }
  }

  /** In every run no response follows the end of a request; and a second ending follows it
      only for a request whose stream was negotiated on a closed connection, where the two
      are all that is ever said: "disconnected", and the end of the stream or its timeout. */
  lemma EndingsAreFinal(dl: DecompressLen, calls: seq<Call>, q: RequestId, i: nat, j: nat)
    requires AllEnabled(dl, Start(), calls)
    requires var run := Steps(dl, Start(), calls);
             i < j < |Story(run.s, run.delivered, q)| && Terminal(Story(run.s, run.delivered, q)[i])
    ensures NegotiatedLate(dl, Start(), calls, q)
    ensures var run := Steps(dl, Start(), calls);
            EndsTwice(Story(run.s, run.delivered, q), q) && i == 0 && j == 1
  {
    hide Step, Enabled, Kept, Terminal, Told;
    StartInv();
    RunsKeep(dl, Start(), calls);
    LateIsNegotiatedLate(dl, Start(), calls, q);
    var run := Steps(dl, Start(), calls);
    StoriesByPlace(run, q);
    OneEnding(Story(run.s, run.delivered, q), i, j);
  }

  /** What can have been said about a request, late or not, on a stream or not. */
  lemma StoriesByPlace(run: Run, q: RequestId)
    requires Inv(run)
    ensures var story := Story(run.s, run.delivered, q);
            if q !in run.late then OnlyResponses(story) || EndsOnce(story)
            else if HasStream(run.s, q) then story == [] || story == [OutboundError(q, Disconnected)]
            else story == [OutboundError(q, StreamTimedOut)] || EndsTwice(story, q)
  {
    hide About;
    assert Told(run.s, run.delivered, run.given, run.negotiating, run.late, q);
    StreamIsOpen(run.s, q);
  }

  lemma StreamIsOpen(s: State, q: RequestId)
    requires Present(s)
    ensures HasStream(s, q) <==> OpenAs(s, q, PendingResponse) || OpenAs(s, q, Closing)
  {
    if HasStream(s, q) {
      var id :| id in s.outbound && s.outbound[id].request == q;
      match s.outbound[id].state.value
      case PendingResponse => assert OpenAs(s, q, PendingResponse);
      case Closing => assert OpenAs(s, q, Closing);
    }
  }

  lemma OneEnding(story: seq<HandlerEvent>, i: nat, j: nat)
    requires i < j < |story| && Terminal(story[i])
    ensures !OnlyResponses(story) && !EndsOnce(story)
  {
    assert story[..|story| - 1][i] == story[i];
  }

  /** Some call of the run brings the stream of `q` on a connection that is closed already. */
  ghost predicate NegotiatedLate(dl: DecompressLen, run: Run, calls: seq<Call>, q: RequestId)
    requires AllEnabled(dl, run, calls)
    decreases |calls|
  {
    calls != []
    && ((calls[0] == OutboundReady(q) && run.s.connection.Closed?)
        || NegotiatedLate(dl, Step(dl, run, calls[0]), calls[1..], q))
  }

  lemma {:induction false} LateIsNegotiatedLate(dl: DecompressLen, run: Run, calls: seq<Call>, q: RequestId)
    requires AllEnabled(dl, run, calls)
    ensures q in Steps(dl, run, calls).late <==> q in run.late || NegotiatedLate(dl, run, calls, q)
    decreases |calls|
  {
    hide Polled;
    if calls != [] { LateIsNegotiatedLate(dl, Step(dl, run, calls[0]), calls[1..], q); }
  }

  /** After every run no stream lacks its state, timers fit streams, and the arms marked
      unreachable are. */
  lemma StreamsAndTimersFit(dl: DecompressLen, calls: seq<Call>)
    requires AllEnabled(dl, Start(), calls)
    ensures Fit(Steps(dl, Start(), calls).s)
  {
    StartInv();
    RunsKeep(dl, Start(), calls);
  }
}
