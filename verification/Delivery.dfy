/** Responses from end to end: from the calls on a channel, through the command queue and
    the connection handler, over the wire, to the value the other side's callback is told. */
module Delivery {
  import opened Basics
  import opened SnappyScan
  import opened Framing
  import opened Codec
  import opened Frames
  import opened Handler
  import opened HandlerResponses
  import Requests = HandlerRequests
  import Announcements = HandlerAnnouncements
  import Endings = HandlerEndings
  import Channels = ResponseChannels
  import Bridge = RequestBridge

  /** The action a call hands over for a stream, if it does. */
  function HandedBy(c: Requests.Call, id: StreamId): (r: seq<ResponseAction>) {
    match c
    case SendResponse(x, payload) => if x == id then [SendMessage(payload)] else []
    case FinishStream(x) => if x == id then [CloseStream] else []
    case _ => []
  }

  /** The actions handed over for a stream by a run of calls. What is handed over before the
      stream exists is ignored. */
  ghost function Handed(dl: DecompressLen, run: Requests.Run, calls: seq<Requests.Call>, id: StreamId): (r: seq<ResponseAction>)
    requires Requests.AllEnabled(dl, run, calls)
    decreases |calls|
  {
    if calls == [] then []
    else
      (if id < run.s.inboundId then HandedBy(calls[0], id) else [])
      + Handed(dl, Requests.Step(dl, run, calls[0]), calls[1..], id)
  }

  /** A call announces at most the next stream, brings none back and reopens no connection. */
  lemma StepInbound(dl: DecompressLen, run: Requests.Run, c: Requests.Call, id: StreamId)
    requires Requests.Enabled(run, c)
    ensures var r := Requests.Step(dl, run, c).s;
            (run.s.connection.Closed? ==> r.connection.Closed?)
            && r.inboundId == (if c.InboundReady? then run.s.inboundId + 1 else run.s.inboundId)
            && (id in r.inbound ==> id in run.s.inbound || (c.InboundReady? && id == run.s.inboundId))
  {
    hide Polled;
    match c
    case PollHandler(w) =>
      PolledInbound(dl, run.s, w);
      if Pumps(run.s, w) { assert PumpedAlone(dl, run.s, Requests.Step(dl, run, c).s, w, id); }
    case _ =>
  }

  lemma {:induction false} StreamsDoNotReturn(dl: DecompressLen, run: Requests.Run, calls: seq<Requests.Call>, id: StreamId)
    requires Requests.AllEnabled(dl, run, calls) && id !in run.s.inbound && id < run.s.inboundId
    ensures id !in Requests.Steps(dl, run, calls).s.inbound
    decreases |calls|
  {
    if calls != [] {
      StepInbound(dl, run, calls[0], id);
      StreamsDoNotReturn(dl, Requests.Step(dl, run, calls[0]), calls[1..], id);
    }
  }

  /** What has been accepted for a stream so far. */
  ghost function Accepted(l: Ledger, s: State, id: StreamId): (r: seq<ResponseAction>) {
    if id in s.inbound && id in l.accepted then l.accepted[id] else []
  }

  /** A call's action is accepted, except for a message on a closed connection. */
  lemma StepAccepts(dl: DecompressLen, run: Requests.Run, l: Ledger, c: Requests.Call, id: StreamId)
    requires Requests.Enabled(run, c) && Balanced(dl, run.s, l)
    requires id in run.s.inbound || id >= run.s.inboundId
    requires id in Requests.Step(dl, run, c).s.inbound
    ensures var before, after := Accepted(l, run.s, id), Accepted(Record(dl, run.s, l, c), Requests.Step(dl, run, c).s, id);
            after == before + (if c.SendResponse? && run.s.connection.Closed? then [] else HandedBy(c, id))
            && (id >= run.s.inboundId ==> HandedBy(c, id) == [])
  {
    hide Polled, StreamKept, Written, Balanced, Pumps;
    StepInbound(dl, run, c, id);
    StepBalances(dl, run, l, c);
    if id in run.s.inbound { KnownIsOld(dl, run.s, l, id); }
    if id in Requests.Step(dl, run, c).s.inbound { KnownIsOld(dl, Requests.Step(dl, run, c).s, Record(dl, run.s, l, c), id); }
    var before := Accepted(l, run.s, id);
    assert before + [] == before;
  }

  lemma KnownIsOld(dl: DecompressLen, s: State, l: Ledger, id: StreamId)
    requires Balanced(dl, s, l) && id in s.inbound
    ensures id < s.inboundId && id in l.accepted
  {}

  lemma {:induction false} AcceptedFollows(dl: DecompressLen, run: Requests.Run, l: Ledger, calls: seq<Requests.Call>, id: StreamId)
    requires Requests.AllEnabled(dl, run, calls) && Balanced(dl, run.s, l)
    requires id in Requests.Steps(dl, run, calls).s.inbound
    ensures var before, after := Payloads(Accepted(l, run.s, id)), Payloads(Accepted(Records(dl, run, l, calls), Requests.Steps(dl, run, calls).s, id));
            after <= before + Payloads(Handed(dl, run, calls, id))
            && (run.s.connection.Closed? ==> after == before && Requests.Steps(dl, run, calls).s.connection.Closed?)
            && (!Requests.Steps(dl, run, calls).s.connection.Closed? ==> after == before + Payloads(Handed(dl, run, calls, id)))
    decreases |calls|
  {
    hide Requests.Step, Requests.Enabled, Record, Balanced, Payloads, HandedBy;
    var before := Payloads(Accepted(l, run.s, id));
    if calls == [] {
      NoPayloads();
      assert before + [] == before;
    } else {
      if id !in run.s.inbound && id < run.s.inboundId { StreamsDoNotReturn(dl, run, calls, id); }
      var c := calls[0];
      var next, l' := Requests.Step(dl, run, c), Record(dl, run.s, l, c);
      if id !in next.s.inbound && id < next.s.inboundId { StreamsDoNotReturn(dl, next, calls[1..], id); }
      if id in run.s.inbound { KnownIsOld(dl, run.s, l, id); }
      StepInbound(dl, run, c, id);
      StepBalances(dl, run, l, c);
      AcceptedFollows(dl, next, l', calls[1..], id);
      if id in next.s.inbound { StepAccepts(dl, run, l, c, id); }
      HandedPayloads(Accepted(l, run.s, id), c, id, Handed(dl, next, calls[1..], id));
      assert [] + Handed(dl, next, calls[1..], id) == Handed(dl, next, calls[1..], id);
      assert before + [] == before;
    }
  }

  lemma NoPayloads()
    ensures Payloads([]) == []
  {}

  /** The payloads after one more call; closing a stream adds none. */
  lemma HandedPayloads(before: seq<ResponseAction>, c: Requests.Call, id: StreamId, later: seq<ResponseAction>)
    ensures Payloads(before + HandedBy(c, id)) + Payloads(later) == Payloads(before) + Payloads(HandedBy(c, id) + later)
    ensures Payloads(before + []) == Payloads(before)
    ensures !c.SendResponse? ==> Payloads(before + HandedBy(c, id)) == Payloads(before)
  {
    var now := HandedBy(c, id);
    CollectConcat(before, now, IfMessage());
    CollectConcat(now, later, IfMessage());
    Associate(Payloads(before), Payloads(now), Payloads(later));
    assert before + [] == before;
    NoPayloads();
    CollectOne(CloseStream, IfMessage());
  }

  /** In every run: what the peer has read from a live stream is the beginning of the
      payloads handed over for it, in order; and on an open connection, once the stream has
      nothing left to do, it is all of them. */
  lemma PeerReadsWhatIsHanded(dl: DecompressLen, calls: seq<Requests.Call>, id: StreamId)
    requires Requests.AllEnabled(dl, Requests.Start(), calls)
    requires id in Requests.Steps(dl, Requests.Start(), calls).s.inbound
    ensures var s := Requests.Steps(dl, Requests.Start(), calls).s;
            s.inbound[id].state.Some? &&
            var read := Drain(DecoderOf(dl, RESPONSE_HEAD), SinkOf(s.inbound[id]).wire);
            var handed := Payloads(Handed(dl, Requests.Start(), calls, id));
            read.items <= handed && read.error.None?
            && (!s.connection.Closed? && s.inbound[id].state.value.Idle? && s.inbound[id].queue == [] ==> read.items == handed)
  {
    hide Requests.Step, Record, Payloads, Drain, DecoderOf;
    var l := Records(dl, Requests.Start(), NoBooks(), calls);
    ResponsesArriveInOrder(dl, calls, id);
    ActionsAreConserved(dl, calls, id);
    AcceptedFollows(dl, Requests.Start(), NoBooks(), calls, id);
    NoPayloads();
    var handed := Payloads(Handed(dl, Requests.Start(), calls, id));
    assert l.written[id] + [] + [] == l.written[id];
    assert [] + handed == handed;
  }

  // ---------------------------------------------------------------- the machines together

  /** One connection's handler and the channel table, as the calls made to the one and the
      events of the other so far, and how many of the handler's reports the event loop has
      taken. */
  datatype World = World(calls: seq<Requests.Call>, events: seq<Channels.Event>, handled: nat)

  /** What happens next: a call to the handler that is no response; an event of the table that
      is no report of this handler; the event loop takes the next report; or the head of the
      command queue leaves, to this handler if it is for one of its streams. */
  datatype Move =
    | CallHandler(call: Requests.Call)
    | CallTable(event: Channels.Event)
    | TakeReport(now: nat)
    | PassCommand

  datatype Connection = Connection(peer: nat, number: nat)

  function StreamOf(n: Connection, id: StreamId): (t: Channels.Target) {
    Channels.Target(n.peer, n.number, id)
  }

  predicate Ours(n: Connection, t: Channels.Target) {
    t == StreamOf(n, t.stream)
  }

  ghost predicate Running(dl: DecompressLen, w: World) {
    Requests.AllEnabled(dl, Requests.Start(), w.calls) && Channels.AllEnabled(Channels.Start(), w.events)
  }

  ghost function HandlerOf(dl: DecompressLen, w: World): (r: Requests.Run)
    requires Running(dl, w)
  {
    Requests.Steps(dl, Requests.Start(), w.calls)
  }

  ghost function TableOf(dl: DecompressLen, w: World): (s: Channels.State)
    requires Running(dl, w)
  {
    Channels.Run(Channels.Start(), w.events)
  }

  ghost predicate Possible(dl: DecompressLen, n: Connection, w: World, m: Move)
    requires Running(dl, w)
  {
    match m
    case CallHandler(c) => !c.SendResponse? && !c.FinishStream? && Requests.Enabled(HandlerOf(dl, w), c)
    case CallTable(e) => Channels.Enabled(TableOf(dl, w), e) && !e.Deliver?
                         && (e.RequestReceived? || e.StreamFailed? ==> !Ours(n, e.target))
    case TakeReport(_) => w.handled < |HandlerOf(dl, w).delivered|
    case PassCommand => TableOf(dl, w).queue != []
  }

  /** What a report of the handler is to the table. */
  function AsEvents(n: Connection, report: HandlerEvent, now: nat): (r: seq<Channels.Event>) {
    match report
    case RequestReceived(id, _) => [Channels.RequestReceived(StreamOf(n, id), now)]
    case InboundError(id, _) => [Channels.StreamFailed(StreamOf(n, id))]
    case _ => []
  }

  /** What a command is to the handler. */
  function AsCalls(n: Connection, c: Channels.Command): (r: seq<Requests.Call>) {
    if c.Other? || !Ours(n, c.target) then []
    else if c.Respond? then [Requests.SendResponse(c.target.stream, c.payload)]
    else [Requests.FinishStream(c.target.stream)]
  }

  ghost function Next(dl: DecompressLen, n: Connection, w: World, m: Move): (r: World)
    requires Running(dl, w) && Possible(dl, n, w, m)
  {
    match m
    case CallHandler(c) => w.(calls := w.calls + [c])
    case CallTable(e) => w.(events := w.events + [e])
    case TakeReport(now) =>
      w.(handled := w.handled + 1, events := w.events + AsEvents(n, HandlerOf(dl, w).delivered[w.handled], now))
    case PassCommand =>
      w.(events := w.events + [Channels.Deliver], calls := w.calls + AsCalls(n, TableOf(dl, w).queue[0]))
  }

  function IfAction(): (give: Channels.Command -> seq<ResponseAction>) {
    (c: Channels.Command) =>
      match c case Respond(_, payload) => [SendMessage(payload)] case FinishStream(_) => [CloseStream] case Other(_) => []
  }

  /** Commands as the handler's actions. */
  function AsActions(commands: seq<Channels.Command>): (r: seq<ResponseAction>) {
    Collect(commands, IfAction())
  }

  /** The reports taken so far. */
  ghost function Taken(dl: DecompressLen, w: World): (r: seq<HandlerEvent>)
    requires Running(dl, w) && w.handled <= |HandlerOf(dl, w).delivered|
  {
    HandlerOf(dl, w).delivered[..w.handled]
  }

  /** The table knows this connection's streams from the reports taken, and the handler was
      handed for each of them what the queue has delivered. */
  ghost predicate Tied(dl: DecompressLen, n: Connection, w: World)
    requires Running(dl, w)
  {
    w.handled <= |HandlerOf(dl, w).delivered|
    && (forall id: StreamId :: StreamOf(n, id) in TableOf(dl, w).announced <==> id in Announcements.Announced(Taken(dl, w)))
    && (forall id: StreamId :: HandedIn(dl, n, w, id))
  }

  ghost predicate HandedIn(dl: DecompressLen, n: Connection, w: World, id: StreamId)
    requires Running(dl, w)
  {
    Handed(dl, Requests.Start(), w.calls, id) == AsActions(Channels.CommandsFor(TableOf(dl, w).delivered, StreamOf(n, id)))
  }

  ghost predicate Inv(dl: DecompressLen, n: Connection, w: World) {
    Running(dl, w) && Tied(dl, n, w)
  }

  lemma CallsSnoc(dl: DecompressLen, calls: seq<Requests.Call>, c: Requests.Call)
    requires Requests.AllEnabled(dl, Requests.Start(), calls) && Requests.Enabled(Requests.Steps(dl, Requests.Start(), calls), c)
    ensures Requests.AllEnabled(dl, Requests.Start(), calls + [c])
    ensures Requests.Steps(dl, Requests.Start(), calls + [c]) == Requests.Step(dl, Requests.Steps(dl, Requests.Start(), calls), c)
  {
    Endings.OneStep(dl, Requests.Steps(dl, Requests.Start(), calls), c);
    Endings.StepsInTwo(dl, Requests.Start(), calls, [c]);
  }

  lemma {:induction false} HandedSnoc(dl: DecompressLen, run: Requests.Run, calls: seq<Requests.Call>, c: Requests.Call, id: StreamId)
    requires Requests.AllEnabled(dl, run, calls) && Requests.AllEnabled(dl, run, calls + [c])
    ensures Handed(dl, run, calls + [c], id)
            == Handed(dl, run, calls, id) + (if id < Requests.Steps(dl, run, calls).s.inboundId then HandedBy(c, id) else [])
    decreases |calls|
  {
    hide Requests.Step, Requests.Enabled, HandedBy;
    var all := calls + [c];
    if calls == [] {
      assert all == [c] && all[1..] == [];
      assert HandedBy(c, id) + [] == HandedBy(c, id);
    } else {
      assert all[0] == calls[0] && all[1..] == calls[1..] + [c];
      var next := Requests.Step(dl, run, calls[0]);
      HandedSnoc(dl, next, calls[1..], c, id);
      Associate(if id < run.s.inboundId then HandedBy(calls[0], id) else [],
                Handed(dl, next, calls[1..], id),
                if id < Requests.Steps(dl, run, calls).s.inboundId then HandedBy(c, id) else []);
    }
  }

  // ---------------------------------------------------------------- what the handler has announced

  lemma AllAreAnnounced(dl: DecompressLen, calls: seq<Requests.Call>)
    requires Requests.AllEnabled(dl, Requests.Start(), calls)
    ensures Announcements.AllAnnounced(Requests.Steps(dl, Requests.Start(), calls))
  {
    assert Announcements.AllAnnounced(Requests.Start());
    Announcements.EachStreamAnnouncedOnce(dl, Requests.Start(), calls);
  }

  /** The streams of the reports taken are numbered from zero, in order, below the next. */
  lemma TakenCountUp(dl: DecompressLen, w: World)
    requires Running(dl, w) && w.handled <= |HandlerOf(dl, w).delivered|
    ensures var taken := Announcements.Announced(Taken(dl, w));
            |taken| <= HandlerOf(dl, w).s.inboundId && taken == Announcements.CountUp(|taken|)
  {
    var run := HandlerOf(dl, w);
    AllAreAnnounced(dl, w.calls);
    CollectPrefix(Taken(dl, w), run.delivered + run.s.events, Announcements.IfRequest());
  }

  /** A stream is announced once: the next report announces none that was announced before. */
  lemma NextReportIsNew(dl: DecompressLen, w: World)
    requires Running(dl, w) && w.handled < |HandlerOf(dl, w).delivered|
    ensures var report := HandlerOf(dl, w).delivered[w.handled];
            Announcements.Announced(HandlerOf(dl, w).delivered[..w.handled + 1])
            == Announcements.Announced(Taken(dl, w)) + (if report.RequestReceived? then [report.stream] else [])
            && (report.RequestReceived? ==> report.stream !in Announcements.Announced(Taken(dl, w)))
  {
    var delivered := HandlerOf(dl, w).delivered;
    var report := delivered[w.handled];
    assert delivered[..w.handled + 1] == Taken(dl, w) + [report];
    CollectSnoc(Taken(dl, w), report, Announcements.IfRequest());
    TakenCountUp(dl, w);
    TakenCountUp(dl, w.(handled := w.handled + 1));
    var taken := Announcements.Announced(Taken(dl, w));
    if report.RequestReceived? { assert (taken + [report.stream])[|taken|] == |taken|; }
  }

  lemma DeliveredGrows(dl: DecompressLen, run: Requests.Run, c: Requests.Call)
    requires Requests.Enabled(run, c)
    ensures run.delivered <= Requests.Step(dl, run, c).delivered
  {
    hide Polled;
  }

  // ---------------------------------------------------------------- every move keeps them tied

  lemma CallKeeps(dl: DecompressLen, n: Connection, w: World, c: Requests.Call)
    requires Inv(dl, n, w) && Possible(dl, n, w, CallHandler(c))
    ensures Inv(dl, n, w.(calls := w.calls + [c]))
  {
    hide Requests.AllEnabled, Requests.Steps, Requests.Step, Requests.Enabled, Channels.Run, Handed, AsActions, Announcements.Announced;
    var w' := w.(calls := w.calls + [c]);
    CallsSnoc(dl, w.calls, c);
    DeliveredGrows(dl, HandlerOf(dl, w), c);
    assert Taken(dl, w') == Taken(dl, w);
    forall id: StreamId ensures HandedIn(dl, n, w', id) {
      assert HandedIn(dl, n, w, id);
      HandedSnoc(dl, Requests.Start(), w.calls, c, id);
      var before := Handed(dl, Requests.Start(), w.calls, id);
      assert before + [] == before;
    }
  }

  /** An event of the table that delivers nothing and concerns no announcement of ours. */
  lemma EventKeeps(dl: DecompressLen, n: Connection, w: World, e: Channels.Event)
    requires Inv(dl, n, w) && Channels.Enabled(TableOf(dl, w), e) && !e.Deliver?
    requires e.RequestReceived? ==> !Ours(n, e.target)
    ensures Inv(dl, n, w.(events := w.events + [e]))
  {
    hide Requests.AllEnabled, Requests.Steps, Channels.AllEnabled, Channels.Run, Handed, AsActions, Announcements.Announced, Channels.CommandsFor;
    var w' := w.(events := w.events + [e]);
    Channels.RunSnoc(Channels.Start(), w.events, e);
    assert TableOf(dl, w').delivered == TableOf(dl, w).delivered;
    assert Taken(dl, w') == Taken(dl, w);
    forall id: StreamId ensures StreamOf(n, id) in TableOf(dl, w').announced <==> StreamOf(n, id) in TableOf(dl, w).announced {}
    forall id: StreamId ensures HandedIn(dl, n, w', id) { assert HandedIn(dl, n, w, id); }
  }

  /** A report that announces nothing is taken. */
  lemma SilentReportKeeps(dl: DecompressLen, n: Connection, w: World)
    requires Inv(dl, n, w) && w.handled < |HandlerOf(dl, w).delivered|
    requires !HandlerOf(dl, w).delivered[w.handled].RequestReceived?
    ensures Inv(dl, n, w.(handled := w.handled + 1))
  {
    hide Requests.AllEnabled, Requests.Steps, Channels.AllEnabled, Channels.Run, Handed, AsActions, Announcements.Announced, Channels.CommandsFor;
    var w' := w.(handled := w.handled + 1);
    NextReportIsNew(dl, w);
    var taken := Announcements.Announced(Taken(dl, w));
    assert taken + [] == taken;
    forall id: StreamId ensures HandedIn(dl, n, w', id) { assert HandedIn(dl, n, w, id); }
  }

  /** A report that announces a stream gives it its channel, its first and only one. */
  lemma AnnouncementKeeps(dl: DecompressLen, n: Connection, w: World, now: nat)
    requires Inv(dl, n, w) && w.handled < |HandlerOf(dl, w).delivered|
    requires HandlerOf(dl, w).delivered[w.handled].RequestReceived?
    ensures var e := Channels.RequestReceived(StreamOf(n, HandlerOf(dl, w).delivered[w.handled].stream), now);
            Channels.Enabled(TableOf(dl, w), e) && Inv(dl, n, w.(handled := w.handled + 1, events := w.events + [e]))
  {
    hide Requests.AllEnabled, Requests.Steps, Channels.AllEnabled, Channels.Run, Handed, AsActions, Announcements.Announced, Channels.CommandsFor;
    var stream := HandlerOf(dl, w).delivered[w.handled].stream;
    var e := Channels.RequestReceived(StreamOf(n, stream), now);
    var w' := w.(handled := w.handled + 1, events := w.events + [e]);
    NextReportIsNew(dl, w);
    Channels.RunSnoc(Channels.Start(), w.events, e);
    assert TableOf(dl, w').announced == TableOf(dl, w).announced + {StreamOf(n, stream)};
    forall id: StreamId ensures HandedIn(dl, n, w', id) { assert HandedIn(dl, n, w, id); }
  }

  lemma ReportKeeps(dl: DecompressLen, n: Connection, w: World, now: nat)
    requires Inv(dl, n, w) && Possible(dl, n, w, TakeReport(now))
    ensures Inv(dl, n, Next(dl, n, w, TakeReport(now)))
  {
    var report := HandlerOf(dl, w).delivered[w.handled];
    if report.RequestReceived? {
      AnnouncementKeeps(dl, n, w, now);
    } else {
      var w' := w.(handled := w.handled + 1);
      SilentReportKeeps(dl, n, w);
      hide Requests.AllEnabled, Requests.Steps, Channels.AllEnabled, Channels.Run, Tied;
      if report.InboundError? { EventKeeps(dl, n, w', Channels.StreamFailed(StreamOf(n, report.stream))); }
      assert w'.events + [] == w'.events;
    }
  }

  /** A command is only ever queued for a stream that was announced, so its handler has it. */
  lemma CommandsAreForKnownStreams(dl: DecompressLen, n: Connection, w: World, id: StreamId)
    requires Inv(dl, n, w) && Channels.CommandsFor(Channels.Log(TableOf(dl, w)), StreamOf(n, id)) != []
    ensures id < HandlerOf(dl, w).s.inboundId
  {
    hide Requests.AllEnabled, Requests.Steps, Channels.AllEnabled, Channels.Run, Handed, AsActions, Announcements.Announced, Channels.CommandsFor;
    Channels.StartInv();
    Channels.RunsKeep(Channels.Start(), w.events);
    assert Channels.StreamOk(TableOf(dl, w), StreamOf(n, id));
    TakenCountUp(dl, w);
    var taken := Announcements.Announced(Taken(dl, w));
    assert id in taken;
  }

  lemma HeadIsInLog(s: Channels.State, t: Channels.Target)
    requires s.queue != [] && Channels.IsFor(s.queue[0], t)
    ensures Channels.CommandsFor(Channels.Log(s), t) != []
  {
    Channels.CommandsConcat(s.delivered, s.queue, t);
  }

  /** The actions handed over by passing one command, stream by stream. */
  lemma PassHands(n: Connection, s: Channels.State, id: StreamId)
    requires s.queue != []
    ensures var c := s.queue[0]; var t := StreamOf(n, id);
            AsActions(Channels.CommandsFor(s.delivered + [c], t))
            == AsActions(Channels.CommandsFor(s.delivered, t)) + (if AsCalls(n, c) == [] then [] else HandedBy(AsCalls(n, c)[0], id))
    ensures AsCalls(n, s.queue[0]) != [] && HandedBy(AsCalls(n, s.queue[0])[0], id) != [] ==> Channels.IsFor(s.queue[0], StreamOf(n, id))
  {
    var c, t := s.queue[0], StreamOf(n, id);
    CollectSnoc(s.delivered, c, Channels.IfFor(t));
    var before := Channels.CommandsFor(s.delivered, t);
    if Channels.IsFor(c, t) {
      CollectSnoc(before, c, IfAction());
    } else {
      assert before + [] == before;
      assert AsActions(before) + [] == AsActions(before);
    }
  }

  lemma PassKeeps(dl: DecompressLen, n: Connection, w: World)
    requires Inv(dl, n, w) && Possible(dl, n, w, PassCommand)
    ensures Inv(dl, n, Next(dl, n, w, PassCommand))
  {
    hide Requests.AllEnabled, Requests.Steps, Requests.Step, Channels.AllEnabled, Channels.Run, Handed, AsActions, Announcements.Announced, Channels.CommandsFor;
    var w' := Next(dl, n, w, PassCommand);
    var calls := AsCalls(n, TableOf(dl, w).queue[0]);
    Channels.RunSnoc(Channels.Start(), w.events, Channels.Deliver);
    if calls == [] {
      assert w.calls + [] == w.calls;
    } else {
      assert calls == [calls[0]];
      CallsSnoc(dl, w.calls, calls[0]);
      DeliveredGrows(dl, HandlerOf(dl, w), calls[0]);
    }
    assert Taken(dl, w') == Taken(dl, w);
    forall id: StreamId ensures HandedIn(dl, n, w', id) { PassedIsHanded(dl, n, w, id); }
  }

  lemma PassedIsHanded(dl: DecompressLen, n: Connection, w: World, id: StreamId)
    requires Inv(dl, n, w) && Possible(dl, n, w, PassCommand) && Running(dl, Next(dl, n, w, PassCommand))
    ensures HandedIn(dl, n, Next(dl, n, w, PassCommand), id)
  {
    hide Requests.AllEnabled, Requests.Steps, Requests.Step, Channels.AllEnabled, Channels.Run, Handed, AsActions, Announcements.Announced, Channels.CommandsFor;
    var s := TableOf(dl, w);
    var calls := AsCalls(n, s.queue[0]);
    assert HandedIn(dl, n, w, id);
    Channels.RunSnoc(Channels.Start(), w.events, Channels.Deliver);
    PassHands(n, s, id);
    var before := Handed(dl, Requests.Start(), w.calls, id);
    assert before + [] == before;
    if calls == [] {
      assert w.calls + [] == w.calls;
    } else {
      assert calls == [calls[0]];
      HandedSnoc(dl, Requests.Start(), w.calls, calls[0], id);
      if HandedBy(calls[0], id) != [] {
        HeadIsInLog(s, StreamOf(n, id));
        CommandsAreForKnownStreams(dl, n, w, id);
      }
    }
  }

  lemma MoveKeeps(dl: DecompressLen, n: Connection, w: World, m: Move)
    requires Inv(dl, n, w) && Possible(dl, n, w, m)
    ensures Inv(dl, n, Next(dl, n, w, m))
  {
    hide Running, Tied;
    match m
    case CallHandler(c) => CallKeeps(dl, n, w, c);
    case CallTable(e) => EventKeeps(dl, n, w, e);
    case TakeReport(now) => ReportKeeps(dl, n, w, now);
    case PassCommand => PassKeeps(dl, n, w);
  }

  ghost predicate AllPossible(dl: DecompressLen, n: Connection, w: World, moves: seq<Move>)
    requires Inv(dl, n, w)
    decreases |moves|
  {
    moves != [] ==> Possible(dl, n, w, moves[0]) && (MoveKeeps(dl, n, w, moves[0]); AllPossible(dl, n, Next(dl, n, w, moves[0]), moves[1..]))
  }

  ghost function After(dl: DecompressLen, n: Connection, w: World, moves: seq<Move>): (r: World)
    requires Inv(dl, n, w) && AllPossible(dl, n, w, moves)
    ensures Inv(dl, n, r)
    decreases |moves|
  {
    if moves == [] then w
    else
      MoveKeeps(dl, n, w, moves[0]);
      After(dl, n, Next(dl, n, w, moves[0]), moves[1..])
  }

  ghost function Beginning(dl: DecompressLen, n: Connection): (w: World)
    ensures Inv(dl, n, w)
  {
    World([], [], 0)
  }

  // ---------------------------------------------------------------- from the channel to the callback

  function IfResponse(): (give: Channels.Command -> seq<Bytes>) {
    (c: Channels.Command) => if c.Respond? then [c.payload] else []
  }

  /** The responses among the commands of one stream. */
  function ResponsesIn(commands: seq<Channels.Command>): (r: seq<Bytes>) {
    Collect(commands, IfResponse())
  }

  lemma {:induction false} SamePayloads(commands: seq<Channels.Command>)
    ensures Payloads(AsActions(commands)) == ResponsesIn(commands)
    decreases |commands|
  {
    if commands != [] {
      SamePayloads(commands[1..]);
      CollectConcat(IfAction()(commands[0]), AsActions(commands[1..]), IfMessage());
      OnePayload(commands[0]);
    }
  }

  lemma OnePayload(c: Channels.Command)
    ensures Payloads(IfAction()(c)) == IfResponse()(c)
  {
    if !c.Other? { CollectOne(IfAction()(c)[0], IfMessage()); }
  }

  /** A value and the snappy frame it was packed into. */
  datatype Value = Value(data: Bytes, snappy: Bytes)

  /** What `serverStreamSendResponse` puts on the channel for it. */
  function FrameOf(v: Value): (r: Built) {
    Build([0], |v.data|, v.snappy)
  }

  ghost predicate Reads(rd: Bridge.Reading, v: Value) {
    rd.known && rd.unpack(v.snappy) == Some(v.data) && rd.readable(v.data)
  }

  /** From end to end, over every interleaving of calls on all channels, reports and commands
      passed, and calls to the handler: the frames the peer has read from a live stream are
      the beginning of the responses sent on its channel, in order, without an error; and the
      callback over there makes of each the value it was built from. */
  lemma ResponsesCross(dl: DecompressLen, n: Connection, moves: seq<Move>, id: StreamId, rd: Bridge.Reading)
    requires AllPossible(dl, n, Beginning(dl, n), moves)
    requires id in HandlerOf(dl, After(dl, n, Beginning(dl, n), moves)).s.inbound
    ensures var w := After(dl, n, Beginning(dl, n), moves);
            var st := HandlerOf(dl, w).s.inbound[id];
            var sent := ResponsesIn(Channels.Owed(StreamOf(n, id), None, 0, w.events));
            st.state.Some? &&
            var read := Drain(DecoderOf(dl, RESPONSE_HEAD), SinkOf(st).wire);
            read.items <= sent && read.error.None?
            && forall i, v :: 0 <= i < |read.items| && FrameOf(v) == Built(sent[i]) && Reads(rd, v)
                 ==> Bridge.ReplyTo(rd, read.items[i]) == Bridge.Reply.Decoded(v.data)
  {
    hide Requests.Step, Payloads, Drain, DecoderOf, Channels.Owed, Channels.CommandsFor, Channels.Next, AllPossible;
    var w, t := After(dl, n, Beginning(dl, n), moves), StreamOf(n, id);
    var s := TableOf(dl, w);
    PeerReadsWhatIsHanded(dl, w.calls, id);
    assert HandedIn(dl, n, w, id);
    SamePayloads(Channels.CommandsFor(s.delivered, t));
    Channels.StreamsCloseOnce(w.events, t);
    Channels.StreamsAreSentTheirOwn(w.events, t);
    CollectPrefix(Channels.CommandsFor(s.delivered, t), Channels.CommandsFor(Channels.Log(s), t), IfResponse());
    forall v: Value | FrameOf(v).Built? && Reads(rd, v) ensures Bridge.ReplyTo(rd, FrameOf(v).bytes) == Bridge.Reply.Decoded(v.data) {
      ResponseFrameRoundTrip(0, |v.data|, v.snappy);
    }
  }
}
