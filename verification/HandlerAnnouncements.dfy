/** Which inbound streams the handler announces: each one once, in order of their ids, and
    with the request that came on it. */
module HandlerAnnouncements {
  import opened Basics
  import opened SnappyScan
  import opened Handler
  import opened HandlerRequests
  import opened HandlerReports

  function IfRequest(): (give: HandlerEvent -> seq<StreamId>) {
    (e: HandlerEvent) => if e.RequestReceived? then [e.stream] else []
  }

  function Announced(log: seq<HandlerEvent>): (r: seq<StreamId>) {
    Collect(log, IfRequest())
  }

  predicate Silent(log: seq<HandlerEvent>) {
    forall i :: 0 <= i < |log| ==> !log[i].RequestReceived?
  }

  lemma AnnouncedAfter(log: seq<HandlerEvent>, last: seq<HandlerEvent>)
    requires Silent(last)
    ensures Announced(log + last) == Announced(log)
  {
    CollectConcat(log, last, IfRequest());
    CollectNothing(last, IfRequest());
    assert Announced(log) + [] == Announced(log);
  }

  lemma {:induction false} ExpirySilent(s: State, expired: seq<StreamId>)
    requires Silent(s.events)
    ensures Silent(ExpireInbound(s, expired).events)
    decreases |expired|
  {
    if expired != [] {
      var id := expired[0];
      ExpirySilent(s.(inboundTimers := s.inboundTimers - {id},
                      events := s.events + (if id in s.inbound then [InboundError(id, StreamTimedOut)] else [])), expired[1..]);
    }
  }

  lemma {:induction false} PumpSilent(dl: DecompressLen, s: State, order: seq<StreamId>, io: StreamId -> seq<Io>)
    requires CanPump(s, order) && Silent(s.events)
    ensures Silent(PumpAll(dl, s, order, io).events)
    decreases |order|
  {
    hide Pump;
    if order != [] {
      PumpOneLeavesOthers(dl, s, order, io(order[0]));
      PumpSilent(dl, PumpOne(dl, s, order[0], io(order[0])), order[1..], io);
    }
  }

  lemma {:induction false} ReadSilent(s: State, order: seq<StreamId>, io: StreamId -> OutIo)
    requires CanRead(s, order) && Silent(s.events)
    ensures var (r, event) := ReadAll(s, order, io);
            Silent(r.events) && (event.Some? ==> !event.value.RequestReceived?)
    decreases |order|
  {
    if order != [] {
      ReadOneLeavesOthers(s, order, io(order[0]));
      ReadSilent(ReadOne(s, order[0], io(order[0])).0, order[1..], io);
    }
  }

  lemma {:induction false} OutboundExpirySilent(s: State, expired: seq<StreamId>)
    ensures var (r, event) := ExpireOutbound(s, expired);
            r.events == s.events && (event.Some? ==> event.value.OutboundError?)
    decreases |expired|
  {
    if expired != [] && expired[0] !in s.outbound {
      OutboundExpirySilent(s.(outboundTimers := s.outboundTimers - {expired[0]}), expired[1..]);
    }
  }

  /** A poll that works through its stages announces nothing. */
  lemma WorkingPollSilent(dl: DecompressLen, s: State, w: Weather)
    requires Present(s) && Possible(s, w) && s.events == []
    ensures var (r, out) := Polled(dl, s, w);
            Silent(r.events) && (out.Notify? ==> !out.event.RequestReceived?) && r.inboundId == s.inboundId
  {
    hide ExpireInbound, ExpireOutbound, PumpAll, ReadAll, ReadOne;
    StagesFit(dl, s, w);
    var s1 := ExpireInbound(s, w.inboundExpired);
    ExpirySilent(s, w.inboundExpired);
    ExpiryLeavesStreams(s, w.inboundExpired);
    OutboundExpirySilent(s1, w.outboundExpired);
    OutboundExpiryLeavesStreams(s1, w.outboundExpired);
    var (s2, late) := ExpireOutbound(s1, w.outboundExpired);
    if late.None? {
      PumpSilent(dl, s2, w.inboundOrder, w.inboundIo);
      PumpingLeavesOutbound(dl, s2, w.inboundOrder, w.inboundIo);
      var s3 := PumpAll(dl, s2, w.inboundOrder, w.inboundIo);
      ReadSilent(s3, w.outboundOrder, w.outboundIo);
      ReadingLeavesInbound(s3, w.outboundOrder, w.outboundIo);
    }
  }

  function CountUp(n: nat): (r: seq<StreamId>) {
    seq(n, i => i)
  }

  ghost predicate AllAnnounced(run: Run) {
    Announced(run.delivered + run.s.events) == CountUp(run.s.inboundId)
  }

  lemma SilentStepAnnounces(run: Run, next: Run, last: seq<HandlerEvent>)
    requires AllAnnounced(run) && Silent(last)
    requires next.delivered == run.delivered && next.s.events == run.s.events + last && next.s.inboundId == run.s.inboundId
    ensures AllAnnounced(next)
  {
    assert next.delivered + next.s.events == run.delivered + run.s.events + last;
    AnnouncedAfter(run.delivered + run.s.events, last);
  }

  lemma InboundReadyAnnounces(run: Run, m: Bytes)
    requires AllAnnounced(run)
    ensures AllAnnounced(run.(s := NegotiatedInbound(run.s, m)))
  {
    var e := RequestReceived(run.s.inboundId, m);
    assert run.delivered + (run.s.events + [e]) == run.delivered + run.s.events + [e];
    CollectSnoc(run.delivered + run.s.events, e, IfRequest());
    assert CountUp(run.s.inboundId + 1) == CountUp(run.s.inboundId) + [run.s.inboundId];
  }

  lemma StepAnnounces(dl: DecompressLen, run: Run, c: Call)
    requires Enabled(run, c) && AllAnnounced(run)
    ensures AllAnnounced(Step(dl, run, c))
  {
    hide Polled, Possible, AllAnnounced;
    assert run.s.events + [] == run.s.events;
    match c
    case InboundReady(m) => InboundReadyAnnounces(run, m);
    case PollHandler(w) => PollAnnounces(dl, run, w);
    case GiveRequest(q, _) =>
      SilentStepAnnounces(run, Step(dl, run, c), if run.s.connection.Live? then [] else [OutboundError(q, Disconnected)]);
    case OutboundRefused(q) => SilentStepAnnounces(run, Step(dl, run, c), [OutboundError(q, Disconnected)]);
    case _ => SilentStepAnnounces(run, Step(dl, run, c), []);
  }

  lemma PollAnnounces(dl: DecompressLen, run: Run, w: Weather)
    requires Enabled(run, PollHandler(w)) && AllAnnounced(run)
    ensures AllAnnounced(Step(dl, run, PollHandler(w)))
  {
    hide Announced;
    if run.s.events != [] {
      assert run.delivered + [run.s.events[0]] + run.s.events[1..] == run.delivered + run.s.events;
    } else {
      hide Polled, Possible;
      var next := Step(dl, run, PollHandler(w));
      var (r, out) := Polled(dl, run.s, w);
      WorkingPollSilent(dl, run.s, w);
      var told := if out.Notify? then [out.event] else [];
      assert next.delivered + next.s.events == run.delivered + (told + r.events);
      AnnouncedAfter(run.delivered, told + r.events);
      assert run.delivered + [] == run.delivered;
    }
  }

  /** In every run the requests announced, delivered or queued, are those of streams
      0, 1, 2, and so on, each exactly once. */
  lemma {:induction false} EachStreamAnnouncedOnce(dl: DecompressLen, run: Run, calls: seq<Call>)
    requires AllAnnounced(run) && AllEnabled(dl, run, calls)
    ensures AllAnnounced(Steps(dl, run, calls))
    decreases |calls|
  {
    hide Step, AllAnnounced;
    if calls != [] {
      StepAnnounces(dl, run, calls[0]);
      EachStreamAnnouncedOnce(dl, Step(dl, run, calls[0]), calls[1..]);
    }
  }

  // ---------------------------------------------------------------- the requests themselves

  function IfHeard(): (give: HandlerEvent -> seq<Bytes>) {
    (e: HandlerEvent) => if e.RequestReceived? then [e.message] else []
  }

  function IfInbound(): (give: Call -> seq<Bytes>) {
    (c: Call) => if c.InboundReady? then [c.message] else []
  }

  lemma SilentSaysNothing(log: seq<HandlerEvent>)
    requires Silent(log)
    ensures Collect(log, IfHeard()) == []
  {
    CollectNothing(log, IfHeard());
  }

  lemma StepHears(dl: DecompressLen, run: Run, c: Call)
    requires Enabled(run, c)
    ensures Collect(Fresh(dl, run, c), IfHeard()) == IfInbound()(c)
  {
    hide Polled;
    match c
    case InboundReady(m) => CollectOne(RequestReceived(run.s.inboundId, m), IfHeard());
    case PollHandler(w) =>
      if run.s.events == [] { WorkingPollSilent(dl, run.s, w); }
      SilentSaysNothing(Fresh(dl, run, c));
    case _ => SilentSaysNothing(Fresh(dl, run, c));
  }

  lemma {:induction false} RunHears(dl: DecompressLen, run: Run, calls: seq<Call>)
    requires AllEnabled(dl, run, calls)
    ensures Collect(Log(Steps(dl, run, calls)), IfHeard()) == Collect(Log(run), IfHeard()) + Collect(calls, IfInbound())
    decreases |calls|
  {
    hide Step, Fresh, Log, Enabled;
    if calls == [] {
      assert Collect(Log(run), IfHeard()) + [] == Collect(Log(run), IfHeard());
    } else {
      LogCollects(dl, run, calls[0], IfHeard());
      StepHears(dl, run, calls[0]);
      RunHears(dl, Step(dl, run, calls[0]), calls[1..]);
      Associate(Collect(Log(run), IfHeard()), IfInbound()(calls[0]), Collect(calls[1..], IfInbound()));
    }
  }

  /** In every run the first stream is announced with the first request that came in, the
      second with the second, and so on: none is lost, repeated or altered. */
  lemma StreamsAnnouncedAsReceived(dl: DecompressLen, calls: seq<Call>)
    requires AllEnabled(dl, Start(), calls)
    ensures var log := Log(Steps(dl, Start(), calls));
            Collect(log, IfHeard()) == Collect(calls, IfInbound())
            && Announced(log) == CountUp(|Collect(calls, IfInbound())|)
  {
    hide Step, Enabled;
    assert Log(Start()) == [];
    RunHears(dl, Start(), calls);
    EachStreamAnnouncedOnce(dl, Start(), calls);
    SameLength(Log(Steps(dl, Start(), calls)));
  }

  lemma {:induction false} SameLength(log: seq<HandlerEvent>)
    ensures |Announced(log)| == |Collect(log, IfHeard())|
    decreases |log|
  {
    if log != [] { SameLength(log[1..]); }
  }
}
