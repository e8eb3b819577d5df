/** What every run of the handler keeps for the responses it was given: no action is lost,
    repeated or reordered, and the bytes on the wire are the payloads in order. */
module HandlerResponses {
  import opened Basics
  import opened SnappyScan
  import opened Framing
  import opened Codec
  import opened Handler
  import opened HandlerRequests

  /** For each inbound stream, the actions accepted for it and those carried out. */
  datatype Ledger = Ledger(accepted: map<StreamId, seq<ResponseAction>>, written: map<StreamId, seq<ResponseAction>>)

  /** The actions a stream finishes in one poll. */
  function Written(dl: DecompressLen, closed: bool, st: InboundStream, ios: seq<Io>): (r: seq<ResponseAction>)
    requires st.state.Some?
    decreases |st.queue|
  {
    match st.state.value
    case Idle(sink) =>
      if closed || st.queue == [] then []
      else Written(dl, closed, InboundStream(Some(Busy(sink, st.queue[0], false)), st.queue[1..]), ios)
    case Busy(sink, action, started) =>
      match PollSend(dl, sink, action, started, if ios == [] then Stall(0) else ios[0])
      case StillBusy(_) => []
      case Broken => []
      case Ended => [action]
      case Sent(sink') =>
        [action] + (if closed || st.queue == [] then []
                    else Written(dl, closed, InboundStream(Some(Busy(sink', st.queue[0], false)), st.queue[1..]), Later(ios)))
  }

  function InFlight(st: InboundStream): (r: seq<ResponseAction>)
    requires st.state.Some?
  {
    if st.state.value.Busy? then [st.state.value.action] else []
  }

  function IfMessage(): (give: ResponseAction -> seq<Bytes>) {
    (a: ResponseAction) => if a.SendMessage? then [a.payload] else []
  }

  function Payloads(actions: seq<ResponseAction>): (r: seq<Bytes>) {
    Collect(actions, IfMessage())
  }

  lemma PayloadsSnoc(actions: seq<ResponseAction>, a: ResponseAction)
    ensures Payloads(actions + [a]) == Payloads(actions) + (if a.SendMessage? then [a.payload] else [])
  {
    CollectSnoc(actions, a, IfMessage());
  }

  function SinkOf(st: InboundStream): (r: Sink)
    requires st.state.Some?
  {
    st.state.value.sink
  }

  /** What is on the wire and in the buffer: the payloads carried out, and of the one in
      flight the part written. Between actions, and before an action starts, the buffer is
      empty, so the encoder's clearing of it loses nothing. */
  ghost predicate OnWire(dl: DecompressLen, st: InboundStream, written: seq<ResponseAction>)
    requires st.state.Some?
  {
    var done, sink := Payloads(written), SinkOf(st);
    AllAccepted(dl, RESPONSE_HEAD, done) && CloseStream !in written
    && if st.state.value.Busy? && st.state.value.started && st.state.value.action.SendMessage? then
         var p := st.state.value.action.payload;
         Accepts(dl, RESPONSE_HEAD, p) && PartOut(sink, p, Flatten(done))
       else sink == Sink([], Flatten(done))
  }

  ghost predicate StreamKept(dl: DecompressLen, st: InboundStream, accepted: seq<ResponseAction>, written: seq<ResponseAction>) {
    st.state.Some? && accepted == written + InFlight(st) + st.queue && OnWire(dl, st, written)
  }

  function NextBusy(sink: Sink, queue: seq<ResponseAction>): (r: InboundStream)
    requires queue != []
  {
    InboundStream(Some(Busy(sink, queue[0], false)), queue[1..])
  }

  /** Starting the next queued action moves it and nothing else. */
  lemma StartNext(dl: DecompressLen, sink: Sink, queue: seq<ResponseAction>, accepted: seq<ResponseAction>, written: seq<ResponseAction>)
    requires queue != [] && StreamKept(dl, InboundStream(Some(Idle(sink)), queue), accepted, written)
    ensures StreamKept(dl, NextBusy(sink, queue), accepted, written)
  {
    assert written + [] + queue == written + [queue[0]] + queue[1..];
  }

  /** The rest of the payload goes out behind the part that is out. */
  lemma RestGoesOut(sink: Sink, p: Bytes, base: Bytes)
    requires PartOut(sink, p, base)
    ensures sink.wire + sink.buffer == base + p
  {
    var at := |p| - |sink.buffer|;
    Associate(base, p[..at], p[at..]);
    assert p[..at] + p[at..] == p;
  }

  lemma SentOnWire(dl: DecompressLen, sink: Sink, action: ResponseAction, started: bool, base: Bytes, after: Sink)
    requires PollSend(dl, sink, action, started, Finish) == Sent(after)
    requires if started && action.SendMessage? then PartOut(sink, action.payload, base) else sink == Sink([], base)
    ensures action.SendMessage? && after == Sink([], base + action.payload)
    ensures !started ==> Accepts(dl, RESPONSE_HEAD, action.payload)
  {
    if started && action.SendMessage? { RestGoesOut(sink, action.payload, base); }
  }

  lemma AcceptedSnoc(dl: DecompressLen, done: seq<Bytes>, p: Bytes)
    requires AllAccepted(dl, RESPONSE_HEAD, done) && Accepts(dl, RESPONSE_HEAD, p)
    ensures AllAccepted(dl, RESPONSE_HEAD, done + [p])
  {}

  /** Finishing a message puts it on the wire, whole. */
  lemma FinishMessage(dl: DecompressLen, st: InboundStream, sink: Sink, accepted: seq<ResponseAction>, written: seq<ResponseAction>)
    requires StreamKept(dl, st, accepted, written) && st.state.value.Busy?
    requires PollSend(dl, SinkOf(st), st.state.value.action, st.state.value.started, Finish) == Sent(sink)
    ensures StreamKept(dl, InboundStream(Some(Idle(sink)), st.queue), accepted, written + [st.state.value.action])
  {
    hide Refusal, PollSend, Payloads, Flatten, PartOut, AllAccepted;
    var Busy(before, a, started) := st.state.value;
    var done := Payloads(written);
    SentOnWire(dl, before, a, started, Flatten(done), sink);
    PayloadsSnoc(written, a);
    FlattenSnoc(done, a.payload);
    AcceptedSnoc(dl, done, a.payload);
    assert written + [a] + [] + st.queue == written + [a] + st.queue;
  }

  /** Writing `k` more bytes moves them from the buffer to the wire. */
  lemma PartMoves(p: Bytes, buffer: Bytes, k: nat, base: Bytes)
    requires k <= |buffer| <= |p| && buffer == p[|p| - |buffer|..]
    ensures buffer[k..] == p[|p| - |buffer[k..]|..]
    ensures base + p[..|p| - |buffer|] + buffer[..k] == base + p[..|p| - |buffer[k..]|]
  {
    var at := |p| - |buffer|;
    assert p[..at] + buffer[..k] == p[..at + k];
  }

  /** Of the payload `p`, what is not in the buffer is on the wire, behind `base`. */
  ghost predicate PartOut(sink: Sink, p: Bytes, base: Bytes) {
    |sink.buffer| <= |p| && sink.buffer == p[|p| - |sink.buffer|..] && sink.wire == base + p[..|p| - |sink.buffer|]
  }

  lemma StallMovesPart(dl: DecompressLen, sink: Sink, action: ResponseAction, started: bool, n: nat, base: Bytes, after: Sink)
    requires action.SendMessage? && (if started then PartOut(sink, action.payload, base) else sink == Sink([], base))
    requires PollSend(dl, sink, action, started, Stall(n)) == StillBusy(after)
    ensures PartOut(after, action.payload, base)
  {
    hide Refusal;
    var p := action.payload;
    var buffer := if started then sink.buffer else p;
    var k := if n < |buffer| then n else |buffer|;
    assert p[..0] == [] && base + [] == base && p[0..] == p;
    PartMoves(p, buffer, k, base);
  }

  /** A message that is not yet out keeps its unwritten part in the buffer. */
  lemma StallMessage(dl: DecompressLen, st: InboundStream, sink: Sink, n: nat, accepted: seq<ResponseAction>, written: seq<ResponseAction>)
    requires StreamKept(dl, st, accepted, written) && st.state.value.Busy?
    requires PollSend(dl, SinkOf(st), st.state.value.action, st.state.value.started, Stall(n)) == StillBusy(sink)
    ensures StreamKept(dl, InboundStream(Some(Busy(sink, st.state.value.action, true)), st.queue), accepted, written)
  {
    var Busy(before, a, started) := st.state.value;
    StallKeepsRest(dl, before, a, started, n);
    hide Refusal, Payloads, Flatten, PollSend, PartOut;
    if a.SendMessage? {
      StallMovesPart(dl, before, a, started, n, Flatten(Payloads(written)), sink);
    }
  }

  lemma StallKeepsRest(dl: DecompressLen, sink: Sink, action: ResponseAction, started: bool, n: nat)
    ensures var r := PollSend(dl, sink, action, started, Stall(n));
            (action.CloseStream? ==> r == StillBusy(sink))
            && (action.SendMessage? && !started && r.StillBusy? ==> Accepts(dl, RESPONSE_HEAD, action.payload))
  {}

  lemma NextInLine(dl: DecompressLen, st: InboundStream, accepted: seq<ResponseAction>, written: seq<ResponseAction>)
    requires StreamKept(dl, st, accepted, written)
    ensures written <= accepted
    ensures st.state.value.Busy? ==> written + [st.state.value.action] <= accepted
  {}

  /** The books after one poll of a stream: what it finished was next in line. */
  ghost predicate BooksAfter(dl: DecompressLen, p: Pumped, accepted: seq<ResponseAction>, written: seq<ResponseAction>) {
    match p
    case Kept(st, _) => StreamKept(dl, st, accepted, written)
    case Gone(_) => written <= accepted
  }

  /** One turn of the loop of a busy stream. */
  lemma BusyTurn(dl: DecompressLen, closed: bool, st: InboundStream, ios: seq<Io>, rearmed: bool)
    requires st.state.Some? && st.state.value.Busy?
    ensures var Busy(sink, action, started) := st.state.value;
            var out, done := Pump(dl, closed, st, ios, rearmed), Written(dl, closed, st, ios);
            match PollSend(dl, sink, action, started, if ios == [] then Stall(0) else ios[0])
            case StillBusy(sink') => out == Kept(InboundStream(Some(Busy(sink', action, true)), st.queue), rearmed) && done == []
            case Ended => out == Gone(None) && done == [action]
            case Broken => out == Gone(Some(StreamFailed)) && done == []
            case Sent(sink') =>
              if closed || st.queue == [] then out == Kept(InboundStream(Some(Idle(sink')), st.queue), true) && done == [action]
              else out == Pump(dl, closed, NextBusy(sink', st.queue), Later(ios), true)
                   && done == [action] + Written(dl, closed, NextBusy(sink', st.queue), Later(ios))
  {
    hide PollSend;
  }

  lemma {:induction false} BusyPumpKeeps(dl: DecompressLen, closed: bool, st: InboundStream, ios: seq<Io>, rearmed: bool,
                                         accepted: seq<ResponseAction>, written: seq<ResponseAction>)
    requires st.state.Some? && st.state.value.Busy? && StreamKept(dl, st, accepted, written)
    ensures BooksAfter(dl, Pump(dl, closed, st, ios, rearmed), accepted, written + Written(dl, closed, st, ios))
    decreases |st.queue|
  {
    hide PollSend, StreamKept, Pump, Written;
    var Busy(sink, action, started) := st.state.value;
    var io := if ios == [] then Stall(0) else ios[0];
    NextInLine(dl, st, accepted, written);
    BusyTurn(dl, closed, st, ios, rearmed);
    SendOutcomes(dl, sink, action, started, io);
    assert written + [] == written;
    match PollSend(dl, sink, action, started, io)
    case StillBusy(sink') => StallMessage(dl, st, sink', io.bytes, accepted, written);
    case Ended =>
    case Broken =>
    case Sent(sink') =>
      FinishMessage(dl, st, sink', accepted, written);
      if !closed && st.queue != [] {
        var next := NextBusy(sink', st.queue);
        StartNext(dl, sink', st.queue, accepted, written + [action]);
        BusyPumpKeeps(dl, closed, next, Later(ios), true, accepted, written + [action]);
        var more := Written(dl, closed, next, Later(ios));
        assert written + [action] + more == written + ([action] + more);
      }
  }

  lemma PumpKeeps(dl: DecompressLen, closed: bool, st: InboundStream, ios: seq<Io>,
                  accepted: seq<ResponseAction>, written: seq<ResponseAction>)
    requires st.state.Some? && StreamKept(dl, st, accepted, written)
    ensures BooksAfter(dl, Pump(dl, closed, st, ios, false), accepted, written + Written(dl, closed, st, ios))
  {
    hide PollSend, StreamKept;
    match st.state.value
    case Idle(sink) =>
      NextInLine(dl, st, accepted, written);
      assert written + [] == written;
      if !closed && st.queue != [] {
        assert st == InboundStream(Some(Idle(sink)), st.queue);
        StartNext(dl, sink, st.queue, accepted, written);
        BusyPumpKeeps(dl, closed, NextBusy(sink, st.queue), ios, false, accepted, written);
      }
    case Busy(_, _, _) => BusyPumpKeeps(dl, closed, st, ios, false, accepted, written);
  }

  lemma SendOutcomes(dl: DecompressLen, sink: Sink, action: ResponseAction, started: bool, io: Io)
    ensures var r := PollSend(dl, sink, action, started, io);
            (r.StillBusy? ==> io.Stall?) && (r.Sent? ==> io.Finish? && action.SendMessage?)
  {}

  // ---------------------------------------------------------------- whole runs

  /** Poll gets as far as the inbound streams. */
  ghost predicate Pumps(s: State, w: Weather) {
    s.events == [] && ExpireOutbound(ExpireInbound(s, w.inboundExpired), w.outboundExpired).1.None?
  }

  /** The books after a call. */
  ghost function Record(dl: DecompressLen, s: State, l: Ledger, c: Call): (r: Ledger)
    requires Balanced(dl, s, l)
  {
    match c
    case SendResponse(id, p) =>
      if TakesResponse(s, id) then l.(accepted := l.accepted[id := l.accepted[id] + [SendMessage(p)]]) else l
    case FinishStream(id) =>
      if id in s.inbound then l.(accepted := l.accepted[id := l.accepted[id] + [CloseStream]]) else l
    case InboundReady(_) =>
      Ledger(l.accepted[s.inboundId := []], l.written[s.inboundId := []])
    case PollHandler(w) =>
      if Pumps(s, w) then
        l.(written := map id | id in l.written ::
             if id in s.inbound then l.written[id] + Written(dl, s.connection.Closed?, s.inbound[id], w.inboundIo(id))
             else l.written[id])
      else l
    case _ => l
  }

  /** Every stream's books balance; a stream that is gone wrote a prefix of what was accepted. */
  ghost predicate Balanced(dl: DecompressLen, s: State, l: Ledger) {
    l.accepted.Keys == l.written.Keys
    && (forall id :: id in s.inbound ==> id in l.accepted && StreamKept(dl, s.inbound[id], l.accepted[id], l.written[id]))
    && (forall id :: id in l.accepted ==> l.written[id] <= l.accepted[id] && id < s.inboundId)
  }

  lemma QueueKeeps(dl: DecompressLen, st: InboundStream, a: ResponseAction, accepted: seq<ResponseAction>, written: seq<ResponseAction>)
    requires StreamKept(dl, st, accepted, written)
    ensures StreamKept(dl, st.(queue := st.queue + [a]), accepted + [a], written)
  {
    assert written + InFlight(st) + (st.queue + [a]) == written + InFlight(st) + st.queue + [a];
  }

  lemma QueueBalances(dl: DecompressLen, s: State, l: Ledger, id: StreamId, a: ResponseAction)
    requires Balanced(dl, s, l) && id in s.inbound
    ensures Balanced(dl, Queued(s, id, a), l.(accepted := l.accepted[id := l.accepted[id] + [a]]))
  {
    hide StreamKept;
    QueueKeeps(dl, s.inbound[id], a, l.accepted[id], l.written[id]);
  }

  lemma NewStreamKept(dl: DecompressLen)
    ensures StreamKept(dl, InboundStream(Some(Idle(Sink([], []))), []), [], [])
  {}

  /** What poll does to an inbound stream it does to it alone. */
  lemma {:induction false} PumpAllPointwise(dl: DecompressLen, s: State, order: seq<StreamId>, io: StreamId -> seq<Io>, id: StreamId)
    requires CanPump(s, order)
    ensures var r := PumpAll(dl, s, order, io);
            if id in order then
              match Pump(dl, s.connection.Closed?, s.inbound[id], io(id), false)
              case Kept(st, _) => id in r.inbound && r.inbound[id] == st
              case Gone(_) => id !in r.inbound
            else (id in r.inbound <==> id in s.inbound) && (id in s.inbound ==> r.inbound[id] == s.inbound[id])
    decreases |order|
  {
    hide Pump;
    if order != [] {
      var head := order[0];
      var mid := PumpOne(dl, s, head, io(head));
      PumpOneLeavesOthers(dl, s, order, io(head));
      PumpAllPointwise(dl, mid, order[1..], io, id);
      assert order == [head] + order[1..];
      if id != head {
        assert id in mid.inbound <==> id in mid.inbound - {head};
        assert id in s.inbound <==> id in s.inbound - {head};
        assert id in s.inbound ==> (mid.inbound - {head})[id] == (s.inbound - {head})[id];
      } else {
        assert head !in order[1..];
      }
    }
  }

  /** The stream came out of the poll as its own pumping left it. */
  ghost predicate PumpedAlone(dl: DecompressLen, s: State, r: State, w: Weather, id: StreamId)
    requires Present(s)
  {
    (id in r.inbound ==> id in s.inbound)
    && (id in s.inbound ==>
          match Pump(dl, s.connection.Closed?, s.inbound[id], w.inboundIo(id), false)
          case Kept(st, _) => id in r.inbound && r.inbound[id] == st
          case Gone(_) => id !in r.inbound)
  }

  /** The inbound streams after a poll. */
  lemma PolledInbound(dl: DecompressLen, s: State, w: Weather)
    requires Present(s) && Possible(s, w)
    ensures var r := Polled(dl, s, w).0;
            r.inboundId == s.inboundId && (s.connection.Closed? ==> r.connection.Closed?)
            && (!Pumps(s, w) ==> r.inbound == s.inbound)
            && (Pumps(s, w) ==> forall id :: PumpedAlone(dl, s, r, w, id))
  {
    hide Pump, PumpAll, ReadAll, ExpireInbound, ExpireOutbound;
    if s.events == [] {
      StagesFit(dl, s, w);
      var s1 := ExpireInbound(s, w.inboundExpired);
      var (s2, late) := ExpireOutbound(s1, w.outboundExpired);
      ExpiryLeavesStreams(s, w.inboundExpired);
      OutboundExpiryLeavesStreams(s1, w.outboundExpired);
      if late.None? {
        var s3 := PumpAll(dl, s2, w.inboundOrder, w.inboundIo);
        PumpingLeavesOutbound(dl, s2, w.inboundOrder, w.inboundIo);
        ReadingLeavesInbound(s3, w.outboundOrder, w.outboundIo);
        assert Polled(dl, s, w).0.inbound == s3.inbound;
        forall id: StreamId ensures PumpedAlone(dl, s, Polled(dl, s, w).0, w, id) {
          PumpAllPointwise(dl, s2, w.inboundOrder, w.inboundIo, id);
          assert id in w.inboundOrder <==> id in Elements(w.inboundOrder);
        }
      }
    }
  }

  lemma PollBalances(dl: DecompressLen, run: Run, l: Ledger, w: Weather)
    requires Enabled(run, PollHandler(w)) && Balanced(dl, run.s, l)
    ensures Balanced(dl, Step(dl, run, PollHandler(w)).s, Record(dl, run.s, l, PollHandler(w)))
  {
    hide Pump, Written, StreamKept, Polled, Possible, Pumps;
    var s, c := run.s, PollHandler(w);
    var r := Polled(dl, s, w).0;
    var l' := Record(dl, s, l, c);
    PolledInbound(dl, s, w);
    assert Step(dl, run, c).s == r;
    if Pumps(s, w) {
      forall id | id in s.inbound
        ensures BooksAfter(dl, Pump(dl, s.connection.Closed?, s.inbound[id], w.inboundIo(id), false), l.accepted[id], l'.written[id])
      {
        PumpKeeps(dl, s.connection.Closed?, s.inbound[id], w.inboundIo(id), l.accepted[id], l.written[id]);
      }
      forall id | id in r.inbound ensures id in s.inbound {
        assert PumpedAlone(dl, s, r, w, id);
      }
      forall id | id in r.inbound ensures StreamKept(dl, r.inbound[id], l'.accepted[id], l'.written[id]) {
        assert PumpedAlone(dl, s, r, w, id);
      }
      forall id | id in l'.accepted ensures l'.written[id] <= l'.accepted[id] {
        assert PumpedAlone(dl, s, r, w, id);
        if id in r.inbound { NextInLine(dl, r.inbound[id], l'.accepted[id], l'.written[id]); }
      }
    }
  }

  lemma StepBalances(dl: DecompressLen, run: Run, l: Ledger, c: Call)
    requires Enabled(run, c) && Balanced(dl, run.s, l)
    ensures Balanced(dl, Step(dl, run, c).s, Record(dl, run.s, l, c))
  {
    hide StreamKept, Polled;
    match c
    case SendResponse(id, p) =>
      if TakesResponse(run.s, id) { QueueBalances(dl, run.s, l, id, SendMessage(p)); }
    case FinishStream(id) =>
      if id in run.s.inbound { QueueBalances(dl, run.s, l, id, CloseStream); }
    case InboundReady(_) => NewStreamKept(dl);
    case PollHandler(w) => PollBalances(dl, run, l, w);
    case _ =>
  }

  ghost function Records(dl: DecompressLen, run: Run, l: Ledger, calls: seq<Call>): (r: Ledger)
    requires AllEnabled(dl, run, calls) && Balanced(dl, run.s, l)
    ensures Balanced(dl, Steps(dl, run, calls).s, r)
    decreases |calls|
  {
    hide Step, Balanced, Record, Enabled;
    if calls == [] then l
    else
      StepBalances(dl, run, l, calls[0]);
      Records(dl, Step(dl, run, calls[0]), Record(dl, run.s, l, calls[0]), calls[1..])
  }

  // ---------------------------------------------------------------- results

  function NoBooks(): (l: Ledger) {
    Ledger(map[], map[])
  }

  /** In every run, for every live inbound stream: what was carried out, what is in flight
      and what is queued are the accepted actions, in order, each once. */
  lemma ActionsAreConserved(dl: DecompressLen, calls: seq<Call>, id: StreamId)
    requires AllEnabled(dl, HandlerRequests.Start(), calls)
    requires id in Steps(dl, HandlerRequests.Start(), calls).s.inbound
    ensures var s := Steps(dl, HandlerRequests.Start(), calls).s;
            var l := Records(dl, HandlerRequests.Start(), NoBooks(), calls);
            var st := s.inbound[id];
            id in l.accepted && id in l.written && st.state.Some?
            && l.accepted[id] == l.written[id] + InFlight(st) + st.queue
            && (st.state.value.Busy? && !st.state.value.started ==> st.state.value.sink.buffer == [])
  {
    hide Step, Record;
    var s := Steps(dl, HandlerRequests.Start(), calls).s;
    var l := Records(dl, HandlerRequests.Start(), NoBooks(), calls);
    assert StreamKept(dl, s.inbound[id], l.accepted[id], l.written[id]);
  }

  /** What the peer reads off the wire of a stream is what was accepted for it, in order:
      at least every payload carried out, never anything else, never an error. */
  lemma PeerReadsAcceptedInOrder(dl: DecompressLen, st: InboundStream, accepted: seq<ResponseAction>, written: seq<ResponseAction>)
    requires StreamKept(dl, st, accepted, written)
    ensures var read := Drain(DecoderOf(dl, RESPONSE_HEAD), SinkOf(st).wire);
            Payloads(written) <= read.items <= Payloads(accepted) && read.error.None?
  {
    hide Refusal, Drain, DecoderOf;
    var done, sink := Payloads(written), SinkOf(st);
    CollectPrefix(written, accepted, IfMessage());
    if st.state.value.Busy? && st.state.value.started && st.state.value.action.SendMessage? {
      var p := st.state.value.action.payload;
      var part := p[..|p| - |sink.buffer|];
      PayloadsSnoc(written, st.state.value.action);
      CollectPrefix(written + [st.state.value.action], accepted, IfMessage());
      if part == p {
        FlattenSnoc(done, p);
        assert sink.wire == Flatten(done + [p]) + [];
        ReaderFollowsWriter(dl, RESPONSE_HEAD, done + [p], [], []);
      } else {
        ReaderFollowsWriter(dl, RESPONSE_HEAD, done, p, part);
      }
    } else {
      assert sink.wire == Flatten(done) + [];
      ReaderFollowsWriter(dl, RESPONSE_HEAD, done, [], []);
    }
  }

  /** End to end, in every run: the responses the peer's decoder has taken from a live
      stream are a prefix of the payloads handed to the handler for that stream. */
  lemma ResponsesArriveInOrder(dl: DecompressLen, calls: seq<Call>, id: StreamId)
    requires AllEnabled(dl, HandlerRequests.Start(), calls)
    requires id in Steps(dl, HandlerRequests.Start(), calls).s.inbound
    ensures var s := Steps(dl, HandlerRequests.Start(), calls).s;
            var l := Records(dl, HandlerRequests.Start(), NoBooks(), calls);
            id in l.accepted && s.inbound[id].state.Some? &&
            var read := Drain(DecoderOf(dl, RESPONSE_HEAD), SinkOf(s.inbound[id]).wire);
            Payloads(l.written[id]) <= read.items <= Payloads(l.accepted[id]) && read.error.None?
  {
    hide Step, Record, Drain;
    var s := Steps(dl, HandlerRequests.Start(), calls).s;
    var l := Records(dl, HandlerRequests.Start(), NoBooks(), calls);
    PeerReadsAcceptedInOrder(dl, s.inbound[id], l.accepted[id], l.written[id]);
  }
}
