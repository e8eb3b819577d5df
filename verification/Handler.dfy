/** The connection handler of the request/response protocol: one connection, its inbound
    and outbound streams, their timers and its event queue.

    Each callback and each stage of `poll` is a function on the handler's state, and a
    method of the class does what the source does and is proved equal to it. What the
    network answers is a parameter. */
module Handler {
  import opened Basics
  import opened SnappyScan
  import opened Codec

  type RequestId = nat
  type StreamId = nat
  type Bytes = seq<byte>

  datatype ConnectionState = Live | ShuttingDown | Closed

  datatype Failure = StreamTimedOut | Disconnected | StreamFailed

  datatype HandlerEvent =
    | RequestReceived(stream: StreamId, message: Bytes)
    | ResponseReceived(request: RequestId, message: Bytes)
    | EndOfStream(request: RequestId)
    | InboundError(stream: StreamId, failure: Failure)
    | OutboundError(request: RequestId, failure: Failure)
    | CloseConnection

  datatype ResponseAction = SendMessage(payload: Bytes) | CloseStream

  /** The writing half of a framed stream: encoded bytes not yet written, and the bytes
      that are on the wire. */
  datatype Sink = Sink(buffer: Bytes, wire: Bytes)

  /** `Busy` is the future that carries out one action; `started` once it has been polled. */
  datatype InboundState = Idle(sink: Sink) | Busy(sink: Sink, action: ResponseAction, started: bool)
  datatype InboundStream = InboundStream(state: Option<InboundState>, queue: seq<ResponseAction>)

  datatype OutboundState = PendingResponse | Closing
  datatype OutboundStream = OutboundStream(state: Option<OutboundState>, request: RequestId)
  datatype OpenInfo = OpenInfo(request: RequestId, message: Bytes)

  datatype State = State(
    events: seq<HandlerEvent>,
    inboundId: StreamId,
    outboundId: StreamId,
    inbound: map<StreamId, InboundStream>,
    inboundTimers: set<StreamId>,
    outbound: map<StreamId, OutboundStream>,
    outboundTimers: set<StreamId>,
    pending: seq<OpenInfo>,
    connection: ConnectionState)

  /** Every stream has its state in place between polls. */
  ghost predicate Present(s: State) {
    (forall id :: id in s.inbound ==> s.inbound[id].state.Some?)
    && (forall id :: id in s.outbound ==> s.outbound[id].state.Some?)
  }

  /** What writing to an inbound stream answers: so many bytes and not ready, all done, or failed. */
  datatype Io = Stall(bytes: nat) | Finish | Fault

  /** What reading from an outbound stream answers. */
  datatype OutIo = NotReady | Received(message: Bytes) | Finished | Failed

  /** What the network answers during one poll: the timers that have run out, and for each
      stream, in the order the maps are walked, its answers. */
  datatype Weather = Weather(
    inboundExpired: seq<StreamId>,
    outboundExpired: seq<StreamId>,
    inboundOrder: seq<StreamId>,
    inboundIo: StreamId -> seq<Io>,
    outboundOrder: seq<StreamId>,
    outboundIo: StreamId -> OutIo)

  ghost predicate Possible(s: State, w: Weather) {
    NoDup(w.inboundExpired) && Elements(w.inboundExpired) <= s.inboundTimers
    && NoDup(w.outboundExpired) && Elements(w.outboundExpired) <= s.outboundTimers
    && NoDup(w.inboundOrder) && Elements(w.inboundOrder) == s.inbound.Keys
    && NoDup(w.outboundOrder) && Elements(w.outboundOrder) == s.outbound.Keys
  }

  /** What poll returns. */
  datatype Poll = NothingYet | Notify(event: HandlerEvent) | OpenSubstream(info: OpenInfo)

  // ---------------------------------------------------------------- callbacks

  function NegotiatedInbound(s: State, message: Bytes): (r: State) {
    s.(inboundTimers := s.inboundTimers + {s.inboundId},
       inbound := s.inbound[s.inboundId := InboundStream(Some(Idle(Sink([], []))), [])],
       events := s.events + [RequestReceived(s.inboundId, message)],
       inboundId := s.inboundId + 1)
  }

  function NegotiatedOutbound(s: State, request: RequestId): (r: State) {
    s.(outboundTimers := s.outboundTimers + {s.outboundId},
       outbound := s.outbound[s.outboundId := OutboundStream(Some(PendingResponse), request)],
       outboundId := s.outboundId + 1)
  }

  function DialFailed(s: State, request: RequestId): (r: State) {
    s.(events := s.events + [OutboundError(request, Disconnected)])
  }

  function Asked(s: State, request: RequestId, message: Bytes): (r: State) {
    if s.connection.Live? then s.(pending := s.pending + [OpenInfo(request, message)])
    else s.(events := s.events + [OutboundError(request, Disconnected)])
  }

  function Queued(s: State, id: StreamId, action: ResponseAction): (r: State)
    requires id in s.inbound
  {
    s.(inbound := s.inbound[id := s.inbound[id].(queue := s.inbound[id].queue + [action])])
  }

  predicate TakesResponse(s: State, id: StreamId) {
    id in s.inbound && !s.connection.Closed?
  }

  function Responded(s: State, id: StreamId, payload: Bytes): (r: State) {
    if TakesResponse(s, id) then Queued(s, id, SendMessage(payload)) else s
  }

  function StreamClosed(s: State, id: StreamId): (r: State) {
    if id in s.inbound then Queued(s, id, CloseStream) else s
  }

  function ShutDown(s: State): (r: State) {
    if s.connection.Live? then s.(connection := ShuttingDown) else s
  }

  // ---------------------------------------------------------------- one inbound stream

  datatype SendResult = StillBusy(sink: Sink) | Sent(sink: Sink) | Ended | Broken

  /** One poll of the future that carries out an action. A message is encoded on the first
      poll, which clears the buffer, and the future ends when the buffer is flushed. */
  function PollSend(dl: DecompressLen, sink: Sink, action: ResponseAction, started: bool, io: Io): (r: SendResult) {
    if action.CloseStream? then
      match io case Stall(_) => StillBusy(sink) case Finish => Ended case Fault => Broken
    else if !started && Refusal(dl, RESPONSE_HEAD, action.payload).Some? then Broken
    else
      var buffer := if started then sink.buffer else action.payload;
      match io
      case Stall(n) =>
        var k := if n < |buffer| then n else |buffer|;
        StillBusy(Sink(buffer[k..], sink.wire + buffer[..k]))
      case Finish => Sent(Sink([], sink.wire + buffer))
      case Fault => Broken
  }

  /** What becomes of a stream in one poll: it stays, its timer armed anew if it got
      something out, or it goes, with the failure to report if there was one. */
  datatype Pumped = Kept(stream: InboundStream, rearmed: bool) | Gone(failure: Option<Failure>)

  /** The loop over one stream. Every turn takes an action off the queue. */
  function Pump(dl: DecompressLen, closed: bool, st: InboundStream, ios: seq<Io>, rearmed: bool): (r: Pumped)
    requires st.state.Some?
    ensures r.Kept? ==> r.stream.state.Some?
    decreases |st.queue|
  {
    var io := if ios == [] then Stall(0) else ios[0];
    match st.state.value
    case Idle(sink) =>
      if closed then
        match io case Stall(_) => Kept(st, rearmed) case Finish => Gone(None) case Fault => Gone(Some(StreamFailed))
      else if st.queue == [] then Kept(st, rearmed)
      else Pump(dl, closed, InboundStream(Some(Busy(sink, st.queue[0], false)), st.queue[1..]), ios, rearmed)
    case Busy(sink, action, started) =>
      match PollSend(dl, sink, action, started, io)
      case StillBusy(sink') => Kept(InboundStream(Some(Busy(sink', action, true)), st.queue), rearmed)
      case Ended => Gone(None)
      case Broken => Gone(Some(StreamFailed))
      case Sent(sink') =>
        if closed || st.queue == [] then Kept(InboundStream(Some(Idle(sink')), st.queue), true)
        else Pump(dl, closed, InboundStream(Some(Busy(sink', st.queue[0], false)), st.queue[1..]), Later(ios), true)
  }

  function Later(ios: seq<Io>): (r: seq<Io>) {
    if ios == [] then [] else ios[1..]
  }

  // ---------------------------------------------------------------- stages of poll

  function ExpireInbound(s: State, expired: seq<StreamId>): (r: State)
    decreases |expired|
  {
    if expired == [] then s
    else
      var id := expired[0];
      ExpireInbound(
        s.(inboundTimers := s.inboundTimers - {id},
           events := s.events + (if id in s.inbound then [InboundError(id, StreamTimedOut)] else [])),
        expired[1..])
  }

  /** Timers run out until one is found whose stream is still there; that one is reported. */
  function ExpireOutbound(s: State, expired: seq<StreamId>): (r: (State, Option<HandlerEvent>))
    decreases |expired|
  {
    if expired == [] then (s, None)
    else
      var id := expired[0];
      var s' := s.(outboundTimers := s.outboundTimers - {id});
      if id in s.outbound then
        (s'.(outbound := s.outbound - {id}), Some(OutboundError(s.outbound[id].request, StreamTimedOut)))
      else ExpireOutbound(s', expired[1..])
  }

  function PumpOne(dl: DecompressLen, s: State, id: StreamId, ios: seq<Io>): (r: State)
    requires id in s.inbound && s.inbound[id].state.Some?
    ensures r.inbound - {id} == s.inbound - {id}
  {
    match Pump(dl, s.connection.Closed?, s.inbound[id], ios, false)
    case Kept(st, rearmed) =>
      s.(inbound := s.inbound[id := st],
         inboundTimers := if rearmed then s.inboundTimers + {id} else s.inboundTimers)
    case Gone(failure) =>
      s.(inbound := s.inbound - {id},
         inboundTimers := s.inboundTimers - {id},
         events := s.events + (if failure.Some? then [InboundError(id, failure.value)] else []))
  }

  ghost predicate CanPump(s: State, order: seq<StreamId>) {
    NoDup(order) && forall i :: 0 <= i < |order| ==> order[i] in s.inbound && s.inbound[order[i]].state.Some?
  }

  lemma PumpOneLeavesOthers(dl: DecompressLen, s: State, order: seq<StreamId>, ios: seq<Io>)
    requires CanPump(s, order) && order != []
    ensures CanPump(PumpOne(dl, s, order[0], ios), order[1..])
  {
    var r := PumpOne(dl, s, order[0], ios);
    forall i | 0 <= i < |order[1..]| ensures order[1..][i] in r.inbound && r.inbound[order[1..][i]].state.Some? {
      var id := order[i + 1];
      assert id != order[0] && id in s.inbound - {order[0]};
      assert id in r.inbound - {order[0]};
    }
  }

  function PumpAll(dl: DecompressLen, s: State, order: seq<StreamId>, io: StreamId -> seq<Io>): (r: State)
    requires CanPump(s, order)
    decreases |order|
  {
    if order == [] then s
    else
      PumpOneLeavesOthers(dl, s, order, io(order[0]));
      PumpAll(dl, PumpOne(dl, s, order[0], io(order[0])), order[1..], io)
  }

  function Dropped(s: State, id: StreamId): (r: State) {
    s.(outbound := s.outbound - {id}, outboundTimers := s.outboundTimers - {id})
  }

  function ReadOne(s: State, id: StreamId, io: OutIo): (r: (State, Option<HandlerEvent>))
    requires id in s.outbound && s.outbound[id].state.Some?
    ensures r.0.outbound - {id} == s.outbound - {id}
    ensures r.1.None? ==> id in r.0.outbound && r.0.outbound[id].state.Some?
  {
    var request := s.outbound[id].request;
    if s.outbound[id].state.value.PendingResponse? then
      if s.connection.Closed? then
        (s.(outbound := s.outbound[id := OutboundStream(Some(Closing), request)],
            events := s.events + [OutboundError(request, Disconnected)]), None)
      else
        match io
        case NotReady => (s, None)
        case Received(m) => (s.(outboundTimers := s.outboundTimers + {id}), Some(ResponseReceived(request, m)))
        case Finished => (Dropped(s, id), Some(EndOfStream(request)))
        case Failed => (Dropped(s, id), Some(OutboundError(request, StreamFailed)))
    else if io.NotReady? then (s, None)
    else (Dropped(s, id), Some(EndOfStream(request)))
  }

  ghost predicate CanRead(s: State, order: seq<StreamId>) {
    NoDup(order) && forall i :: 0 <= i < |order| ==> order[i] in s.outbound && s.outbound[order[i]].state.Some?
  }

  lemma ReadOneLeavesOthers(s: State, order: seq<StreamId>, io: OutIo)
    requires CanRead(s, order) && order != []
    ensures CanRead(ReadOne(s, order[0], io).0, order[1..])
  {
    var r := ReadOne(s, order[0], io).0;
    forall i | 0 <= i < |order[1..]| ensures order[1..][i] in r.outbound && r.outbound[order[1..][i]].state.Some? {
      var id := order[i + 1];
      assert id != order[0] && id in s.outbound - {order[0]};
      assert id in r.outbound - {order[0]};
    }
  }

  /** Streams are read in turn until one has something to report. */
  function ReadAll(s: State, order: seq<StreamId>, io: StreamId -> OutIo): (r: (State, Option<HandlerEvent>))
    requires CanRead(s, order)
    decreases |order|
  {
    if order == [] then (s, None)
    else
      ReadOneLeavesOthers(s, order, io(order[0]));
      var (s', event) := ReadOne(s, order[0], io(order[0]));
      if event.Some? then (s', event) else ReadAll(s', order[1..], io)
  }

  predicate Drained(s: State) {
    s.connection.ShuttingDown? && s.inbound == map[] && s.outbound == map[] && s.pending == [] && s.events == []
  }

  /** The end of poll: a request waiting for a stream, the latest first, or the last step of a shutdown. */
  function Conclude(s: State): (r: (State, Poll)) {
    if s.pending != [] then
      (s.(pending := s.pending[..|s.pending| - 1]), OpenSubstream(s.pending[|s.pending| - 1]))
    else if Drained(s) then (s.(connection := Closed), Notify(CloseConnection))
    else (s, NothingYet)
  }

  lemma ExpiryLeavesStreams(s: State, expired: seq<StreamId>)
    ensures var r := ExpireInbound(s, expired);
            r == s.(inboundTimers := r.inboundTimers, events := r.events)
    decreases |expired|
  {}

  lemma {:induction false} OutboundExpiryLeavesStreams(s: State, expired: seq<StreamId>)
    ensures var (r, event) := ExpireOutbound(s, expired);
            r == s.(outboundTimers := r.outboundTimers, outbound := r.outbound)
            && (event.None? ==> r.outbound == s.outbound)
            && forall id :: id in r.outbound ==> id in s.outbound && r.outbound[id] == s.outbound[id]
    decreases |expired|
  {
    if expired != [] && expired[0] !in s.outbound {
      OutboundExpiryLeavesStreams(s.(outboundTimers := s.outboundTimers - {expired[0]}), expired[1..]);
    }
  }

  lemma {:induction false} PumpingLeavesOutbound(dl: DecompressLen, s: State, order: seq<StreamId>, io: StreamId -> seq<Io>)
    requires CanPump(s, order)
    ensures var r := PumpAll(dl, s, order, io);
            r == s.(inbound := r.inbound, inboundTimers := r.inboundTimers, events := r.events)
    decreases |order|
  {
    if order != [] {
      PumpOneLeavesOthers(dl, s, order, io(order[0]));
      PumpingLeavesOutbound(dl, PumpOne(dl, s, order[0], io(order[0])), order[1..], io);
    }
  }

  lemma {:induction false} ReadingLeavesInbound(s: State, order: seq<StreamId>, io: StreamId -> OutIo)
    requires CanRead(s, order)
    ensures var r := ReadAll(s, order, io).0;
            r.inbound == s.inbound && r.inboundId == s.inboundId && r.connection == s.connection
    decreases |order|
  {
    if order != [] {
      ReadOneLeavesOthers(s, order, io(order[0]));
      ReadingLeavesInbound(ReadOne(s, order[0], io(order[0])).0, order[1..], io);
    }
  }

  lemma StagesFit(dl: DecompressLen, s: State, w: Weather)
    requires Present(s) && Possible(s, w)
    ensures var s1 := ExpireInbound(s, w.inboundExpired);
            var (s2, event) := ExpireOutbound(s1, w.outboundExpired);
            event.None? ==> CanPump(s2, w.inboundOrder) && CanRead(PumpAll(dl, s2, w.inboundOrder, w.inboundIo), w.outboundOrder)
  {
    var s1 := ExpireInbound(s, w.inboundExpired);
    ExpiryLeavesStreams(s, w.inboundExpired);
    OutboundExpiryLeavesStreams(s1, w.outboundExpired);
    var (s2, event) := ExpireOutbound(s1, w.outboundExpired);
    if event.None? {
      assert forall i :: 0 <= i < |w.inboundOrder| ==> w.inboundOrder[i] in Elements(w.inboundOrder);
      assert forall i :: 0 <= i < |w.outboundOrder| ==> w.outboundOrder[i] in Elements(w.outboundOrder);
      PumpingLeavesOutbound(dl, s2, w.inboundOrder, w.inboundIo);
    }
  }

  /** One poll. Queued events go first; nothing else happens while there are any. */
  function Polled(dl: DecompressLen, s: State, w: Weather): (r: (State, Poll))
    requires Present(s) && Possible(s, w)
  {
    if s.events != [] then (s.(events := s.events[1..]), Notify(s.events[0]))
    else
      StagesFit(dl, s, w);
      var s1 := ExpireInbound(s, w.inboundExpired);
      var (s2, late) := ExpireOutbound(s1, w.outboundExpired);
      if late.Some? then (s2, Notify(late.value))
      else
        var (s3, event) := ReadAll(PumpAll(dl, s2, w.inboundOrder, w.inboundIo), w.outboundOrder, w.outboundIo);
        if event.Some? then (s3, Notify(event.value)) else Conclude(s3)
  }
}
