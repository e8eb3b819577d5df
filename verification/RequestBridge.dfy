/** Requests across the language bridge: the timeout and protocol tables on the Rust side,
    the callback table on the Zig side, and what crosses between them. Each call over the
    bridge and each turn of the event loop is one step. */
module RequestBridge {
  import opened Basics
  import opened Frames

  type Bytes = seq<byte>
  type RequestId = nat
  type Protocol = nat

  /** What a callback is told. */
  datatype Notice = Success(id: RequestId, value: Bytes) | Completed(id: RequestId) | Failure(id: RequestId, code: nat)

  /** What the Zig side makes of a response: a value, an error, or an error it has no memory to report. */
  datatype Reply = Decoded(value: Bytes) | Rejected(code: nat) | RejectedSilently

  const TIMEOUT_CODE: nat := 408
  const OUTBOUND_ERROR_CODE: nat := 3
  const BAD_RESPONSE_CODE: nat := 2

  /** How the Zig side reads a response: whether it knows the protocol, what a snappy frame
      unpacks to, whether the unpacked bytes are a response of the method, and whether there
      is memory to copy the peer's error and to print one of its own. */
  datatype Reading = Reading(
    known: bool,
    unpack: Bytes -> Option<Bytes>,
    readable: Bytes -> bool,
    copies: bool,
    prints: bool)

  function Refused(rd: Reading, code: nat): (r: Reply) {
    if rd.prints then Rejected(code) else RejectedSilently
  }

  /** The verdict on a response frame. */
  function ReplyTo(rd: Reading, frame: Bytes): (r: Reply) {
    if !rd.known then Refused(rd, BAD_RESPONSE_CODE)
    else
      match ParseResponseFrame(frame)
      case NotParsed(_) => Refused(rd, BAD_RESPONSE_CODE)
      case Parsed(code, declared, payload) =>
        if code != 0 then (if rd.copies then Rejected(code) else Refused(rd, code))
        else
          match rd.unpack(payload)
          case None => Refused(rd, BAD_RESPONSE_CODE)
          case Some(data) =>
            if |data| != declared || !rd.readable(data) then Refused(rd, BAD_RESPONSE_CODE) else Reply.Decoded(data)
  }

  /** A frame the other side built comes out as the value it was built from, or as the error
      code it was built with; a frame that lies about its length is refused. */
  lemma BuiltResponsesAreRead(rd: Reading, code: byte, size: nat, snappy: Bytes, data: Bytes)
    requires rd.known && rd.copies && rd.prints && size <= MAX_RPC_MESSAGE_SIZE
    requires rd.unpack(snappy) == Some(data) && rd.readable(data)
    ensures ReplyTo(rd, Build([code], size, snappy).bytes)
            == if code != 0 then Rejected(code)
               else if size == |data| then Reply.Decoded(data)
               else Rejected(BAD_RESPONSE_CODE)
  {
    ResponseFrameRoundTrip(code, size, snappy);
  }

  /** A response is told as a value exactly when the protocol is known and the frame has code
      zero and unpacks to readable data of the declared length; another code is told as that
      code and anything else as code two, for want of memory not at all. */
  lemma ReplyIsDecodedIff(rd: Reading, frame: Bytes, data: Bytes)
    ensures ReplyTo(rd, frame) == Reply.Decoded(data)
            <==> rd.known && rd.readable(data)
                 && exists snappy :: ParseResponseFrame(frame) == Parsed(0, |data|, snappy) && rd.unpack(snappy) == Some(data)
    ensures !ReplyTo(rd, frame).Decoded? ==>
              var p := ParseResponseFrame(frame);
              var coded := rd.known && p.Parsed? && p.code != 0;
              ReplyTo(rd, frame)
              == if rd.prints || (coded && rd.copies) then Rejected(if coded then p.code else 2) else RejectedSilently
  {
    var p := ParseResponseFrame(frame);
    if ReplyTo(rd, frame) == Reply.Decoded(data) {
      assert p == Parsed(0, |data|, p.payload) && rd.unpack(p.payload) == Some(data);
    }
  }

  /** The four tables, and the history: the requests whose end crossed the bridge, in order;
      what callbacks were told, in order; the requests for which a callback was registered,
      and those of them registered after the end had crossed; and the callbacks dropped
      without word for lack of memory. */
  datatype State = State(
    counter: nat,
    timers: set<RequestId>,
    protocols: map<RequestId, Protocol>,
    callbacks: map<RequestId, Protocol>,
    ended: seq<RequestId>,
    told: seq<Notice>,
    registered: set<RequestId>,
    tooLate: set<RequestId>,
    dropped: set<RequestId>)

  datatype Event =
    | SendRequest(protocol: Protocol, dispatched: bool)
    | Register(id: RequestId, kind: Protocol)
    | TimerExpired(id: RequestId, memory: bool)
    | ResponseArrived(id: RequestId, reply: Reply)
    | StreamEnded(id: RequestId)
    | OutboundFailed(id: RequestId, memory: bool)

  /** A callback is registered once, for an id that was handed out; timers that expire are
      armed; streams report only on requests that were sent. */
  predicate Enabled(s: State, e: Event) {
    match e
    case SendRequest(_, _) => true
    case Register(id, _) => 1 <= id <= s.counter && id !in s.registered
    case TimerExpired(id, _) => id in s.timers
    case ResponseArrived(id, _) => 1 <= id <= s.counter
    case StreamEnded(id) => 1 <= id <= s.counter
    case OutboundFailed(id, _) => 1 <= id <= s.counter
  }

  // Zig side

  function ToldCompleted(s: State, id: RequestId): (r: State) {
    if id in s.callbacks then s.(callbacks := s.callbacks - {id}, told := s.told + [Completed(id)]) else s
  }

  function ToldError(s: State, id: RequestId, code: nat, memory: bool): (r: State) {
    if id !in s.callbacks then s
    else if memory then s.(callbacks := s.callbacks - {id}, told := s.told + [Failure(id, code)])
    else s.(callbacks := s.callbacks - {id}, dropped := s.dropped + {id})
  }

  function ToldReply(s: State, id: RequestId, reply: Reply): (r: State) {
    if id !in s.callbacks then s
    else
      match reply
      case Decoded(value) => s.(told := s.told + [Success(id, value)])
      case Rejected(code) => s.(callbacks := s.callbacks - {id}, told := s.told + [Failure(id, code)])
      case RejectedSilently => s
  }

  // Rust side

  function Disarmed(s: State, id: RequestId): (r: State) {
    s.(timers := s.timers - {id})
  }

  /** The protocol entry is the right to report the end; taking it out is using it up. */
  function Ended(s: State, id: RequestId): (r: State) {
    s.(protocols := s.protocols - {id}, ended := s.ended + [id])
  }

  function Next(s: State, e: Event): (r: State) {
    match e
    case SendRequest(protocol, dispatched) =>
      if dispatched then
        var id := s.counter + 1;
        s.(counter := id, timers := s.timers + {id}, protocols := s.protocols[id := protocol])
      else s
    case Register(id, kind) =>
      s.(callbacks := s.callbacks[id := kind], registered := s.registered + {id},
         tooLate := if id in s.ended then s.tooLate + {id} else s.tooLate)
    case TimerExpired(id, memory) =>
      var d := Disarmed(s, id);
      if id in s.protocols then ToldError(Ended(d, id), id, TIMEOUT_CODE, memory) else d
    case ResponseArrived(id, reply) =>
      ToldReply(s.(timers := s.timers + {id}), id, reply)
    case StreamEnded(id) =>
      var d := Disarmed(s, id);
      if id in s.protocols then ToldCompleted(Ended(d, id), id) else d
    case OutboundFailed(id, memory) =>
      var d := Disarmed(s, id);
      if id in s.protocols then ToldError(Ended(d, id), id, OUTBOUND_ERROR_CODE, memory) else d
  }

  class Tables {
    var requestIdCounter: nat
    var requestIdMap: set<RequestId>
    var requestProtocolMap: map<RequestId, Protocol>
    var rpcCallbacks: map<RequestId, Protocol>
    ghost var ended: seq<RequestId>
    ghost var told: seq<Notice>
    ghost var registered: set<RequestId>
    ghost var tooLate: set<RequestId>
    ghost var dropped: set<RequestId>

    ghost function View(): (s: State)
      reads this
    {
      State(requestIdCounter, requestIdMap, requestProtocolMap, rpcCallbacks, ended, told, registered, tooLate, dropped)
    }

    constructor ()
      ensures View() == Start()
    {
      requestIdCounter := 0;
      requestIdMap := {};
      requestProtocolMap := map[];
      rpcCallbacks := map[];
      ended, told, registered, tooLate, dropped := [], [], {}, {}, {};
    }

    method SendRpcRequest(protocol: Protocol, dispatched: bool) returns (id: RequestId)
      modifies this
      ensures View() == Next(old(View()), SendRequest(protocol, dispatched))
      ensures id == if dispatched then old(requestIdCounter) + 1 else 0
    {
      if !dispatched { return 0; }
      requestIdCounter := requestIdCounter + 1;
      id := requestIdCounter;
      requestIdMap := requestIdMap + {id};
      requestProtocolMap := requestProtocolMap[id := protocol];
    }

    method RegisterCallback(id: RequestId, kind: Protocol)
      modifies this
      ensures View() == Next(old(View()), Register(id, kind))
    {
      rpcCallbacks := rpcCallbacks[id := kind];
      registered := registered + {id};
      if id in ended { tooLate := tooLate + {id}; }
    }

    method OnTimerExpired(id: RequestId, memory: bool)
      modifies this
      ensures View() == Next(old(View()), TimerExpired(id, memory))
    {
      requestIdMap := requestIdMap - {id};
      if id in requestProtocolMap {
        requestProtocolMap := requestProtocolMap - {id};
        HandleRpcError(id, TIMEOUT_CODE, memory);
      }
    }

    /** A response arms the timer again even after the request has ended. */
    method OnResponse(id: RequestId, rd: Reading, frame: Bytes)
      modifies this
      ensures View() == Next(old(View()), ResponseArrived(id, ReplyTo(rd, frame)))
    {
      if id !in requestIdMap { requestIdMap := requestIdMap + {id}; }
      assert requestIdMap == old(requestIdMap) + {id};
      if id !in rpcCallbacks { return; }
      if !rd.known {
        NotifyRpcError(id, BAD_RESPONSE_CODE, rd.prints);
        return;
      }
      var frameInfo := ParseResponseFrame(frame);
      if frameInfo.NotParsed? {
        NotifyRpcError(id, BAD_RESPONSE_CODE, rd.prints);
        return;
      }
      if frameInfo.code != 0 {
        NotifyRpcError(id, frameInfo.code, rd.copies || rd.prints);
        return;
      }
      var data := rd.unpack(frameInfo.payload);
      if data.None? || |data.value| != frameInfo.declared || !rd.readable(data.value) {
        NotifyRpcError(id, BAD_RESPONSE_CODE, rd.prints);
        return;
      }
      told := told + [Success(id, data.value)];
    }

    /** An error of a response ends the callback, if there is memory for its message. */
    method NotifyRpcError(id: RequestId, code: nat, memory: bool)
      modifies `rpcCallbacks, `told
      ensures View() == ToldReply(old(View()), id, if memory then Rejected(code) else RejectedSilently)
    {
      if memory && id in rpcCallbacks {
        rpcCallbacks := rpcCallbacks - {id};
        told := told + [Failure(id, code)];
      }
    }

    method OnEndOfStream(id: RequestId)
      modifies this
      ensures View() == Next(old(View()), StreamEnded(id))
    {
      requestIdMap := requestIdMap - {id};
      if id in requestProtocolMap {
        requestProtocolMap := requestProtocolMap - {id};
        ended := ended + [id];
        if id in rpcCallbacks {
          rpcCallbacks := rpcCallbacks - {id};
          told := told + [Completed(id)];
        }
      }
    }

    method OnOutboundError(id: RequestId, memory: bool)
      modifies this
      ensures View() == Next(old(View()), OutboundFailed(id, memory))
    {
      requestIdMap := requestIdMap - {id};
      if id in requestProtocolMap {
        requestProtocolMap := requestProtocolMap - {id};
        HandleRpcError(id, OUTBOUND_ERROR_CODE, memory);
      }
    }

    /** The error crosses, and takes the callback whether or not it can be told. */
    method HandleRpcError(id: RequestId, code: nat, memory: bool)
      modifies this
      ensures View() == ToldError(old(View()).(ended := old(ended) + [id]), id, code, memory)
    {
      ended := ended + [id];
      if id in rpcCallbacks {
        rpcCallbacks := rpcCallbacks - {id};
        if memory { told := told + [Failure(id, code)]; } else { dropped := dropped + {id}; }
      }
    }
  }

  function Start(): (s: State) {
    State(0, {}, map[], map[], [], [], {}, {}, {})
  }

  function IfTo(id: RequestId): (give: Notice -> seq<Notice>) {
    (n: Notice) => if n.id == id then [n] else []
  }

  /** What one callback was told, in order. */
  function ToldTo(told: seq<Notice>, id: RequestId): (r: seq<Notice>) {
    Collect(told, IfTo(id))
  }

  lemma ToldToSnoc(told: seq<Notice>, n: Notice, id: RequestId)
    ensures ToldTo(told + [n], id) == ToldTo(told, id) + (if n.id == id then [n] else [])
  {
    CollectSnoc(told, n, IfTo(id));
  }

  predicate OnlySuccesses(story: seq<Notice>) {
    forall i :: 0 <= i < |story| ==> story[i].Success?
  }

  /** Successes and then one ending. */
  predicate Concluded(story: seq<Notice>) {
    story != [] && !story[|story| - 1].Success? && OnlySuccesses(story[..|story| - 1])
  }

  /** The callback of a request has been told what its place in the tables says. */
  ghost predicate Consistent(s: State, id: RequestId) {
    var story := ToldTo(s.told, id);
    if id !in s.registered then story == [] && id !in s.callbacks && id !in s.dropped
    else if id in s.callbacks || id in s.dropped then OnlySuccesses(story) && !(id in s.callbacks && id in s.dropped)
    else Concluded(story)
  }

  /** Ids are those handed out; every open request has a timer; a request is open or its end
      has crossed, once; a callback outlives the end only if it came after it. */
  ghost predicate TablesOk(s: State) {
    s.protocols.Keys <= s.timers
    && NoDup(s.ended)
    && (forall id :: id in s.protocols ==> id !in s.ended)
    && (forall id: RequestId :: 1 <= id <= s.counter <==> id in s.protocols || id in s.ended)
    && (forall id :: id in s.registered ==> 1 <= id <= s.counter)
    && (forall id :: id in s.callbacks && id in s.ended ==> id in s.tooLate)
  }

  ghost predicate Inv(s: State) {
    TablesOk(s) && forall id: RequestId :: Consistent(s, id)
  }

  /** A notice to the callback of `id` leaves the other callbacks as they were. */
  lemma OthersConsistent(s: State, r: State, id: RequestId)
    requires forall x: RequestId :: Consistent(s, x)
    requires r.told == s.told || (|r.told| == |s.told| + 1 && r.told[..|s.told|] == s.told && r.told[|s.told|].id == id)
    requires forall x: RequestId :: x != id ==>
               (x in r.callbacks <==> x in s.callbacks) && (x in r.registered <==> x in s.registered) && (x in s.dropped <==> x in r.dropped)
    requires Consistent(r, id)
    ensures forall x: RequestId :: Consistent(r, x)
  {
    hide ToldTo;
    forall x: RequestId ensures Consistent(r, x) {
      if x != id {
        assert Consistent(s, x);
        OtherHearsNothing(s, r, id, x);
      }
    }
  }

  lemma OtherHearsNothing(s: State, r: State, id: RequestId, x: RequestId)
    requires x != id
    requires r.told == s.told || (|r.told| == |s.told| + 1 && r.told[..|s.told|] == s.told && r.told[|s.told|].id == id)
    ensures ToldTo(r.told, x) == ToldTo(s.told, x)
  {
    if r.told != s.told {
      assert r.told == s.told + [r.told[|s.told|]];
      ToldToSnoc(s.told, r.told[|s.told|], x);
    }
  }

  /** Using up the right to report the end of a request. */
  lemma EndTables(s: State, r: State, id: RequestId)
    requires TablesOk(s) && id in s.protocols
    requires r.protocols == s.protocols - {id} && r.timers == s.timers - {id} && r.ended == s.ended + [id]
    requires r.counter == s.counter && r.registered == s.registered && r.tooLate == s.tooLate
    requires r.callbacks == s.callbacks - {id}
    ensures TablesOk(r)
  {}

  /** The ending reaches the callback if there is one. */
  lemma EndConsistent(s: State, r: State, id: RequestId, n: Notice)
    requires forall x: RequestId :: Consistent(s, x)
    requires !n.Success? && n.id == id
    requires r.callbacks == s.callbacks - {id} && r.registered == s.registered
    requires (id in s.callbacks && r.told == s.told + [n] && r.dropped == s.dropped)
             || (id in s.callbacks && r.told == s.told && r.dropped == s.dropped + {id})
             || (id !in s.callbacks && r.told == s.told && r.dropped == s.dropped)
    ensures forall x: RequestId :: Consistent(r, x)
  {
    hide ToldTo;
    var story := ToldTo(s.told, id);
    assert Consistent(s, id);
    ToldToSnoc(s.told, n, id);
    assert (story + [n])[..|story|] == story;
    OthersConsistent(s, r, id);
  }

  lemma ErrorKeeps(s: State, id: RequestId, code: nat, memory: bool)
    requires Inv(s) && id in s.protocols
    ensures Inv(ToldError(Ended(Disarmed(s, id), id), id, code, memory))
  {
    hide ToldTo, Consistent;
    var r := ToldError(Ended(Disarmed(s, id), id), id, code, memory);
    assert r.callbacks == s.callbacks - {id};
    EndTables(s, r, id);
    EndConsistent(s, r, id, Failure(id, code));
  }

  lemma CompletionKeeps(s: State, id: RequestId)
    requires Inv(s) && id in s.protocols
    ensures Inv(ToldCompleted(Ended(Disarmed(s, id), id), id))
  {
    hide ToldTo, Consistent;
    var r := ToldCompleted(Ended(Disarmed(s, id), id), id);
    assert r.callbacks == s.callbacks - {id};
    EndTables(s, r, id);
    EndConsistent(s, r, id, Completed(id));
  }

  lemma ReplyTables(s: State, id: RequestId, reply: Reply)
    requires TablesOk(s)
    ensures TablesOk(Next(s, ResponseArrived(id, reply)))
  {}

  /** A reply that is heard adds one notice, and a refusal ends the callback. */
  lemma ReplyConsistent(s: State, id: RequestId, reply: Reply)
    requires Consistent(s, id) && (id in s.callbacks ==> id in s.registered)
    ensures Consistent(Next(s, ResponseArrived(id, reply)), id)
  {
    hide ToldTo;
    var r := Next(s, ResponseArrived(id, reply));
    var story := ToldTo(s.told, id);
    if r.told != s.told {
      var n := r.told[|s.told|];
      ToldToSnoc(s.told, n, id);
      assert (story + [n])[..|story|] == story;
    }
  }

  lemma ReplyKeeps(s: State, id: RequestId, reply: Reply)
    requires Inv(s) && 1 <= id <= s.counter
    ensures Inv(Next(s, ResponseArrived(id, reply)))
  {
    assert Consistent(s, id);
    ReplyTables(s, id, reply);
    ReplyConsistent(s, id, reply);
    hide Consistent, TablesOk;
    OthersConsistent(s, Next(s, ResponseArrived(id, reply)), id);
  }

  lemma SendKeeps(s: State, protocol: Protocol)
    requires Inv(s)
    ensures Inv(Next(s, SendRequest(protocol, true)))
  {
    hide ToldTo;
    var r := Next(s, SendRequest(protocol, true));
    assert r.protocols.Keys == s.protocols.Keys + {r.counter};
    assert Consistent(s, r.counter);
    OthersConsistent(s, r, r.counter);
  }

  lemma RegisterKeeps(s: State, id: RequestId, kind: Protocol)
    requires Inv(s) && Enabled(s, Register(id, kind))
    ensures Inv(Next(s, Register(id, kind)))
  {
    hide ToldTo;
    assert Consistent(s, id);
    OthersConsistent(s, Next(s, Register(id, kind)), id);
  }

  /** A timer that was armed again after the end only disarms. */
  lemma LateTimerKeeps(s: State, id: RequestId)
    requires Inv(s) && id !in s.protocols
    ensures Inv(Disarmed(s, id))
  {
    hide ToldTo;
    forall x: RequestId ensures Consistent(Disarmed(s, id), x) { assert Consistent(s, x); }
  }

  /** Every step keeps the invariant, whatever the order of responses, ends, errors,
      timeouts and registrations. */
  lemma StepKeeps(s: State, e: Event)
    requires Inv(s) && Enabled(s, e)
    ensures Inv(Next(s, e))
  {
    hide Inv;
    match e
    case SendRequest(protocol, dispatched) => if dispatched { SendKeeps(s, protocol); }
    case Register(id, kind) => RegisterKeeps(s, id, kind);
    case TimerExpired(id, memory) =>
      if id in s.protocols { ErrorKeeps(s, id, TIMEOUT_CODE, memory); } else { LateTimerKeeps(s, id); }
    case ResponseArrived(id, reply) => ReplyKeeps(s, id, reply);
    case StreamEnded(id) =>
      if id in s.protocols { CompletionKeeps(s, id); } else { LateTimerKeeps(s, id); }
    case OutboundFailed(id, memory) =>
      if id in s.protocols { ErrorKeeps(s, id, OUTBOUND_ERROR_CODE, memory); } else { LateTimerKeeps(s, id); }
  }

  ghost predicate AllEnabled(s: State, events: seq<Event>)
    decreases |events|
  {
    events != [] ==> Enabled(s, events[0]) && AllEnabled(Next(s, events[0]), events[1..])
  }

  ghost function Run(s: State, events: seq<Event>): (r: State)
    decreases |events|
  {
    if events == [] then s else Run(Next(s, events[0]), events[1..])
  }

  lemma {:induction false} RunsKeep(s: State, events: seq<Event>)
    requires Inv(s) && AllEnabled(s, events)
    ensures Inv(Run(s, events))
    decreases |events|
  {
    hide Inv, Next;
    if events != [] {
      StepKeeps(s, events[0]);
      RunsKeep(Next(s, events[0]), events[1..]);
    }
  }

  lemma StartKeeps()
    ensures Inv(Start())
  {}

  /** In every run each request handed out is either open, and then its timeout is armed,
      or its end has crossed the bridge exactly once. */
  lemma OpenRequestsAreTimed(events: seq<Event>, id: RequestId)
    requires AllEnabled(Start(), events) && 1 <= id <= Run(Start(), events).counter
    ensures var s := Run(Start(), events);
            (id in s.protocols && id in s.timers && id !in s.ended)
            || (id !in s.protocols && id in s.ended && NoDup(s.ended))
  {
    StartKeeps();
    RunsKeep(Start(), events);
  }

  /** In every run each callback is told successes, then at most one ending, then nothing. */
  lemma CallbacksEndOnce(events: seq<Event>, id: RequestId)
    requires AllEnabled(Start(), events)
    ensures var s := Run(Start(), events); var story := ToldTo(s.told, id);
            OnlySuccesses(story) || Concluded(story)
    ensures var s := Run(Start(), events); id in s.callbacks ==> OnlySuccesses(ToldTo(s.told, id))
  {
    StartKeeps();
    RunsKeep(Start(), events);
    assert Consistent(Run(Start(), events), id);
  }

  /** In every run a registered callback has been told its end exactly when it has left the
      table without being dropped for lack of memory; and one that was registered before the
      end of its request crossed has left the table by the time the end has crossed. */
  lemma EndsReachCallbacks(events: seq<Event>, id: RequestId)
    requires AllEnabled(Start(), events) && id in Run(Start(), events).registered
    ensures var s := Run(Start(), events);
            (Concluded(ToldTo(s.told, id)) <==> id !in s.callbacks && id !in s.dropped)
            && (id in s.ended && id !in s.tooLate ==> id !in s.callbacks)
  {
    StartKeeps();
    RunsKeep(Start(), events);
    var s := Run(Start(), events);
    assert Consistent(s, id);
    EitherEnd(ToldTo(s.told, id));
  }

  lemma EitherEnd(story: seq<Notice>)
    ensures !(OnlySuccesses(story) && Concluded(story))
  {}

  /** An id is never handed out while an earlier request has it: each is larger than all before. */
  lemma RequestIdsAreFresh(events: seq<Event>, protocol: Protocol)
    requires AllEnabled(Start(), events)
    ensures var s := Run(Start(), events); var r := Next(s, SendRequest(protocol, true));
            r.counter !in s.protocols && r.counter !in s.ended && r.counter !in s.registered && r.counter in r.protocols
  {
    StartKeeps();
    RunsKeep(Start(), events);
  }

  // ---------------------------------------------------------------- one request on its own

  /** One request as its own events show it: it is open, and a callback listens to it. */
  datatype Side = Side(open: bool, listening: bool)

  function SideOf(s: State, id: RequestId): (side: Side) {
    Side(id in s.protocols, id in s.callbacks)
  }

  /** What an event has to say to the callback of `id`. */
  function Says(id: RequestId, side: Side, e: Event): (r: seq<Notice>) {
    if !side.listening then []
    else
      match e
      case ResponseArrived(x, Decoded(value)) => if x == id then [Success(id, value)] else []
      case ResponseArrived(x, Rejected(code)) => if x == id then [Failure(id, code)] else []
      case TimerExpired(x, memory) => if x == id && side.open && memory then [Failure(id, TIMEOUT_CODE)] else []
      case StreamEnded(x) => if x == id && side.open then [Completed(id)] else []
      case OutboundFailed(x, memory) => if x == id && side.open && memory then [Failure(id, OUTBOUND_ERROR_CODE)] else []
      case _ => []
  }

  predicate Ends(id: RequestId, e: Event) {
    e == StreamEnded(id) || ((e.TimerExpired? || e.OutboundFailed?) && e.id == id)
  }

  /** A request opens when its number is handed out, and closes with its first end. */
  function SideAfter(id: RequestId, side: Side, counter: nat, e: Event): (r: Side) {
    if e.SendRequest? && e.dispatched && id == counter + 1 then side.(open := true)
    else if e.Register? && e.id == id then side.(listening := true)
    else if e.ResponseArrived? && e.id == id && e.reply.Rejected? then side.(listening := false)
    else if Ends(id, e) && side.open then Side(false, false)
    else side
  }

  /** What a run has to say to one callback, told from the events of its own request alone. */
  function Owed(id: RequestId, side: Side, counter: nat, events: seq<Event>): (r: seq<Notice>)
    decreases |events|
  {
    if events == [] then []
    else
      var e := events[0];
      Says(id, side, e)
      + Owed(id, SideAfter(id, side, counter, e),
             if e.SendRequest? && e.dispatched then counter + 1 else counter, events[1..])
  }

  lemma StepSays(s: State, e: Event, id: RequestId)
    ensures var r := Next(s, e);
            ToldTo(r.told, id) == ToldTo(s.told, id) + Says(id, SideOf(s, id), e)
            && SideOf(r, id) == SideAfter(id, SideOf(s, id), s.counter, e)
  {
    hide ToldTo;
    SideFollows(s, e, id);
    var r := Next(s, e);
    assert ToldTo(s.told, id) + [] == ToldTo(s.told, id);
    if r.told != s.told {
      hide SideAfter;
      var n := r.told[|s.told|];
      assert r.told == s.told + [n];
      ToldToSnoc(s.told, n, id);
    }
  }

  lemma SideFollows(s: State, e: Event, id: RequestId)
    ensures SideOf(Next(s, e), id) == SideAfter(id, SideOf(s, id), s.counter, e)
  {}

  lemma {:induction false} RunSays(s: State, events: seq<Event>, id: RequestId)
    ensures ToldTo(Run(s, events).told, id) == ToldTo(s.told, id) + Owed(id, SideOf(s, id), s.counter, events)
    decreases |events|
  {
    hide ToldTo, Says, SideOf, SideAfter;
    if events == [] {
      assert ToldTo(s.told, id) + [] == ToldTo(s.told, id);
    } else {
      var e := events[0];
      var next := Next(s, e);
      var now := Says(id, SideOf(s, id), e);
      StepSays(s, e, id);
      RunSays(next, events[1..], id);
      var rest := Owed(id, SideOf(next, id), next.counter, events[1..]);
      assert ToldTo(s.told, id) + now + rest == ToldTo(s.told, id) + (now + rest);
    }
  }

  /** In every run each callback is told exactly what the events of its own request have to
      say, in their order, whatever happens to other requests. */
  lemma CallbacksHearTheirOwn(events: seq<Event>, id: RequestId)
    ensures ToldTo(Run(Start(), events).told, id) == Owed(id, Side(false, false), 0, events)
  {
    RunSays(Start(), events, id);
    assert ToldTo([], id) == [];
    assert [] + Owed(id, Side(false, false), 0, events) == Owed(id, Side(false, false), 0, events);
  }

  // ---------------------------------------------------------------- a callback that comes too late

  /** The response is refused, and there is memory to say so. */
  predicate Refuses(e: Event, id: RequestId) {
    e.ResponseArrived? && e.id == id && e.reply.Rejected?
  }

  ghost predicate SomeRefused(events: seq<Event>, id: RequestId) {
    exists i :: 0 <= i < |events| && Refuses(events[i], id)
  }

  lemma SomeRefusedCons(events: seq<Event>, id: RequestId)
    requires events != []
    ensures SomeRefused(events, id) <==> Refuses(events[0], id) || SomeRefused(events[1..], id)
  {
    if SomeRefused(events[1..], id) {
      var i :| 0 <= i < |events[1..]| && Refuses(events[1..][i], id);
      assert Refuses(events[i + 1], id);
    }
    if SomeRefused(events, id) {
      var i :| 0 <= i < |events| && Refuses(events[i], id);
      if i > 0 { assert Refuses(events[1..][i - 1], id); }
    }
  }

  lemma SuccessesInFront(now: seq<Notice>, later: seq<Notice>)
    requires OnlySuccesses(now)
    ensures OnlySuccesses(later) ==> OnlySuccesses(now + later)
    ensures Concluded(later) ==> Concluded(now + later)
  {
    if Concluded(later) { assert (now + later)[..|now + later| - 1] == now + later[..|later| - 1]; }
  }

  lemma LateSays(id: RequestId, counter: nat, e: Event)
    requires id <= counter && !(e.Register? && e.id == id)
    ensures var side := Side(false, true);
            if Refuses(e, id) then Says(id, side, e) == [Failure(id, e.reply.code)] && SideAfter(id, side, counter, e) == Side(false, false)
            else OnlySuccesses(Says(id, side, e)) && SideAfter(id, side, counter, e) == side
  {}

  /** From when its request is over, a callback hears of nothing but responses. */
  lemma {:induction false} HearsOnlyResponses(id: RequestId, counter: nat, events: seq<Event>)
    requires id <= counter && forall i :: 0 <= i < |events| ==> !(events[i].Register? && events[i].id == id)
    ensures var told := Owed(id, Side(false, true), counter, events);
            if SomeRefused(events, id) then Concluded(told) else OnlySuccesses(told)
    decreases |events|
  {
    hide SomeRefused, Says, SideAfter, Refuses;
    if events == [] {
      assert !SomeRefused(events, id) by { NoneRefused(id); }
    } else {
      var e, rest := events[0], events[1..];
      var counter' := if e.SendRequest? && e.dispatched then counter + 1 else counter;
      assert forall i :: 0 <= i < |rest| ==> rest[i] == events[i + 1];
      SomeRefusedCons(events, id);
      LateSays(id, counter, e);
      if Refuses(e, id) {
        HearsNothing(id, counter', rest);
      } else {
        HearsOnlyResponses(id, counter', rest);
        SuccessesInFront(Says(id, Side(false, true), e), Owed(id, Side(false, true), counter', rest));
      }
    }
  }

  lemma NoneRefused(id: RequestId)
    ensures !SomeRefused([], id)
  {}

  lemma {:induction false} HearsNothing(id: RequestId, counter: nat, events: seq<Event>)
    requires id <= counter && forall i :: 0 <= i < |events| ==> !(events[i].Register? && events[i].id == id)
    ensures Owed(id, Side(false, false), counter, events) == []
    decreases |events|
  {
    if events != [] {
      HearsNothing(id, if events[0].SendRequest? && events[0].dispatched then counter + 1 else counter, events[1..]);
    }
  }

  lemma {:induction false} RunInTwo(s: State, a: seq<Event>, b: seq<Event>)
    ensures Run(s, a + b) == Run(Run(s, a), b)
    ensures AllEnabled(s, a + b) <==> AllEnabled(s, a) && AllEnabled(Run(s, a), b)
    decreases |a|
  {
    if a == [] {
      assert a + b == b;
    } else {
      assert (a + b)[0] == a[0] && (a + b)[1..] == a[1..] + b;
      RunInTwo(Next(s, a[0]), a[1..], b);
    }
  }

  lemma {:induction false} RegisteredOnce(s: State, events: seq<Event>, id: RequestId)
    requires AllEnabled(s, events) && id in s.registered
    ensures forall i :: 0 <= i < |events| ==> !(events[i].Register? && events[i].id == id)
    decreases |events|
  {
    if events != [] {
      RegisteredOnce(Next(s, events[0]), events[1..], id);
      assert forall i :: 1 <= i < |events| ==> events[i] == events[1..][i - 1];
    }
  }

  /** In every run a callback registered after the end of its request has crossed is told an
      end if and only if a response that comes later still is refused; otherwise it stays in
      the table for good. */
  lemma LateCallbackConcludesIff(before: seq<Event>, id: RequestId, kind: Protocol, after: seq<Event>)
    requires AllEnabled(Start(), before + [Register(id, kind)] + after)
    requires id in Run(Start(), before).ended
    ensures var s := Run(Start(), before + [Register(id, kind)] + after);
            (Concluded(ToldTo(s.told, id)) <==> SomeRefused(after, id))
            && (Concluded(ToldTo(s.told, id)) <==> id !in s.callbacks)
  {
    var e := Register(id, kind);
    RunInTwo(Start(), before + [e], after);
    RunInTwo(Start(), before, [e]);
    StartKeeps();
    RunsKeep(Start(), before);
    var s1 := Run(Start(), before);
    assert [e][1..] == [];
    assert Enabled(s1, e) && Run(s1, [e]) == Next(s1, e);
    var s2 := Next(s1, e);
    assert Consistent(s1, id);
    RegisteredOnce(s2, after, id);
    RunSays(s2, after, id);
    HearsOnlyResponses(id, s2.counter, after);
    var told := Owed(id, Side(false, true), s2.counter, after);
    assert [] + told == told;
    EitherEnd(told);
    LateStays(s2, after, id);
  }

  /** The table follows: such a callback leaves it with a refused response and nothing else. */
  lemma {:induction false} LateStays(s: State, events: seq<Event>, id: RequestId)
    requires id <= s.counter && id !in s.protocols
    requires forall i :: 0 <= i < |events| ==> !(events[i].Register? && events[i].id == id)
    ensures id in Run(s, events).callbacks
            <==> id in s.callbacks && forall i :: 0 <= i < |events| ==> !Refuses(events[i], id)
    decreases |events|
  {
    if events != [] {
      assert forall i :: 1 <= i < |events| ==> events[i] == events[1..][i - 1];
      StepSays(s, events[0], id);
      LateStays(Next(s, events[0]), events[1..], id);
    }
  }

  /** Such a run: the request ends before its callback is entered, and nothing is ever told. */
  lemma LateCallbackHappens(kind: Protocol)
    ensures var events := [SendRequest(kind, true), StreamEnded(1), Register(1, kind)];
            AllEnabled(Start(), events) && 1 in Run(Start(), events).callbacks && ToldTo(Run(Start(), events).told, 1) == []
  {
    var a, b, c := SendRequest(kind, true), StreamEnded(1), Register(1, kind);
    assert [a, b, c][1..] == [b, c] && [b, c][1..] == [c] && [c][1..] == [];
    var s1 := Next(Start(), a);
    var s2 := Next(s1, b);
    assert Run(Start(), [a, b, c]) == Run(s1, [b, c]) == Run(s2, [c]) == Next(s2, c);
    assert AllEnabled(s2, [c]) && AllEnabled(s1, [b, c]);
  }
}
