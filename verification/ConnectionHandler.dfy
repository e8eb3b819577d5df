/** The connection handler as the object it is: fields updated in place by callbacks and
    by the nested loops of `poll`. */
module ConnectionHandler {
  import opened Basics
  import opened SnappyScan
  import opened Codec
  import opened Handler

  class ReqRespConnectionHandler {
    var behaviourEvents: seq<HandlerEvent>
    var inboundStreamId: StreamId
    var outboundStreamId: StreamId
    var inboundStreams: map<StreamId, InboundStream>
    var inboundStreamTimeouts: set<StreamId>
    var outboundStreams: map<StreamId, OutboundStream>
    var outboundStreamTimeouts: set<StreamId>
    var pendingOutboundStreams: seq<OpenInfo>
    var connectionState: ConnectionState

    ghost function View(): (s: State)
      reads this
    {
      State(behaviourEvents, inboundStreamId, outboundStreamId, inboundStreams, inboundStreamTimeouts,
            outboundStreams, outboundStreamTimeouts, pendingOutboundStreams, connectionState)
    }

    constructor ()
      ensures View() == State([], 0, 0, map[], {}, map[], {}, [], Live)
    {
      behaviourEvents := [];
      inboundStreamId := 0;
      outboundStreamId := 0;
      inboundStreams := map[];
      inboundStreamTimeouts := {};
      outboundStreams := map[];
      outboundStreamTimeouts := {};
      pendingOutboundStreams := [];
      connectionState := Live;
    }

    method OnFullyNegotiatedInbound(message: Bytes)
      modifies this
      ensures View() == NegotiatedInbound(old(View()), message)
    {
      inboundStreamTimeouts := inboundStreamTimeouts + {inboundStreamId};
      inboundStreams := inboundStreams[inboundStreamId := InboundStream(Some(Idle(Sink([], []))), [])];
      behaviourEvents := behaviourEvents + [RequestReceived(inboundStreamId, message)];
      inboundStreamId := inboundStreamId + 1;
    }

    method OnFullyNegotiatedOutbound(info: OpenInfo)
      modifies this
      ensures View() == NegotiatedOutbound(old(View()), info.request)
    {
      outboundStreamTimeouts := outboundStreamTimeouts + {outboundStreamId};
      outboundStreams := outboundStreams[outboundStreamId := OutboundStream(Some(PendingResponse), info.request)];
      outboundStreamId := outboundStreamId + 1;
    }

    method OnDialUpgradeError(info: OpenInfo)
      modifies this
      ensures View() == DialFailed(old(View()), info.request)
    {
      behaviourEvents := behaviourEvents + [OutboundError(info.request, Disconnected)];
    }

    method Request(request: RequestId, message: Bytes)
      modifies this
      ensures View() == Asked(old(View()), request, message)
    {
      if connectionState == Live {
        pendingOutboundStreams := pendingOutboundStreams + [OpenInfo(request, message)];
      } else {
        behaviourEvents := behaviourEvents + [OutboundError(request, Disconnected)];
      }
    }

    method Response(id: StreamId, payload: Bytes)
      modifies this
      ensures View() == Responded(old(View()), id, payload)
    {
      if id !in inboundStreams { return; }
      if connectionState == Closed { return; }
      var stream := inboundStreams[id];
      inboundStreams := inboundStreams[id := stream.(queue := stream.queue + [SendMessage(payload)])];
    }

    method OnCloseStream(id: StreamId)
      modifies this
      ensures View() == StreamClosed(old(View()), id)
    {
      if id !in inboundStreams { return; }
      var stream := inboundStreams[id];
      inboundStreams := inboundStreams[id := stream.(queue := stream.queue + [CloseStream])];
    }

    method Shutdown()
      modifies this
      ensures View() == ShutDown(old(View()))
    {
      if connectionState == ShuttingDown || connectionState == Closed { return; }
      connectionState := ShuttingDown;
    }

    /** Only timers are consumed; a stream whose timer ran out stays in the map. */
    method ExpireInboundTimers(expired: seq<StreamId>)
      modifies this
      ensures View() == ExpireInbound(old(View()), expired)
    {
      var i := 0;
      assert expired[0..] == expired;
      while i < |expired|
        invariant 0 <= i <= |expired|
        invariant ExpireInbound(View(), expired[i..]) == ExpireInbound(old(View()), expired)
      {
        var id := expired[i];
        assert expired[i..][1..] == expired[i + 1..];
        inboundStreamTimeouts := inboundStreamTimeouts - {id};
        if id in inboundStreams {
          behaviourEvents := behaviourEvents + [InboundError(id, StreamTimedOut)];
        } else {
          assert behaviourEvents + [] == behaviourEvents;
        }
        i := i + 1;
      }
    }

    method ExpireOutboundTimers(expired: seq<StreamId>) returns (event: Option<HandlerEvent>)
      modifies this
      ensures (View(), event) == ExpireOutbound(old(View()), expired)
    {
      var i := 0;
      assert expired[0..] == expired;
      while i < |expired|
        invariant 0 <= i <= |expired|
        invariant ExpireOutbound(View(), expired[i..]) == ExpireOutbound(old(View()), expired)
      {
        var id := expired[i];
        assert expired[i..][1..] == expired[i + 1..];
        outboundStreamTimeouts := outboundStreamTimeouts - {id};
        if id in outboundStreams {
          var request := outboundStreams[id].request;
          outboundStreams := outboundStreams - {id};
          return Some(OutboundError(request, StreamTimedOut));
        }
        i := i + 1;
      }
      return None;
    }

    /** The loop over one inbound stream. Its state is taken out and put back, or not when
        the stream is to go; it is always there to be taken. */
    static method PumpStream(dl: DecompressLen, closed: bool, st: InboundStream, ios: seq<Io>) returns (r: Pumped)
      requires st.state.Some?
      ensures r == Pump(dl, closed, st, ios, false)
    {
      var state, queue, left, rearmed := st.state, st.queue, ios, false;
      while true
        invariant state.Some?
        invariant Pump(dl, closed, InboundStream(state, queue), left, rearmed) == Pump(dl, closed, st, ios, false)
        decreases |queue|
      {
        assert state.Some?;
        var taken := state.value;
        var io := if left == [] then Stall(0) else left[0];
        match taken {
          case Idle(sink) =>
            if closed {
              match io {
                case Stall(_) => return Kept(InboundStream(Some(taken), queue), rearmed);
                case Finish => return Gone(None);
                case Fault => return Gone(Some(StreamFailed));
              }
            }
            if queue == [] { return Kept(InboundStream(Some(taken), queue), rearmed); }
            state, queue := Some(Busy(sink, queue[0], false)), queue[1..];
          case Busy(sink, action, started) =>
            var result := PollSend(dl, sink, action, started, io);
            match result {
              case StillBusy(sink') => return Kept(InboundStream(Some(Busy(sink', action, true)), queue), rearmed);
              case Ended => return Gone(None);
              case Broken => return Gone(Some(StreamFailed));
              case Sent(sink') =>
                rearmed := true;
                if closed || queue == [] { return Kept(InboundStream(Some(Idle(sink')), queue), rearmed); }
                state, queue, left := Some(Busy(sink', queue[0], false)), queue[1..], Later(left);
            }
        }
      }
    }

    /** One stream of the map walk; a stream that is to go is only noted, with its state gone. */
    method PumpInto(dl: DecompressLen, id: StreamId, ios: seq<Io>, toRemove: set<StreamId>) returns (next: set<StreamId>)
      requires id in inboundStreams && inboundStreams[id].state.Some? && id !in toRemove
      modifies `inboundStreams, `inboundStreamTimeouts, `behaviourEvents
      ensures View().(inbound := inboundStreams - next)
              == PumpOne(dl, old(View()).(inbound := old(inboundStreams) - toRemove), id, ios)
      ensures inboundStreams.Keys == old(inboundStreams).Keys && inboundStreams - {id} == old(inboundStreams) - {id}
      ensures toRemove <= next <= toRemove + {id}
    {
      hide PollSend, Pump;
      next := toRemove;
      var pumped := PumpStream(dl, connectionState == Closed, inboundStreams[id], ios);
      match pumped {
        case Kept(stream, rearmed) =>
          inboundStreams := inboundStreams[id := stream];
          if rearmed { inboundStreamTimeouts := inboundStreamTimeouts + {id}; }
          assert inboundStreams - next == (old(inboundStreams) - toRemove)[id := stream];
        case Gone(failure) =>
          next := next + {id};
          inboundStreams := inboundStreams[id := inboundStreams[id].(state := None)];
          inboundStreamTimeouts := inboundStreamTimeouts - {id};
          if failure.Some? { behaviourEvents := behaviourEvents + [InboundError(id, failure.value)]; }
          assert inboundStreams - next == (old(inboundStreams) - toRemove) - {id};
          assert old(behaviourEvents) + [] == old(behaviourEvents);
      }
    }

    method PumpInbound(dl: DecompressLen, order: seq<StreamId>, io: StreamId -> seq<Io>)
      requires CanPump(View(), order)
      modifies `inboundStreams, `inboundStreamTimeouts, `behaviourEvents
      ensures View() == PumpAll(dl, old(View()), order, io)
    {
      hide PumpOne;
      var toRemove: set<StreamId> := {};
      assert inboundStreams - {} == inboundStreams;
      assert order[0..] == order;
      for i := 0 to |order|
        invariant toRemove <= Elements(order[..i])
        invariant forall j :: i <= j < |order| ==> order[j] in inboundStreams && inboundStreams[order[j]].state.Some?
        invariant CanPump(View().(inbound := inboundStreams - toRemove), order[i..])
        invariant PumpAll(dl, View().(inbound := inboundStreams - toRemove), order[i..], io) == PumpAll(dl, old(View()), order, io)
      {
        var id := order[i];
        assert order[i] !in order[..i];
        assert order[i..][0] == id && order[i..][1..] == order[i + 1..];
        ghost var before := View().(inbound := inboundStreams - toRemove);
        ghost var streams := inboundStreams;
        PumpOneLeavesOthers(dl, before, order[i..], io(id));
        toRemove := PumpInto(dl, id, io(id), toRemove);
        assert forall j :: i < j < |order| ==> order[j] in streams - {id};
      }
      inboundStreams := inboundStreams - toRemove;
    }

    /** The walk over the outbound streams. Each key is still in the map, with its state. */
    method ReadOutbound(order: seq<StreamId>, io: StreamId -> OutIo) returns (event: Option<HandlerEvent>)
      requires CanRead(View(), order)
      modifies `outboundStreams, `outboundStreamTimeouts, `behaviourEvents
      ensures (View(), event) == ReadAll(old(View()), order, io)
    {
      assert order[0..] == order;
      for i := 0 to |order|
        invariant CanRead(View(), order[i..])
        invariant ReadAll(View(), order[i..], io) == ReadAll(old(View()), order, io)
      {
        var id := order[i];
        assert order[i..][0] == id && order[i..][1..] == order[i + 1..];
        ReadOneLeavesOthers(View(), order[i..], io(id));
        event := ReadStream(id, io(id));
        if event.Some? { return; }
      }
      event := None;
    }

    method ReadStream(id: StreamId, io: OutIo) returns (event: Option<HandlerEvent>)
      requires id in outboundStreams && outboundStreams[id].state.Some?
      modifies `outboundStreams, `outboundStreamTimeouts, `behaviourEvents
      ensures (View(), event) == ReadOne(old(View()), id, io)
    {
      var request := outboundStreams[id].request;
      var state := outboundStreams[id].state.value;
      outboundStreams := outboundStreams[id := outboundStreams[id].(state := None)];
      match state {
        case PendingResponse =>
          if connectionState == Closed {
            outboundStreams := outboundStreams[id := outboundStreams[id].(state := Some(Closing))];
            behaviourEvents := behaviourEvents + [OutboundError(request, Disconnected)];
            assert outboundStreams == old(outboundStreams)[id := OutboundStream(Some(Closing), request)];
            return None;
          }
          match io {
            case Finished =>
              outboundStreams := outboundStreams - {id};
              outboundStreamTimeouts := outboundStreamTimeouts - {id};
              assert outboundStreams == old(outboundStreams) - {id};
              return Some(EndOfStream(request));
            case Failed =>
              outboundStreams := outboundStreams - {id};
              outboundStreamTimeouts := outboundStreamTimeouts - {id};
              assert outboundStreams == old(outboundStreams) - {id};
              return Some(OutboundError(request, StreamFailed));
            case Received(message) =>
              outboundStreamTimeouts := outboundStreamTimeouts + {id};
              outboundStreams := outboundStreams[id := outboundStreams[id].(state := Some(PendingResponse))];
              assert outboundStreams == old(outboundStreams);
              return Some(ResponseReceived(request, message));
            case NotReady =>
              outboundStreams := outboundStreams[id := outboundStreams[id].(state := Some(PendingResponse))];
              assert outboundStreams == old(outboundStreams);
              return None;
          }
        case Closing =>
          if io == NotReady {
            outboundStreams := outboundStreams[id := outboundStreams[id].(state := Some(Closing))];
            assert outboundStreams == old(outboundStreams);
            return None;
          }
          outboundStreams := outboundStreams - {id};
          outboundStreamTimeouts := outboundStreamTimeouts - {id};
          assert outboundStreams == old(outboundStreams) - {id};
          return Some(EndOfStream(request));
      }
    }

    method DoPoll(dl: DecompressLen, w: Weather) returns (r: Poll)
      requires Present(View()) && Possible(View(), w)
      modifies this
      ensures (View(), r) == Polled(dl, old(View()), w)
    {
      hide ExpireInbound, ExpireOutbound, PumpAll, ReadAll;
      if behaviourEvents != [] {
        r := Notify(behaviourEvents[0]);
        behaviourEvents := behaviourEvents[1..];
        return;
      }
      StagesFit(dl, View(), w);
      ExpireInboundTimers(w.inboundExpired);
      var late := ExpireOutboundTimers(w.outboundExpired);
      if late.Some? { return Notify(late.value); }
      PumpInbound(dl, w.inboundOrder, w.inboundIo);
      var event := ReadOutbound(w.outboundOrder, w.outboundIo);
      if event.Some? { return Notify(event.value); }
      if pendingOutboundStreams != [] {
        var info := pendingOutboundStreams[|pendingOutboundStreams| - 1];
        pendingOutboundStreams := pendingOutboundStreams[..|pendingOutboundStreams| - 1];
        return OpenSubstream(info);
      }
      if connectionState == ShuttingDown && inboundStreams == map[] && outboundStreams == map[] && behaviourEvents == [] {
        connectionState := Closed;
        return Notify(CloseConnection);
      }
      return NothingYet;
    }
  }
}
