/** Responses across the language bridge: the channel table of the Rust side and the queue
    of commands it hands to the connection handlers. */
module ResponseChannels {
  import opened Basics
  import opened Codec
  import opened Frames

  type Bytes = seq<byte>
  type ChannelId = nat

  /** Which inbound stream: peer, connection, and the stream's number on it. */
  datatype Target = Target(peer: nat, connection: nat, stream: nat)

  /** A command for the handler of one stream, or another of the things that go through the
      behaviour's queue: requests, shutdowns, and what handlers report. */
  datatype Command = Respond(target: Target, payload: Bytes) | FinishStream(target: Target) | Other(what: nat)

  const RESPONSE_CHANNEL_IDLE_SECS: nat := 5 * 60

  /** An entry of the table, and the time at which it expires. */
  datatype Channel = Channel(target: Target, deadline: nat)

  /** The table and the queue, the commands that have left the queue, and the streams that
      were ever announced. */
  datatype State = State(
    counter: nat,
    channels: map<ChannelId, Channel>,
    queue: seq<Command>,
    delivered: seq<Command>,
    announced: set<Target>)

  /** `up` says whether the network is initialized when the call comes in, `now` is the time
      in seconds. */
  datatype Event =
    | RequestReceived(target: Target, now: nat)
    | SendChunk(channel: ChannelId, payload: Bytes, up: bool, now: nat)
    | EndStream(channel: ChannelId, up: bool)
    | SendError(channel: ChannelId, text: Option<Bytes>, up: bool)
    | ChannelExpired(channel: ChannelId, now: nat)
    | StreamFailed(target: Target)
    | ConnectionClosed(peer: nat, connection: nat)
    | QueueOther(what: nat)
    | Deliver

  /** A connection numbers its streams, so a stream is announced once; only a channel whose
      time has come expires. */
  predicate Enabled(s: State, e: Event) {
    match e
    case RequestReceived(t, _) => t !in s.announced
    case ChannelExpired(c, now) => c in s.channels && s.channels[c].deadline <= now
    case Deliver => s.queue != []
    case _ => true
  }

  function Without(channels: map<ChannelId, Channel>, gone: Target -> bool): (r: map<ChannelId, Channel>) {
    map c | c in channels && !gone(channels[c].target) :: channels[c]
  }

  /** A channel that was used at `now`. */
  function Armed(t: Target, now: nat): (r: Channel) {
    Channel(t, now + RESPONSE_CHANNEL_IDLE_SECS)
  }

  /** The text of an error response that is sent at all. */
  predicate Sendable(text: Option<Bytes>) {
    text.Some? && |text.value| <= MAX_MESSAGE_SIZE
  }

  function Push(s: State, commands: seq<Command>): (r: State) {
    s.(queue := s.queue + commands)
  }

  function Next(s: State, e: Event): (r: State)
    requires Enabled(s, e)
  {
    match e
    case RequestReceived(t, now) =>
      s.(counter := s.counter + 1, channels := s.channels[s.counter + 1 := Armed(t, now)], announced := s.announced + {t})
    case SendChunk(c, payload, up, now) =>
      if c !in s.channels then s
      else
        var t := s.channels[c].target;
        var r := s.(channels := s.channels[c := Armed(t, now)]);
        if up then Push(r, [Respond(t, payload)]) else r
    case EndStream(c, up) =>
      if c !in s.channels then s
      else
        var r := s.(channels := s.channels - {c});
        if up then Push(r, [FinishStream(s.channels[c].target)]) else r
    case SendError(c, text, up) =>
      if !Sendable(text) || c !in s.channels then s
      else
        var t := s.channels[c].target;
        var r := s.(channels := s.channels - {c});
        if up then Push(r, [Respond(t, ErrorPayload(text.value)), FinishStream(t)]) else r
    case ChannelExpired(c, _) => Push(s.(channels := s.channels - {c}), [FinishStream(s.channels[c].target)])
    case StreamFailed(t) => s.(channels := Without(s.channels, x => x == t))
    case ConnectionClosed(p, n) => s.(channels := Without(s.channels, (x: Target) => x.peer == p && x.connection == n))
    case QueueOther(what) => Push(s, [Other(what)])
    case Deliver => s.(queue := s.queue[1..], delivered := s.delivered + [s.queue[0]])
  }

  /** The behaviour's queue of commands. */
  class ReqResp {
    var events: seq<Command>

    constructor ()
      ensures events == []
    {
      events := [];
    }

    method SendResponse(t: Target, payload: Bytes)
      modifies this
      ensures events == old(events) + [Respond(t, payload)]
    {
      events := events + [Respond(t, payload)];
    }

    method FinishResponseStream(t: Target)
      modifies this
      ensures events == old(events) + [FinishStream(t)]
    {
      events := events + [FinishStream(t)];
    }

    /** Requests, shutdowns and reports of handlers are pushed the same way. */
    method PushOther(what: nat)
      modifies this
      ensures events == old(events) + [Other(what)]
    {
      events := events + [Other(what)];
    }

    method Poll() returns (r: Option<Command>)
      modifies this
      ensures old(events) == [] ==> r.None? && events == []
      ensures old(events) != [] ==> r == Some(old(events)[0]) && events == old(events)[1..]
    {
      if events == [] { return None; }
      r := Some(events[0]);
      events := events[1..];
    }
  }

  class ChannelTable {
    var responseChannelCounter: nat
    var responseChannelMap: map<ChannelId, Channel>
    ghost var delivered: seq<Command>
    ghost var announced: set<Target>

    ghost function View(swarm: ReqResp): (s: State)
      reads this, swarm
    {
      State(responseChannelCounter, responseChannelMap, swarm.events, delivered, announced)
    }

    constructor ()
      ensures responseChannelCounter == 0 && responseChannelMap == map[] && delivered == [] && announced == {}
    {
      responseChannelCounter := 0;
      responseChannelMap := map[];
      delivered := [];
      announced := {};
    }

    method OnRequest(t: Target, now: nat, swarm: ReqResp) returns (channel: ChannelId)
      requires t !in announced
      modifies this
      ensures View(swarm) == Next(old(View(swarm)), RequestReceived(t, now)) && channel == old(responseChannelCounter) + 1
    {
      responseChannelCounter := responseChannelCounter + 1;
      channel := responseChannelCounter;
      responseChannelMap := responseChannelMap[channel := Channel(t, now + RESPONSE_CHANNEL_IDLE_SECS)];
      announced := announced + {t};
    }

    /** The channel's time starts anew even when the network is down. */
    method SendRpcResponseChunk(channel: ChannelId, payload: Bytes, now: nat, swarm: ReqResp, up: bool)
      modifies this, swarm
      ensures View(swarm) == Next(old(View(swarm)), SendChunk(channel, payload, up, now))
    {
      if channel in responseChannelMap {
        var t := responseChannelMap[channel].target;
        responseChannelMap := responseChannelMap[channel := Channel(t, now + RESPONSE_CHANNEL_IDLE_SECS)];
        if !up { return; }
        swarm.SendResponse(t, payload);
      }
    }

    method SendRpcEndOfStream(channel: ChannelId, swarm: ReqResp, up: bool)
      modifies this, swarm
      ensures View(swarm) == Next(old(View(swarm)), EndStream(channel, up))
    {
      if channel !in responseChannelMap { return; }
      var t := responseChannelMap[channel].target;
      responseChannelMap := responseChannelMap - {channel};
      if !up { return; }
      swarm.FinishResponseStream(t);
    }

    /** The payload is the code, the length and the bare text. */
    method SendRpcErrorResponse(channel: ChannelId, text: Option<Bytes>, swarm: ReqResp, up: bool)
      modifies this, swarm
      ensures View(swarm) == Next(old(View(swarm)), SendError(channel, text, up))
    {
      if text.None? || |text.value| > MAX_MESSAGE_SIZE { return; }
      if channel !in responseChannelMap { return; }
      var t := responseChannelMap[channel].target;
      responseChannelMap := responseChannelMap - {channel};
      if !up { return; }
      var payload := ErrorPayload(text.value);
      swarm.SendResponse(t, payload);
      swarm.FinishResponseStream(t);
      assert old(swarm.events) + [Respond(t, payload)] + [FinishStream(t)] == old(swarm.events) + [Respond(t, payload), FinishStream(t)];
    }

    method OnChannelExpired(channel: ChannelId, now: nat, swarm: ReqResp)
      requires channel in responseChannelMap && responseChannelMap[channel].deadline <= now
      modifies this, swarm
      ensures View(swarm) == Next(old(View(swarm)), ChannelExpired(channel, now))
    {
      var t := responseChannelMap[channel].target;
      responseChannelMap := responseChannelMap - {channel};
      swarm.FinishResponseStream(t);
    }

    method OnInboundError(t: Target, swarm: ReqResp)
      modifies this
      ensures View(swarm) == Next(old(View(swarm)), StreamFailed(t))
    {
      responseChannelMap := map c | c in responseChannelMap && responseChannelMap[c].target != t :: responseChannelMap[c];
    }

    method OnConnectionClosed(peer: nat, connection: nat, swarm: ReqResp)
      modifies this
      ensures View(swarm) == Next(old(View(swarm)), ConnectionClosed(peer, connection))
    {
      responseChannelMap := map c | c in responseChannelMap
        && !(responseChannelMap[c].target.peer == peer && responseChannelMap[c].target.connection == connection) :: responseChannelMap[c];
    }

    method DeliverNext(swarm: ReqResp) returns (r: Option<Command>)
      modifies this, swarm
      ensures old(swarm.events) == [] ==> r.None? && View(swarm) == old(View(swarm))
      ensures old(swarm.events) != [] ==> r == Some(old(swarm.events)[0]) && View(swarm) == Next(old(View(swarm)), Deliver)
    {
      r := swarm.Poll();
      if r.Some? { delivered := delivered + [r.value]; }
    }
  }

  predicate IsFor(c: Command, t: Target) {
    !c.Other? && c.target == t
  }

  function IfFor(t: Target): (give: Command -> seq<Command>) {
    c => if IsFor(c, t) then [c] else []
  }

  /** The commands for one stream, in order. */
  function CommandsFor(log: seq<Command>, t: Target): (r: seq<Command>) {
    Collect(log, IfFor(t))
  }

  lemma CommandsConcat(a: seq<Command>, b: seq<Command>, t: Target)
    ensures CommandsFor(a + b, t) == CommandsFor(a, t) + CommandsFor(b, t)
  {
    CollectConcat(a, b, IfFor(t));
  }

  predicate OnlyResponds(cs: seq<Command>) {
    forall i :: 0 <= i < |cs| ==> cs[i].Respond?
  }

  /** Responses, then at most one close, and nothing after it. */
  predicate WellFormed(cs: seq<Command>) {
    OnlyResponds(cs) || (cs != [] && cs[|cs| - 1].FinishStream? && OnlyResponds(cs[..|cs| - 1]))
  }

  /** All commands so far, those delivered and then those still waiting. */
  function Log(s: State): (r: seq<Command>) {
    s.delivered + s.queue
  }

  ghost predicate HasChannel(s: State, t: Target) {
    exists c :: c in s.channels && s.channels[c].target == t
  }

  ghost predicate StreamOk(s: State, t: Target) {
    var cs := CommandsFor(Log(s), t);
    WellFormed(cs) && (HasChannel(s, t) ==> OnlyResponds(cs)) && (t !in s.announced ==> cs == [])
  }

  ghost predicate Inv(s: State) {
    (forall c :: c in s.channels ==> 1 <= c <= s.counter && s.channels[c].target in s.announced)
    && (forall a, b :: a in s.channels && b in s.channels && s.channels[a].target == s.channels[b].target ==> a == b)
    && forall t :: StreamOk(s, t)
  }

  /** A step that takes channels away and queues commands for one stream that had one. */
  lemma Commands(s: State, r: State, cs: seq<Command>, t: Target)
    requires Inv(s) && r.counter == s.counter && r.announced == s.announced && r.delivered == s.delivered
    requires forall c :: c in r.channels ==> c in s.channels && r.channels[c].target == s.channels[c].target
    requires r.queue == s.queue + cs && forall i :: 0 <= i < |cs| ==> IsFor(cs[i], t)
    requires cs != [] ==> HasChannel(s, t) && WellFormed(cs) && (OnlyResponds(cs) || !HasChannel(r, t))
    ensures Inv(r)
  {
    hide CommandsFor;
    forall x ensures StreamOk(r, x) {
      assert StreamOk(s, x);
      assert Log(r) == Log(s) + cs;
      CommandsConcat(Log(s), cs, x);
      CommandsOfOne(cs, t, x);
      var before := CommandsFor(Log(s), x);
      assert before + [] == before;
      if x == t && cs != [] && !OnlyResponds(cs) {
        var all := before + cs;
        assert all[..|all| - 1] == before + cs[..|cs| - 1];
      }
    }
  }

  lemma {:induction false} CommandsOfOne(cs: seq<Command>, t: Target, x: Target)
    requires forall i :: 0 <= i < |cs| ==> IsFor(cs[i], t)
    ensures CommandsFor(cs, x) == if x == t then cs else []
    decreases |cs|
  {
    if cs != [] {
      CommandsOfOne(cs[1..], t, x);
      assert cs == [cs[0]] + cs[1..];
    }
  }

  lemma AnnounceKeeps(s: State, t: Target, now: nat)
    requires Inv(s) && t !in s.announced
    ensures Inv(Next(s, RequestReceived(t, now)))
  {
    hide CommandsFor;
    var r := Next(s, RequestReceived(t, now));
    forall x ensures StreamOk(r, x) {
      assert StreamOk(s, x);
      if x != t && HasChannel(r, x) {
        var c :| c in r.channels && r.channels[c].target == x;
        assert s.channels[c].target == x;
      }
    }
  }

  lemma OtherKeeps(s: State, what: nat)
    requires Inv(s)
    ensures Inv(Next(s, QueueOther(what)))
  {
    hide CommandsFor;
    var r := Next(s, QueueOther(what));
    forall x ensures StreamOk(r, x) {
      assert StreamOk(s, x);
      assert Log(r) == Log(s) + [Other(what)];
      CommandsConcat(Log(s), [Other(what)], x);
      NothingForStreams(what, x);
      assert CommandsFor(Log(s), x) + [] == CommandsFor(Log(s), x);
      assert HasChannel(r, x) == HasChannel(s, x);
    }
  }

  lemma NothingForStreams(what: nat, x: Target)
    ensures CommandsFor([Other(what)], x) == []
  {
    CollectOne(Other(what), IfFor(x));
  }

  lemma DeliverKeeps(s: State)
    requires Inv(s) && s.queue != []
    ensures Inv(Next(s, Deliver))
  {
    hide CommandsFor;
    var r := Next(s, Deliver);
    assert Log(r) == Log(s);
    forall x ensures StreamOk(r, x) { assert StreamOk(s, x); assert HasChannel(r, x) == HasChannel(s, x); }
  }

  /** Every step keeps channels one to a stream and every stream's commands in order. */
  lemma StepKeeps(s: State, e: Event)
    requires Inv(s) && Enabled(s, e)
    ensures Inv(Next(s, e))
  {
    hide StreamOk;
    var r := Next(s, e);
    assert s.queue + [] == s.queue;
    match e
    case RequestReceived(t, now) => AnnounceKeeps(s, t, now);
    case Deliver => DeliverKeeps(s);
    case QueueOther(what) => OtherKeeps(s, what);
    case SendChunk(c, payload, up, _) =>
      if c in s.channels {
        var t := s.channels[c].target;
        Commands(s, r, if up then [Respond(t, payload)] else [], t);
      }
    case EndStream(c, up) =>
      if c in s.channels {
        var t := s.channels[c].target;
        Commands(s, r, if up then [FinishStream(t)] else [], t);
      }
    case SendError(c, text, up) =>
      if Sendable(text) && c in s.channels {
        var t := s.channels[c].target;
        var cs := [Respond(t, ErrorPayload(text.value)), FinishStream(t)];
        assert cs[..1] == [cs[0]];
        Commands(s, r, if up then cs else [], t);
      }
    case ChannelExpired(c, _) =>
      var t := s.channels[c].target;
      Commands(s, r, [FinishStream(t)], t);
    case StreamFailed(t) => Commands(s, r, [], t);
    case ConnectionClosed(_, _) => Commands(s, r, [], Target(0, 0, 0));
  }

  ghost predicate AllEnabled(s: State, events: seq<Event>)
    decreases |events|
  {
    events != [] ==> Enabled(s, events[0]) && AllEnabled(Next(s, events[0]), events[1..])
  }

  ghost function Run(s: State, events: seq<Event>): (r: State)
    requires AllEnabled(s, events)
    decreases |events|
  {
    if events == [] then s else Run(Next(s, events[0]), events[1..])
  }

  function Start(): (s: State) {
    State(0, map[], [], [], {})
  }

  lemma StartInv()
    ensures Inv(Start())
  {}

  lemma {:induction false} RunsKeep(s: State, events: seq<Event>)
    requires Inv(s) && AllEnabled(s, events)
    ensures Inv(Run(s, events))
    decreases |events|
  {
    hide Inv, Next;
    if events != [] {
      StepKeeps(s, events[0]);
      RunsKeep(Next(s, events[0]), events[1..]);
    }
  }

  /** Over every interleaving, the commands queued for a stream, whether delivered or still
      waiting, are responses, then at most one close, and nothing after; what has been
      delivered is their beginning. */
  lemma StreamsCloseOnce(events: seq<Event>, t: Target)
    requires AllEnabled(Start(), events)
    ensures var s := Run(Start(), events);
            WellFormed(CommandsFor(Log(s), t))
            && CommandsFor(s.delivered, t) <= CommandsFor(Log(s), t)
            && (HasChannel(s, t) ==> OnlyResponds(CommandsFor(Log(s), t)))
  {
    RunsKeep(Start(), events);
    var s := Run(Start(), events);
    assert StreamOk(s, t);
    CommandsConcat(s.delivered, s.queue, t);
  }

  /** Over every interleaving no two channels serve one stream. */
  lemma ChannelsAreDistinct(events: seq<Event>, a: ChannelId, b: ChannelId)
    requires AllEnabled(Start(), events)
    requires var s := Run(Start(), events); a in s.channels && b in s.channels && s.channels[a].target == s.channels[b].target
    ensures a == b
  {
    RunsKeep(Start(), events);
  }

  // ---------------------------------------------------------------- one stream on its own

  /** The commands a call is worth to the stream `t`, whose open channel is `mine`. */
  function Due(t: Target, mine: Option<ChannelId>, e: Event): (r: seq<Command>) {
    match e
    case SendChunk(c, payload, up, _) => if mine == Some(c) && up then [Respond(t, payload)] else []
    case EndStream(c, up) => if mine == Some(c) && up then [FinishStream(t)] else []
    case SendError(c, text, up) =>
      if mine == Some(c) && up && Sendable(text) then [Respond(t, ErrorPayload(text.value)), FinishStream(t)] else []
    case ChannelExpired(c, _) => if mine == Some(c) then [FinishStream(t)] else []
    case _ => []
  }

  /** The channel of the stream `t` after the call; channels are numbered in order of arrival. */
  function Mine(t: Target, mine: Option<ChannelId>, counter: nat, e: Event): (r: Option<ChannelId>) {
    match e
    case RequestReceived(x, _) => if x == t then Some(counter + 1) else mine
    case SendChunk(_, _, _, _) => mine
    case EndStream(c, _) => if mine == Some(c) then None else mine
    case SendError(c, text, _) => if mine == Some(c) && Sendable(text) then None else mine
    case ChannelExpired(c, _) => if mine == Some(c) then None else mine
    case StreamFailed(x) => if x == t then None else mine
    case ConnectionClosed(p, n) => if t.peer == p && t.connection == n then None else mine
    case QueueOther(_) => mine
    case Deliver => mine
  }

  /** What a run owes one stream, told from the calls on its own channel alone. */
  function Owed(t: Target, mine: Option<ChannelId>, counter: nat, events: seq<Event>): (r: seq<Command>)
    decreases |events|
  {
    if events == [] then []
    else
      var e := events[0];
      Due(t, mine, e)
      + Owed(t, Mine(t, mine, counter, e), if e.RequestReceived? then counter + 1 else counter, events[1..])
  }

  ghost predicate IsChannelOf(s: State, t: Target, mine: Option<ChannelId>) {
    match mine
    case Some(c) => c in s.channels && s.channels[c].target == t
    case None => !HasChannel(s, t)
  }

  lemma NewChannelFollows(s: State, e: Event, t: Target, mine: Option<ChannelId>)
    requires Inv(s) && e.RequestReceived? && Enabled(s, e) && IsChannelOf(s, t, mine)
    ensures IsChannelOf(Next(s, e), t, Mine(t, mine, s.counter, e))
  {
    hide StreamOk;
    var r := Next(s, e);
    assert mine.Some? ==> mine.value <= s.counter;
    if e.target != t && HasChannel(r, t) {
      var c :| c in r.channels && r.channels[c].target == t;
      assert c in s.channels && s.channels[c].target == t;
    }
  }

  /** Taking channels away takes a stream's channel or leaves it. */
  lemma FewerChannels(s: State, r: State, t: Target, mine: Option<ChannelId>)
    requires forall a, b :: a in s.channels && b in s.channels && s.channels[a].target == s.channels[b].target ==> a == b
    requires IsChannelOf(s, t, mine) && forall c :: c in r.channels ==> c in s.channels && r.channels[c].target == s.channels[c].target
    ensures IsChannelOf(r, t, if mine.Some? && mine.value in r.channels then mine else None)
  {}

  lemma ChannelFollows(s: State, e: Event, t: Target, mine: Option<ChannelId>)
    requires Inv(s) && Enabled(s, e) && IsChannelOf(s, t, mine)
    ensures IsChannelOf(Next(s, e), t, Mine(t, mine, s.counter, e))
  {
    hide StreamOk, HasChannel;
    if e.RequestReceived? {
      NewChannelFollows(s, e, t, mine);
    } else {
      FewerChannels(s, Next(s, e), t, mine);
    }
  }

  /** The commands a call puts in the queue. */
  function Pushed(s: State, e: Event): (r: seq<Command>)
    requires Enabled(s, e)
  {
    match e
    case SendChunk(c, payload, up, _) => if c in s.channels && up then [Respond(s.channels[c].target, payload)] else []
    case EndStream(c, up) => if c in s.channels && up then [FinishStream(s.channels[c].target)] else []
    case SendError(c, text, up) =>
      if c in s.channels && up && Sendable(text) then
        [Respond(s.channels[c].target, ErrorPayload(text.value)), FinishStream(s.channels[c].target)]
      else []
    case ChannelExpired(c, _) => [FinishStream(s.channels[c].target)]
    case QueueOther(what) => [Other(what)]
    case _ => []
  }

  lemma NextLog(s: State, e: Event)
    requires Enabled(s, e)
    ensures Log(Next(s, e)) == Log(s) + Pushed(s, e)
  {
    assert s.queue + [] == s.queue;
    if e.Deliver? {
      assert s.queue == [s.queue[0]] + s.queue[1..];
    } else {
      assert Next(s, e).queue == s.queue + Pushed(s, e);
    }
  }

  /** Of what a call queues, a stream gets its due: no other channel is its own. */
  lemma PushedIsDue(s: State, e: Event, t: Target, mine: Option<ChannelId>)
    requires Inv(s) && Enabled(s, e) && IsChannelOf(s, t, mine)
    ensures CommandsFor(Pushed(s, e), t) == Due(t, mine, e)
  {
    hide StreamOk, CommandsFor;
    var cs := Pushed(s, e);
    if cs == [] {
      CommandsOfOne(cs, t, t);
    } else if e.QueueOther? {
      NothingForStreams(e.what, t);
    } else {
      var x := s.channels[e.channel].target;
      assert x == t <==> mine == Some(e.channel);
      CommandsOfOne(cs, x, t);
    }
  }

  lemma LogGrows(s: State, e: Event, t: Target, mine: Option<ChannelId>)
    requires Inv(s) && Enabled(s, e) && IsChannelOf(s, t, mine)
    ensures CommandsFor(Log(Next(s, e)), t) == CommandsFor(Log(s), t) + Due(t, mine, e)
  {
    hide Inv, CommandsFor, Next, Pushed, Log, Due, IsChannelOf;
    NextLog(s, e);
    CommandsConcat(Log(s), Pushed(s, e), t);
    PushedIsDue(s, e, t, mine);
  }

  lemma {:induction false} RunPaysWhatIsOwed(s: State, events: seq<Event>, t: Target, mine: Option<ChannelId>)
    requires Inv(s) && AllEnabled(s, events) && IsChannelOf(s, t, mine)
    ensures CommandsFor(Log(Run(s, events)), t) == CommandsFor(Log(s), t) + Owed(t, mine, s.counter, events)
    decreases |events|
  {
    hide Inv, CommandsFor, IsChannelOf, Due, Log;
    if events == [] {
      assert CommandsFor(Log(s), t) + [] == CommandsFor(Log(s), t);
    } else {
      var e := events[0];
      var next := Next(s, e);
      StepKeeps(s, e);
      ChannelFollows(s, e, t, mine);
      LogGrows(s, e, t, mine);
      RunPaysWhatIsOwed(next, events[1..], t, Mine(t, mine, s.counter, e));
      var rest := Owed(t, Mine(t, mine, s.counter, e), next.counter, events[1..]);
      assert CommandsFor(Log(s), t) + Due(t, mine, e) + rest == CommandsFor(Log(s), t) + (Due(t, mine, e) + rest);
    }
  }

  /** Over every interleaving each stream is sent exactly what the calls on its own channel
      are worth, in the order of the calls, whatever happens on other channels. */
  lemma StreamsAreSentTheirOwn(events: seq<Event>, t: Target)
    requires AllEnabled(Start(), events)
    ensures CommandsFor(Log(Run(Start(), events)), t) == Owed(t, None, 0, events)
  {
    RunPaysWhatIsOwed(Start(), events, t, None);
    assert CommandsFor(Log(Start()), t) == [];
    assert [] + Owed(t, None, 0, events) == Owed(t, None, 0, events);
  }

  // ---------------------------------------------------------------- idle channels

  /** When a channel was last used: when its request came in, or by the last chunk on it. */
  function LastUse(c: ChannelId, counter: nat, events: seq<Event>, last: nat): (r: nat)
    decreases |events|
  {
    if events == [] then last
    else
      match events[0]
      case RequestReceived(_, now) => LastUse(c, counter + 1, events[1..], if c == counter + 1 then now else last)
      case SendChunk(x, _, _, now) => LastUse(c, counter, events[1..], if x == c then now else last)
      case _ => LastUse(c, counter, events[1..], last)
  }

  /** A number that was handed out and is not in the table is never in it again. */
  lemma {:induction false} ChannelsDoNotReturn(s: State, events: seq<Event>, c: ChannelId)
    requires AllEnabled(s, events) && c <= s.counter && c !in s.channels
    ensures c !in Run(s, events).channels
    decreases |events|
  {
    if events != [] { ChannelsDoNotReturn(Next(s, events[0]), events[1..], c); }
  }

  lemma {:induction false} RunArms(s: State, events: seq<Event>, c: ChannelId, last: nat)
    requires AllEnabled(s, events) && c in Run(s, events).channels
    requires if c in s.channels then c <= s.counter && s.channels[c].deadline == last + RESPONSE_CHANNEL_IDLE_SECS else c > s.counter
    ensures Run(s, events).channels[c].deadline == LastUse(c, s.counter, events, last) + RESPONSE_CHANNEL_IDLE_SECS
    decreases |events|
  {
    if events != [] {
      var next := Next(s, events[0]);
      if c <= next.counter && c !in next.channels { ChannelsDoNotReturn(next, events[1..], c); }
      var last' := match events[0]
                   case RequestReceived(_, now) => if c == s.counter + 1 then now else last
                   case SendChunk(x, _, _, now) => if x == c then now else last
                   case _ => last;
      RunArms(next, events[1..], c, last');
    }
  }

  /** Over every interleaving a channel expires only when its stream has had neither its
      request nor a chunk for five minutes, and from then on it may. */
  lemma IdleChannelsExpireIff(events: seq<Event>, c: ChannelId, now: nat)
    requires AllEnabled(Start(), events) && c in Run(Start(), events).channels
    ensures Enabled(Run(Start(), events), ChannelExpired(c, now)) <==> now - LastUse(c, 0, events, 0) >= 300
  {
    if c == 0 { ChannelsDoNotReturn(Start(), events, c); }
    RunArms(Start(), events, c, 0);
  }

  lemma {:induction false} RunSnoc(s: State, events: seq<Event>, e: Event)
    requires AllEnabled(s, events) && Enabled(Run(s, events), e)
    ensures AllEnabled(s, events + [e]) && Run(s, events + [e]) == Next(Run(s, events), e)
    decreases |events|
  {
    hide Next, Enabled;
    if events == [] {
      assert events + [e] == [e] && [e][1..] == [];
    } else {
      assert (events + [e])[0] == events[0] && (events + [e])[1..] == events[1..] + [e];
      RunSnoc(Next(s, events[0]), events[1..], e);
    }
  }
}
