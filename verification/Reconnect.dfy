/** Reconnection to lost peers, for one network: the address book, the queue of retries
    that wait for their delay, and the retries whose dial is under way. */
module Reconnect {
  import opened Basics

  type Peer = nat
  type Address = string

  const MAX_RECONNECT_ATTEMPTS: nat := 5
  const RECONNECT_DELAYS_SECS: seq<nat> := [5, 10, 20, 40, 80]

  datatype Retry = Retry(address: Address, attempt: nat)
  /** A retry in the queue, and the seconds it waits there. */
  datatype Waiting = Waiting(retry: Retry, secs: nat)

  /** The tables; the established connections; and, for each peer since its last established
      connection, the dials made and the seconds waited for them, whether its address was
      known when the last connection closed, and whether it was given up. */
  datatype State = State(
    addresses: map<Peer, Address>,
    queue: map<Peer, Waiting>,
    attempts: map<Peer, Retry>,
    connections: multiset<Peer>,
    dials: map<Peer, nat>,
    waited: map<Peer, nat>,
    tracked: set<Peer>,
    abandoned: set<Peer>)

  datatype Event =
    | Established(peer: Peer, dialed: Option<Address>)
    | Closed(peer: Peer)
    | RetryDue(peer: Peer, dialStarts: bool)
    | DialFailed(target: Option<Peer>)

  predicate Enabled(s: State, e: Event) {
    match e
    case Closed(p) => p in s.connections
    case RetryDue(p, _) => p in s.queue
    case _ => true
  }

  function Get(m: map<Peer, nat>, p: Peer): (n: nat) {
    if p in m then m[p] else 0
  }

  function Delay(attempt: nat): (secs: nat)
    requires attempt >= 1
  {
    if attempt - 1 < |RECONNECT_DELAYS_SECS| then RECONNECT_DELAYS_SECS[attempt - 1] else 80
  }

  /** Queues the next attempt, or gives the peer up when there have been enough. */
  function Schedule(s: State, p: Peer, address: Address, attempt: nat): (r: State)
    requires attempt >= 1
  {
    if attempt > MAX_RECONNECT_ATTEMPTS then
      s.(addresses := s.addresses - {p}, attempts := s.attempts - {p}, abandoned := s.abandoned + {p})
    else s.(queue := s.queue[p := Waiting(Retry(address, attempt), Delay(attempt))])
  }

  function Connect(s: State, p: Peer, dialed: Option<Address>): (r: State) {
    s.(addresses := if dialed.Some? && p !in s.addresses then s.addresses[p := dialed.value] else s.addresses,
       queue := s.queue - {p}, attempts := s.attempts - {p},
       connections := s.connections + multiset{p},
       dials := s.dials[p := 0], waited := s.waited[p := 0], tracked := s.tracked - {p}, abandoned := s.abandoned - {p})
  }

  function Disconnect(s: State, p: Peer): (r: State)
    requires p in s.connections
  {
    var d := s.(connections := s.connections - multiset{p});
    if p in d.connections || p !in d.addresses then d
    else Schedule(d.(tracked := d.tracked + {p}), p, d.addresses[p], 1)
  }

  /** The delay is over: unless the peer is back, its address is dialed, and if the dial does
      not even start the next attempt is queued. */
  function Redial(s: State, p: Peer, dialStarts: bool): (r: State)
    requires p in s.queue
  {
    var Waiting(retry, secs) := s.queue[p];
    var d := s.(queue := s.queue - {p});
    if p in s.connections then d
    else
      var n := d.(dials := d.dials[p := Get(d.dials, p) + 1], waited := d.waited[p := Get(d.waited, p) + secs]);
      if dialStarts then n.(attempts := n.attempts[p := retry])
      else Schedule(n.(attempts := n.attempts - {p}), p, retry.address, retry.attempt + 1)
  }

  function Fail(s: State, p: Option<Peer>): (r: State) {
    if p.Some? && p.value in s.attempts then
      var retry := s.attempts[p.value];
      Schedule(s.(attempts := s.attempts - {p.value}), p.value, retry.address, retry.attempt + 1)
    else s
  }

  function Next(s: State, e: Event): (r: State)
    requires Enabled(s, e)
  {
    match e
    case Established(p, dialed) => Connect(s, p, dialed)
    case Closed(p) => Disconnect(s, p)
    case RetryDue(p, dialStarts) => Redial(s, p, dialStarts)
    case DialFailed(p) => Fail(s, p)
  }

  /** The seconds waited before the first `k` dials. */
  function WaitedFor(k: nat): (secs: nat) {
    if k == 0 then 0 else WaitedFor(k - 1) + Delay(k)
  }

  ghost predicate PeerOk(s: State, p: Peer) {
    !(p in s.queue && p in s.attempts)
    && (p in s.connections ==> p !in s.queue && p !in s.attempts)
    && (p in s.queue ==> 1 <= s.queue[p].retry.attempt <= MAX_RECONNECT_ATTEMPTS
                         && s.queue[p].secs == Delay(s.queue[p].retry.attempt)
                         && Get(s.dials, p) == s.queue[p].retry.attempt - 1)
    && (p in s.attempts ==> 1 <= s.attempts[p].attempt <= MAX_RECONNECT_ATTEMPTS && Get(s.dials, p) == s.attempts[p].attempt)
    && Get(s.dials, p) <= MAX_RECONNECT_ATTEMPTS
    && (p in s.connections ==> Get(s.dials, p) == 0)
    && Get(s.waited, p) == WaitedFor(Get(s.dials, p))
    && (p in s.tracked <==> p in s.queue || p in s.attempts || p in s.abandoned)
    && (p in s.queue || p in s.attempts ==> p in s.addresses && p !in s.abandoned)
    && (p in s.queue ==> s.queue[p].retry.address == s.addresses[p])
    && (p in s.attempts ==> s.attempts[p].address == s.addresses[p])
    && (p in s.connections ==> p !in s.tracked)
    && (p in s.abandoned ==> p !in s.connections && p !in s.addresses && Get(s.dials, p) == MAX_RECONNECT_ATTEMPTS)
  }

  ghost predicate Inv(s: State) {
    forall p: Peer :: PeerOk(s, p)
  }

  class Network {
    var peerAddrMap: map<Peer, Address>
    var reconnectQueue: map<Peer, Waiting>
    var reconnectAttempts: map<Peer, Retry>
    ghost var connections: multiset<Peer>
    ghost var dials: map<Peer, nat>
    ghost var waited: map<Peer, nat>
    ghost var tracked: set<Peer>
    ghost var abandoned: set<Peer>

    ghost function View(): (s: State)
      reads this
    {
      State(peerAddrMap, reconnectQueue, reconnectAttempts, connections, dials, waited, tracked, abandoned)
    }

    constructor (known: map<Peer, Address>)
      ensures View() == Start(known)
    {
      peerAddrMap, reconnectQueue, reconnectAttempts := known, map[], map[];
      connections, dials, waited, tracked, abandoned := multiset{}, map[], map[], {}, {};
    }

    method ScheduleReconnection(p: Peer, address: Address, attempt: nat)
      requires attempt >= 1
      modifies this
      ensures View() == Schedule(old(View()), p, address, attempt)
    {
      if attempt > MAX_RECONNECT_ATTEMPTS {
        peerAddrMap := peerAddrMap - {p};
        reconnectAttempts := reconnectAttempts - {p};
        abandoned := abandoned + {p};
        return;
      }
      var secs := if attempt - 1 < |RECONNECT_DELAYS_SECS| then RECONNECT_DELAYS_SECS[attempt - 1] else 80;
      reconnectQueue := reconnectQueue[p := Waiting(Retry(address, attempt), secs)];
    }

    method OnEstablished(p: Peer, dialed: Option<Address>)
      modifies this
      ensures View() == Connect(old(View()), p, dialed)
    {
      if dialed.Some? && p !in peerAddrMap { peerAddrMap := peerAddrMap[p := dialed.value]; }
      reconnectQueue := reconnectQueue - {p};
      reconnectAttempts := reconnectAttempts - {p};
      NoteConnected(p);
    }

    ghost method NoteConnected(p: Peer)
      modifies `connections, `dials, `waited, `tracked, `abandoned
      ensures connections == old(connections) + multiset{p}
      ensures dials == old(dials)[p := 0] && waited == old(waited)[p := 0]
      ensures tracked == old(tracked) - {p} && abandoned == old(abandoned) - {p}
    {
      connections := connections + multiset{p};
      dials, waited := dials[p := 0], waited[p := 0];
      tracked, abandoned := tracked - {p}, abandoned - {p};
    }

    /** `stillConnected` is what the swarm answers once this connection is gone. */
    method OnClosed(p: Peer, stillConnected: bool)
      requires p in connections && (stillConnected <==> p in connections - multiset{p})
      modifies this
      ensures View() == Disconnect(old(View()), p)
    {
      connections := connections - multiset{p};
      if stillConnected { return; }
      if p in peerAddrMap {
        tracked := tracked + {p};
        ScheduleReconnection(p, peerAddrMap[p], 1);
      }
    }

    method OnRetryDue(p: Peer, connected: bool, dialStarts: bool)
      requires p in reconnectQueue && (connected <==> p in connections)
      modifies this
      ensures View() == Redial(old(View()), p, dialStarts)
    {
      hide Schedule, Delay, Get;
      var Waiting(retry, secs) := reconnectQueue[p];
      reconnectQueue := reconnectQueue - {p};
      if connected { return; }
      NoteDial(p, secs);
      reconnectAttempts := reconnectAttempts[p := retry];
      if !dialStarts {
        reconnectAttempts := reconnectAttempts - {p};
        assert reconnectAttempts == old(reconnectAttempts) - {p};
        ScheduleReconnection(p, retry.address, retry.attempt + 1);
      }
    }

    ghost method NoteDial(p: Peer, secs: nat)
      modifies `dials, `waited
      ensures dials == old(dials)[p := Get(old(dials), p) + 1]
      ensures waited == old(waited)[p := Get(old(waited), p) + secs]
    {
      dials := dials[p := Get(dials, p) + 1];
      waited := waited[p := Get(waited, p) + secs];
    }

    method OnOutgoingConnectionError(p: Option<Peer>)
      modifies this
      ensures View() == Fail(old(View()), p)
    {
      if p.Some? && p.value in reconnectAttempts {
        var retry := reconnectAttempts[p.value];
        reconnectAttempts := reconnectAttempts - {p.value};
        ScheduleReconnection(p.value, retry.address, retry.attempt + 1);
      }
    }
  }

  lemma ConnectKeeps(s: State, p: Peer, dialed: Option<Address>, x: Peer)
    requires PeerOk(s, x)
    ensures PeerOk(Connect(s, p, dialed), x)
  {}

  lemma DisconnectKeeps(s: State, p: Peer, x: Peer)
    requires p in s.connections && PeerOk(s, x)
    ensures PeerOk(Disconnect(s, p), x)
  {
    hide WaitedFor, Delay;
    var left := s.connections - multiset{p};
    assert x != p ==> left[x] == s.connections[x];
  }

  lemma RedialKeeps(s: State, p: Peer, dialStarts: bool, x: Peer)
    requires p in s.queue && PeerOk(s, p) && PeerOk(s, x)
    ensures PeerOk(Redial(s, p, dialStarts), x)
  {
    hide WaitedFor, Delay;
    var r := Redial(s, p, dialStarts);
    if x == p {
      WaitedStep(Get(s.dials, p));
    } else {
      assert Get(r.dials, x) == Get(s.dials, x) && Get(r.waited, x) == Get(s.waited, x);
    }
  }

  lemma FailKeeps(s: State, p: Option<Peer>, x: Peer)
    requires PeerOk(s, x)
    ensures PeerOk(Fail(s, p), x)
  {
    hide WaitedFor, Delay;
  }

  /** Every step keeps the tables in order, whatever order connections, losses, due retries
      and failed dials come in. */
  lemma StepKeeps(s: State, e: Event)
    requires Inv(s) && Enabled(s, e)
    ensures Inv(Next(s, e))
  {
    hide PeerOk;
    forall x: Peer ensures PeerOk(Next(s, e), x) {
      assert PeerOk(s, x);
      match e
      case Established(p, dialed) => ConnectKeeps(s, p, dialed, x);
      case Closed(p) => DisconnectKeeps(s, p, x);
      case RetryDue(p, dialStarts) => RedialKeeps(s, p, dialStarts, x);
      case DialFailed(p) => FailKeeps(s, p, x);
    }
  }

  lemma WaitedStep(k: nat)
    ensures WaitedFor(0) == 0 && WaitedFor(k + 1) == WaitedFor(k) + Delay(k + 1)
  {}

  function Start(known: map<Peer, Address>): (s: State) {
    State(known, map[], map[], multiset{}, map[], map[], {}, {})
  }

  ghost predicate AllEnabled(s: State, events: seq<Event>)
    decreases |events|
  {
    events != [] ==> Enabled(s, events[0]) && AllEnabled(Next(s, events[0]), events[1..])
  }

  ghost function Run(s: State, events: seq<Event>): (r: State)
    requires Inv(s) && AllEnabled(s, events)
    ensures Inv(r)
    decreases |events|
  {
    if events == [] then s
    else
      StepKeeps(s, events[0]);
      Run(Next(s, events[0]), events[1..])
  }

  /** Five seconds before the first attempt, doubled for each one after it. */
  function Backoff(attempt: nat): (secs: nat) {
    if attempt <= 1 then 5 else 2 * Backoff(attempt - 1)
  }

  lemma DelaysDouble(attempt: nat)
    requires 1 <= attempt <= MAX_RECONNECT_ATTEMPTS
    ensures Delay(attempt) == Backoff(attempt)
  {
    if attempt > 1 { DelaysDouble(attempt - 1); }
  }

  /** In every run: a peer is in the queue or in the attempts and not in both, in neither
      while it is connected, with attempts from one to five, each waiting twice as long as
      the one before, and since its last established connection it was dialed at most five
      times. */
  lemma RetriesAreBounded(known: map<Peer, Address>, events: seq<Event>, p: Peer)
    requires AllEnabled(Start(known), events)
    ensures var s := Run(Start(known), events);
            !(p in s.queue && p in s.attempts)
            && (p in s.connections ==> p !in s.queue && p !in s.attempts)
            && (p in s.queue ==> 1 <= s.queue[p].retry.attempt <= 5 && s.queue[p].secs == Backoff(s.queue[p].retry.attempt))
            && (p in s.attempts ==> 1 <= s.attempts[p].attempt <= 5)
            && Get(s.dials, p) <= 5
  {
    var s := Run(Start(known), events);
    assert PeerOk(s, p);
    if p in s.queue { DelaysDouble(s.queue[p].retry.attempt); }
  }

  /** Whether the last thing a run did to the peer's connections was to close the only one
      at a time when its address was known; `lost` is the answer before the run. */
  ghost function LostKnown(s: State, events: seq<Event>, p: Peer, lost: bool): (r: bool)
    requires AllEnabled(s, events)
    decreases |events|
  {
    if events == [] then lost
    else
      var e := events[0];
      var now := if e.Established? && e.peer == p then false
                 else if e == Closed(p) && s.connections[p] == 1 then p in s.addresses
                 else lost;
      LostKnown(Next(s, e), events[1..], p, now)
  }

  lemma StepTracks(s: State, e: Event, p: Peer)
    requires Enabled(s, e) && PeerOk(s, p)
    ensures p in Next(s, e).tracked
            <==> (if e.Established? && e.peer == p then false
                  else if e == Closed(p) && s.connections[p] == 1 then p in s.addresses
                  else p in s.tracked)
  {
    hide WaitedFor, Delay;
  }

  lemma {:induction false} RunTracks(s: State, events: seq<Event>, p: Peer)
    requires Inv(s) && AllEnabled(s, events)
    ensures p in Run(s, events).tracked <==> LostKnown(s, events, p, p in s.tracked)
    decreases |events|
  {
    hide Next, PeerOk;
    if events != [] {
      assert PeerOk(s, p);
      StepKeeps(s, events[0]);
      StepTracks(s, events[0], p);
      RunTracks(Next(s, events[0]), events[1..], p);
    }
  }

  /** In every run a peer whose address was known when its last connection closed, and no
      other, is waiting for a retry, being dialed, or given up; and it is given up only after
      five dials and 155 seconds of waiting for them. */
  lemma LostPeersAreRetried(known: map<Peer, Address>, events: seq<Event>, p: Peer)
    requires AllEnabled(Start(known), events)
    ensures var s := Run(Start(known), events);
            (LostKnown(Start(known), events, p, false) <==> p in s.queue || p in s.attempts || p in s.abandoned)
            && (p in s.abandoned ==> Get(s.dials, p) == 5 && Get(s.waited, p) == 155
                                     && p !in s.addresses && p !in s.queue && p !in s.attempts)
  {
    var s := Run(Start(known), events);
    assert PeerOk(s, p);
    RunTracks(Start(known), events, p);
    assert WaitedFor(5) == 155 by {
      WaitedStep(0);
      WaitedStep(1);
      WaitedStep(2);
      WaitedStep(3);
      WaitedStep(4);
    }
  }

  /** The address a run leaves known for the peer: one that was there stays, otherwise the
      first that is dialed with success; giving the peer up forgets it. */
  ghost function KnownAddress(s: State, events: seq<Event>, p: Peer, known: Option<Address>): (r: Option<Address>)
    requires AllEnabled(s, events)
    decreases |events|
  {
    if events == [] then known
    else
      var e, next := events[0], Next(s, events[0]);
      var now := if e.Established? && e.peer == p && known.None? then e.dialed
                 else if p in next.abandoned && p !in s.abandoned then None
                 else known;
      KnownAddress(next, events[1..], p, now)
  }

  function AddressIn(addresses: map<Peer, Address>, p: Peer): (a: Option<Address>) {
    if p in addresses then Some(addresses[p]) else None
  }

  lemma StepKnows(s: State, e: Event, p: Peer)
    requires Enabled(s, e) && PeerOk(s, p)
    ensures var next, known := Next(s, e), AddressIn(s.addresses, p);
            AddressIn(next.addresses, p)
            == if e.Established? && e.peer == p && known.None? then e.dialed
               else if p in next.abandoned && p !in s.abandoned then None
               else known
  {
    hide WaitedFor, Delay;
  }

  lemma {:induction false} RunKnows(s: State, events: seq<Event>, p: Peer)
    requires Inv(s) && AllEnabled(s, events)
    ensures AddressIn(Run(s, events).addresses, p) == KnownAddress(s, events, p, AddressIn(s.addresses, p))
    decreases |events|
  {
    hide Next, PeerOk;
    if events != [] {
      assert PeerOk(s, p);
      StepKeeps(s, events[0]);
      StepKnows(s, events[0], p);
      RunKnows(Next(s, events[0]), events[1..], p);
    }
  }

  /** In every run every retry of a peer, waiting or under way, is to the address that is known
      for it: the one from the start, or the first it was reached at since it was given up. */
  lemma RetriesDialTheKnownAddress(known: map<Peer, Address>, events: seq<Event>, p: Peer)
    requires AllEnabled(Start(known), events)
    ensures var s := Run(Start(known), events); var address := KnownAddress(Start(known), events, p, AddressIn(known, p));
            AddressIn(s.addresses, p) == address
            && (p in s.queue ==> Some(s.queue[p].retry.address) == address)
            && (p in s.attempts ==> Some(s.attempts[p].address) == address)
  {
    assert PeerOk(Run(Start(known), events), p);
    RunKnows(Start(known), events, p);
  }

  /** Nothing has been done about the peer. */
  ghost predicate Untouched(s: State, p: Peer) {
    p !in s.connections && p !in s.queue && p !in s.attempts && p !in s.tracked && p !in s.abandoned
    && Get(s.dials, p) == 0
  }

  lemma {:induction false} StaysUntouched(s: State, events: seq<Event>, p: Peer)
    requires Inv(s) && AllEnabled(s, events) && Untouched(s, p)
    requires forall i :: 0 <= i < |events| ==> !(events[i].Established? && events[i].peer == p)
    ensures var r := Run(s, events); Untouched(r, p) && (p in r.addresses <==> p in s.addresses)
    decreases |events|
  {
    if events != [] {
      StepKeeps(s, events[0]);
      StepUntouched(s, events[0], p);
      StaysUntouched(Next(s, events[0]), events[1..], p);
    }
  }

  lemma StepUntouched(s: State, e: Event, p: Peer)
    requires Enabled(s, e) && Untouched(s, p) && !(e.Established? && e.peer == p)
    ensures var r := Next(s, e); Untouched(r, p) && (p in r.addresses <==> p in s.addresses)
  {
    hide Untouched, Connect, Disconnect, Redial, Fail;
    match e
    case Established(x, dialed) => UntouchedByConnect(s, x, dialed, p);
    case Closed(x) => UntouchedByDisconnect(s, x, p);
    case RetryDue(x, dialStarts) => UntouchedByRedial(s, x, dialStarts, p);
    case DialFailed(x) => UntouchedByFail(s, x, p);
  }

  lemma UntouchedByConnect(s: State, x: Peer, dialed: Option<Address>, p: Peer)
    requires Untouched(s, p) && x != p
    ensures var r := Connect(s, x, dialed); Untouched(r, p) && (p in r.addresses <==> p in s.addresses)
  {}

  lemma UntouchedByDisconnect(s: State, x: Peer, p: Peer)
    requires Untouched(s, p) && x in s.connections
    ensures var r := Disconnect(s, x); Untouched(r, p) && (p in r.addresses <==> p in s.addresses)
  {
    assert (s.connections - multiset{x})[p] == 0;
  }

  lemma UntouchedByRedial(s: State, x: Peer, dialStarts: bool, p: Peer)
    requires Untouched(s, p) && x in s.queue
    ensures var r := Redial(s, x, dialStarts); Untouched(r, p) && (p in r.addresses <==> p in s.addresses)
  {}

  lemma UntouchedByFail(s: State, x: Option<Peer>, p: Peer)
    requires Untouched(s, p)
    ensures var r := Fail(s, x); Untouched(r, p) && (p in r.addresses <==> p in s.addresses)
  {}

  /** In every run a peer that was never connected is never queued, never dialed again and
      never given up, however many dials to it fail and even if its address was known from
      the start. */
  lemma NeverConnectedNeverRetried(known: map<Peer, Address>, events: seq<Event>, p: Peer)
    requires AllEnabled(Start(known), events)
    requires forall i :: 0 <= i < |events| ==> !(events[i].Established? && events[i].peer == p)
    ensures var s := Run(Start(known), events);
            p !in s.queue && p !in s.attempts && p !in s.abandoned && Get(s.dials, p) == 0
            && (p in s.addresses <==> p in known)
  {
    StaysUntouched(Start(known), events, p);
  }
}
