/** Gossip topic names: `/leanconsensus/<network>/<name>/<encoding>`. */
module Topics {
  import opened Basics

  const TOPIC_PREFIX: string := "leanconsensus"
  const ENCODING: string := "ssz_snappy"
  const ATTESTATION_PREFIX: string := "attestation_"
  const SUBNET_LIMIT: int := 0x1_0000_0000

  datatype TopicKind = BlockTopic | AttestationTopic | AggregationTopic
  type SubnetId = n: int | 0 <= n < SUBNET_LIMIT
  datatype GossipTopic = GossipTopic(kind: TopicKind, subnet: Option<SubnetId>)
  datatype NetworkTopic = NetworkTopic(topic: GossipTopic, network: string)

  datatype Result<+T> = Ok(value: T) | InvalidTopic | InvalidDecoding | MissingSubnetId

  function Digit(d: nat): (c: char)
    requires d < 10
    ensures '0' <= c <= '9'
  {
    '0' + d as char
  }

  function PrintNat(n: nat): (s: string)
    ensures |s| >= 1
  {
    if n < 10 then [Digit(n)] else PrintNat(n / 10) + [Digit(n % 10)]
  }

  predicate AllDigits(s: string) {
    forall i :: 0 <= i < |s| ==> '0' <= s[i] <= '9'
  }

  function ValueOf(s: string): (n: nat)
    requires AllDigits(s)
  {
    if s == [] then 0 else 10 * ValueOf(s[..|s| - 1]) + (s[|s| - 1] as int - '0' as int)
  }

  function ParseSubnet(s: string): (r: Option<SubnetId>) {
    if s != [] && AllDigits(s) && ValueOf(s) < SUBNET_LIMIT then Some(ValueOf(s)) else None
  }

  function TagName(kind: TopicKind): (s: string) {
    match kind case BlockTopic => "block" case AttestationTopic => "attestation" case AggregationTopic => "aggregation"
  }

  function EncodeName(t: GossipTopic): (r: Result<string>) {
    if t.kind.AttestationTopic? then
      if t.subnet.None? then MissingSubnetId else Ok(ATTESTATION_PREFIX + PrintNat(t.subnet.value))
    else Ok(TagName(t.kind))
  }

  function DecodeName(s: string): (r: Result<GossipTopic>) {
    if ATTESTATION_PREFIX <= s then
      match ParseSubnet(s[|ATTESTATION_PREFIX|..])
      case Some(n) => Ok(GossipTopic(AttestationTopic, Some(n)))
      case None => InvalidDecoding
    else if s == "block" then Ok(GossipTopic(BlockTopic, None))
    else if s == "attestation" then Ok(GossipTopic(AttestationTopic, None))
    else if s == "aggregation" then Ok(GossipTopic(AggregationTopic, None))
    else InvalidDecoding
  }

  function Encode(t: NetworkTopic): (r: Result<string>) {
    match EncodeName(t.topic)
    case Ok(name) => Ok("/" + (TOPIC_PREFIX + ("/" + (t.network + ("/" + (name + ("/" + ENCODING)))))))
    case _ => MissingSubnetId
  }

  /** The parts between slashes. */
  function Split(s: string): (parts: seq<string>)
    ensures |parts| >= 1
    ensures forall i :: 0 <= i < |parts| ==> '/' !in parts[i]
  {
    if s == [] then [[]]
    else
      var rest := Split(s[1..]);
      if s[0] == '/' then [[]] + rest else [[s[0]] + rest[0]] + rest[1..]
  }

  function Decode(s: string): (r: Result<NetworkTopic>) {
    var parts := Split(s);
    if |parts| < 2 || parts[1] != TOPIC_PREFIX then InvalidTopic
    else if |parts| < 5 then InvalidTopic
    else
      match DecodeName(parts[3])
      case Ok(topic) => if parts[4] == ENCODING then Ok(NetworkTopic(topic, parts[2])) else InvalidDecoding
      case _ => InvalidDecoding
  }

  lemma {:induction false} PrintedDigits(n: nat)
    ensures AllDigits(PrintNat(n)) && ValueOf(PrintNat(n)) == n
  {
    if n < 10 {
      assert [Digit(n)][..0] == [];
    } else {
      PrintedDigits(n / 10);
      var s := PrintNat(n);
      assert s[..|s| - 1] == PrintNat(n / 10);
    }
  }

  /** A part without slashes is split off whole. */
  lemma {:induction false} SplitPart(a: string, rest: string)
    requires '/' !in a
    ensures Split(a + ("/" + rest)) == [a] + Split(rest)
    decreases |a|
  {
    if a == [] {
      assert a + ("/" + rest) == "/" + rest;
      assert ("/" + rest)[1..] == rest;
    } else {
      assert (a + ("/" + rest))[1..] == a[1..] + ("/" + rest);
      SplitPart(a[1..], rest);
      assert a == [a[0]] + a[1..];
    }
  }

  lemma {:induction false} SplitWhole(a: string)
    requires '/' !in a
    ensures Split(a) == [a]
    decreases |a|
  {
    if a != [] {
      SplitWhole(a[1..]);
      assert a == [a[0]] + a[1..];
    }
  }

  lemma NameRoundTrip(t: GossipTopic)
    requires EncodeName(t).Ok?
    ensures '/' !in EncodeName(t).value
    ensures DecodeName(EncodeName(t).value) == Ok(if t.kind.AttestationTopic? then t else GossipTopic(t.kind, None))
  {
    if t.kind.AttestationTopic? {
      PrintedDigits(t.subnet.value);
      var digits := PrintNat(t.subnet.value);
      assert '/' !in digits;
      var name := ATTESTATION_PREFIX + digits;
      assert name[|ATTESTATION_PREFIX|..] == digits;
      assert ATTESTATION_PREFIX <= name;
    } else {
      assert TagName(t.kind)[1] != ATTESTATION_PREFIX[1];
    }
  }

  lemma ConstantsHaveNoSlash()
    ensures '/' !in TOPIC_PREFIX && '/' !in ENCODING
  {}

  /** The parts of a topic name: the network's own parts stand in the middle. */
  lemma PartsOf(network: string, name: string)
    requires '/' !in name
    ensures var s := "/" + (TOPIC_PREFIX + ("/" + (network + ("/" + (name + ("/" + ENCODING))))));
            var parts := Split(s);
            |parts| >= 3 && parts[1] == TOPIC_PREFIX && '/' !in parts[2]
            && ('/' !in network ==> parts == [[], TOPIC_PREFIX, network, name, ENCODING])
  {
    hide Split;
    var tail := name + ("/" + ENCODING);
    ConstantsHaveNoSlash();
    SplitWhole(ENCODING);
    SplitPart(name, ENCODING);
    var middle := network + ("/" + tail);
    var s := "/" + (TOPIC_PREFIX + ("/" + middle));
    assert s == [] + ("/" + (TOPIC_PREFIX + ("/" + middle)));
    SplitPart([], TOPIC_PREFIX + ("/" + middle));
    SplitPart(TOPIC_PREFIX, middle);
    if '/' !in network { SplitPart(network, tail); }
  }

  /** A topic can be written exactly when an attestation topic has its subnet. What was
      written reads back as the same topic exactly when the network name has no slash and no
      subnet is given for another kind of topic. */
  lemma TopicRoundTripIff(t: NetworkTopic)
    ensures Encode(t).Ok? <==> (t.topic.kind.AttestationTopic? ==> t.topic.subnet.Some?)
    ensures Encode(t).Ok? ==>
              (Decode(Encode(t).value) == Ok(t)
               <==> '/' !in t.network && (t.topic.subnet.Some? ==> t.topic.kind.AttestationTopic?))
  {
    if Encode(t).Ok? {
      NameRoundTrip(t.topic);
      PartsOf(t.network, EncodeName(t.topic).value);
    }
  }

  /** So two topics with the same name are the same topic. */
  lemma TopicNamesAreDistinct(t: NetworkTopic, u: NetworkTopic)
    requires '/' !in t.network && '/' !in u.network
    requires t.topic.kind.AttestationTopic? <==> t.topic.subnet.Some?
    requires u.topic.kind.AttestationTopic? <==> u.topic.subnet.Some?
    requires Encode(t) == Encode(u)
    ensures t == u
  {
    TopicRoundTripIff(t);
    TopicRoundTripIff(u);
  }
}
