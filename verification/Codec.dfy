/** The two codecs of the request/response protocol.

    A request is a varint length and a snappy frame; a response has one code byte
    in front. `head` is the number of bytes before the varint: 0 for requests, which
    the outbound codec writes and the inbound codec reads, and 1 for responses,
    which the inbound codec writes and the outbound codec reads. */
module Codec {
  import opened Basics
  import opened Varint
  import opened SnappyScan
  import opened SnappyGrammar
  import opened Framing

  const MAX_MESSAGE_SIZE: nat := 4 * 1024 * 1024
  const REQUEST_HEAD: nat := 0
  const RESPONSE_HEAD: nat := 1

  datatype DecodeError =
    | BadLengthPrefix(reason: VarintResult)
    | MessageTooLarge(declared: nat)
    | BadFrame(scan: ScanError)

  /** What one call of a decoder answers on the buffered bytes. */
  function Decode(dl: DecompressLen, head: nat, src: seq<byte>): (r: Verdict<DecodeError>)
    ensures r.Item? ==> head + STREAM_LEN < r.len <= |src|
    ensures r.Pending? ==> |src| <= head + MAX_VARINT_BYTES + FramedCap(MAX_MESSAGE_SIZE) + 3
  {
    if |src| < head + 1 then Pending
    else
      match DecodeUsize(src[head..])
      case Insufficient => Pending
      case Decoded(declared, prefix) =>
        if declared > MAX_MESSAGE_SIZE then Failed(MessageTooLarge(declared))
        else if |src| <= head + prefix then Pending
        else (
          CapGrows(declared, MAX_MESSAGE_SIZE);
          match FrameSize(dl, src[head + prefix..], declared)
          case NeedMore => Pending
          case Malformed(e) => Failed(BadFrame(e))
          case Frame(size) => Item(head + prefix + size)
        )
      case other => Failed(BadLengthPrefix(other))
  }

  lemma CapGrows(a: nat, b: nat)
    requires a <= b
    ensures FramedCap(a) <= FramedCap(b)
  {
    var qa, qb := a / MAX_UNCOMPRESSED_CHUNK, b / MAX_UNCOMPRESSED_CHUNK;
    if qa < qb {
      assert (qa + 1) * FULL_BLOCK_CAP <= qb * FULL_BLOCK_CAP;
      assert FramedCap(a) <= STREAM_LEN + (qa + 1) * FULL_BLOCK_CAP;
    }
  }

  /** The growable buffer the codecs read from and write to. */
  class BytesMut {
    var data: seq<byte>

    constructor ()
      ensures data == []
    {
      data := [];
    }
  }

  datatype DecodeResult = Again | Message(payload: seq<byte>) | Failure(error: DecodeError)

  /** Both decoders: a message is split off the front, otherwise nothing is consumed. */
  method DecodeMessage(dl: DecompressLen, head: nat, src: BytesMut) returns (r: DecodeResult)
    requires |src.data| < USIZE_MODULUS / 2
    modifies src
    ensures var v := Decode(dl, head, old(src.data));
            match v
            case Pending => r == Again && src.data == old(src.data)
            case Failed(e) => r == Failure(e) && src.data == old(src.data)
            case Item(n) => r == Message(old(src.data)[..n]) && src.data == old(src.data)[n..]
  {
    if |src.data| < head + 1 { return Again; }
    var prefix := DecodeUsize(src.data[head..]);
    match prefix {
      case Insufficient => return Again;
      case Decoded(declared, len) =>
        if declared > MAX_MESSAGE_SIZE { return Failure(MessageTooLarge(declared)); }
        var start := head + len;
        if |src.data| <= start { return Again; }
        var scan := CalculateSnappyFrameSize(dl, src.data[start..], declared);
        match scan {
          case NeedMore => return Again;
          case Malformed(e) => return Failure(BadFrame(e));
          case Frame(size) =>
            var total := start + size;
            assert total <= |src.data|;
            r := Message(src.data[..total]);
            src.data := src.data[total..];
        }
      case other => return Failure(BadLengthPrefix(other));
    }
  }

  datatype EncodeError =
    | EmptyPayload
    | MissingLengthPrefix
    | IncompleteLengthPrefix
    | InvalidLengthPrefix(reason: VarintResult)
    | PayloadTooLarge(declared: nat)
    | MissingFrame
    | IncompleteFrame
    | InvalidFrame(scan: ScanError)
    | LengthMismatch(wanted: nat, got: nat)

  /** Why an encoder refuses a payload, if it does. */
  function Refusal(dl: DecompressLen, head: nat, payload: seq<byte>): (r: Option<EncodeError>) {
    if payload == [] then Some(EmptyPayload)
    else if |payload| < head + 1 then Some(MissingLengthPrefix)
    else
      match DecodeUsize(payload[head..])
      case Insufficient => Some(IncompleteLengthPrefix)
      case Decoded(declared, prefix) =>
        if declared > MAX_MESSAGE_SIZE then Some(PayloadTooLarge(declared))
        else if |payload| <= head + prefix then Some(MissingFrame)
        else (
          match FrameSize(dl, payload[head + prefix..], declared)
          case NeedMore => Some(IncompleteFrame)
          case Malformed(e) => Some(InvalidFrame(e))
          case Frame(size) =>
            if |payload| != head + prefix + size then Some(LengthMismatch(head + prefix + size, |payload|))
            else None
        )
      case other => Some(InvalidLengthPrefix(other))
  }

  predicate Accepts(dl: DecompressLen, head: nat, payload: seq<byte>) {
    Refusal(dl, head, payload).None?
  }

  method CheckPayload(dl: DecompressLen, head: nat, payload: seq<byte>) returns (r: Option<EncodeError>)
    requires |payload| < USIZE_MODULUS / 2
    ensures r == Refusal(dl, head, payload)
  {
    if payload == [] { return Some(EmptyPayload); }
    if |payload| < head + 1 { return Some(MissingLengthPrefix); }
    var prefix := DecodeUsize(payload[head..]);
    match prefix {
      case Insufficient => return Some(IncompleteLengthPrefix);
      case Decoded(declared, len) =>
        if declared > MAX_MESSAGE_SIZE { return Some(PayloadTooLarge(declared)); }
        var start := head + len;
        if |payload| <= start { return Some(MissingFrame); }
        var scan := CalculateSnappyFrameSize(dl, payload[start..], declared);
        match scan {
          case NeedMore => return Some(IncompleteFrame);
          case Malformed(e) => return Some(InvalidFrame(e));
          case Frame(size) =>
            if |payload| != start + size { return Some(LengthMismatch(start + size, |payload|)); }
            return None;
        }
      case other => return Some(InvalidLengthPrefix(other));
    }
  }

  /** `OutboundCodec::encode` adds the request behind what is already buffered. */
  method EncodeRequest(dl: DecompressLen, payload: seq<byte>, dst: BytesMut) returns (r: Option<EncodeError>)
    requires |payload| < USIZE_MODULUS / 2
    modifies dst
    ensures r == Refusal(dl, REQUEST_HEAD, payload)
    ensures dst.data == if r.None? then old(dst.data) + payload else old(dst.data)
  {
    r := CheckPayload(dl, REQUEST_HEAD, payload);
    if r.None? { dst.data := dst.data + payload; }
  }

  /** `InboundCodec::encode` clears the buffer first: what was still in it is gone. */
  method EncodeResponse(dl: DecompressLen, payload: seq<byte>, dst: BytesMut) returns (r: Option<EncodeError>)
    requires |payload| < USIZE_MODULUS / 2
    modifies dst
    ensures r == Refusal(dl, RESPONSE_HEAD, payload)
    ensures dst.data == if r.None? then payload else old(dst.data)
  {
    r := CheckPayload(dl, RESPONSE_HEAD, payload);
    if r.None? {
      dst.data := [];
      dst.data := dst.data + payload;
    }
  }

  /** The encoder accepts exactly the payloads the peer's decoder takes whole. */
  lemma AcceptedIffDecodedWhole(dl: DecompressLen, head: nat, payload: seq<byte>)
    ensures Accepts(dl, head, payload) <==> Decode(dl, head, payload) == Item(|payload|)
  {}

  /** A message and a failure stand whatever arrives later; only "pending" can change. */
  lemma DecodeStableUnderReads(dl: DecompressLen, head: nat, src: seq<byte>, ext: seq<byte>)
    requires !Decode(dl, head, src).Pending?
    ensures Decode(dl, head, src + ext) == Decode(dl, head, src)
  {
    hide FrameSize, DecodeUsize, FramedCap;
    assert (src + ext)[head..] == src[head..] + ext;
    DecodeStable(src[head..], ext);
    var prefix := DecodeUsize(src[head..]);
    if prefix.Decoded? && prefix.value <= MAX_MESSAGE_SIZE {
      var start := head + prefix.len;
      assert (src + ext)[start..] == src[start..] + ext;
      FrameSizeStable(dl, src[start..], ext, prefix.value);
    }
  }

  /** The bytes behind the length prefix: none yet, or fewer than an identifier, or the
      beginning of a snappy frame for the declared length. */
  ghost predicate FrameMayCome(dl: DecompressLen, rest: seq<byte>, declared: nat) {
    |rest| < 10 || (declared > 0 && IsBeginning(dl, rest, declared))
  }

  /** A decoder waits exactly when the length prefix has not come or has not ended, or the
      length is within the limit and what follows can still become its frame. Everything else
      is a message or a failure at once. */
  lemma DecodeWaitsIff(dl: DecompressLen, head: nat, src: seq<byte>)
    ensures Decode(dl, head, src).Pending?
            <==> |src| <= head
                 || (|src| < head + 10 && AllContinue(src[head..]))
                 || (var prefix := DecodeUsize(src[head..]);
                     prefix.Decoded? && prefix.value <= MAX_MESSAGE_SIZE
                     && FrameMayCome(dl, src[head + prefix.len..], prefix.value))
  {
    hide FrameSize, DecodeUsize, FramedCap, IsBeginning, AllContinue;
    if |src| > head {
      PrefixVerdicts(src[head..]);
      var prefix := DecodeUsize(src[head..]);
      if prefix.Decoded? && prefix.value <= MAX_MESSAGE_SIZE {
        CapGrows(prefix.value, MAX_MESSAGE_SIZE);
        LimitFits();
        NeedMoreIff(dl, src[head + prefix.len..], prefix.value);
      }
    }
  }

  lemma LimitFits()
    ensures FramedCap(MAX_MESSAGE_SIZE) < USIZE_MODULUS
  {}

  /** The decoder of one codec, as the framed stream runs it. */
  function DecoderOf(dl: DecompressLen, head: nat): (d: Decoder<DecodeError>) {
    (src: seq<byte>) => Decode(dl, head, src)
  }

  lemma DecoderIsStable(dl: DecompressLen, head: nat)
    ensures Stable(DecoderOf(dl, head))
  {
    var d := DecoderOf(dl, head);
    forall src, ext | !d(src).Pending? ensures d(src + ext) == d(src) {
      DecodeStableUnderReads(dl, head, src, ext);
    }
  }

  /** For requests and for responses: however the stream is cut into reads, the reader ends
      with the same messages, the same unconsumed bytes and the same failure. */
  lemma SameStreamSameMessages(dl: DecompressLen, head: nat, pieces: seq<seq<byte>>, pieces': seq<seq<byte>>)
    requires Flatten(pieces) == Flatten(pieces')
    ensures FeedAll(DecoderOf(dl, head), Start(), pieces) == FeedAll(DecoderOf(dl, head), Start(), pieces')
  {
    DecoderIsStable(dl, head);
    SplitsDoNotMatter(DecoderOf(dl, head), Start(), pieces);
    SplitsDoNotMatter(DecoderOf(dl, head), Start(), pieces');
  }

  ghost predicate AllAccepted(dl: DecompressLen, head: nat, payloads: seq<seq<byte>>) {
    forall i :: 0 <= i < |payloads| ==> Accepts(dl, head, payloads[i])
  }

  lemma AcceptedAreWhole(dl: DecompressLen, head: nat, payloads: seq<seq<byte>>)
    requires AllAccepted(dl, head, payloads)
    ensures AllWhole(DecoderOf(dl, head), payloads)
  {
    forall i | 0 <= i < |payloads| ensures Whole(DecoderOf(dl, head), payloads[i]) {
      AcceptedIffDecodedWhole(dl, head, payloads[i]);
    }
  }

  /** Decoding what the encoder let through, followed by anything, gives back exactly the
      payloads, in order, and then whatever the tail gives. */
  lemma DecodingUndoesEncoding(dl: DecompressLen, head: nat, payloads: seq<seq<byte>>, tail: seq<byte>)
    requires AllAccepted(dl, head, payloads)
    ensures var t := Drain(DecoderOf(dl, head), tail);
            Drain(DecoderOf(dl, head), Flatten(payloads) + tail) == Reader(payloads + t.items, t.rest, t.error)
  {
    DecoderIsStable(dl, head);
    AcceptedAreWhole(dl, head, payloads);
    DrainOfWholes(DecoderOf(dl, head), payloads, tail);
  }

  /** While the writer is in the middle of a payload, the reader has exactly the payloads
      before it and keeps the part that arrived. */
  lemma ReaderFollowsWriter(dl: DecompressLen, head: nat, payloads: seq<seq<byte>>, current: seq<byte>, part: seq<byte>)
    requires AllAccepted(dl, head, payloads)
    requires part == [] || (Accepts(dl, head, current) && part < current)
    ensures Drain(DecoderOf(dl, head), Flatten(payloads) + part) == Reader(payloads, part, None)
  {
    DecoderIsStable(dl, head);
    DecodingUndoesEncoding(dl, head, payloads, part);
    if part != [] {
      AcceptedIffDecodedWhole(dl, head, current);
      PartIsPending(DecoderOf(dl, head), current, part);
    }
    assert payloads + [] == payloads;
  }

  /** One decoder call, in terms of the decoder the framed stream runs. */
  method DecodeNext(dl: DecompressLen, head: nat, src: BytesMut) returns (r: DecodeResult)
    requires |src.data| < USIZE_MODULUS / 2
    modifies src
    ensures |src.data| <= |old(src.data)|
    ensures var d := DecoderOf(dl, head);
            match r
            case Again => Drain(d, old(src.data)) == Reader([], src.data, None)
            case Failure(e) => Drain(d, old(src.data)) == Reader([], src.data, Some(e))
            case Message(p) => Drain(d, old(src.data)) == Ahead([p], Drain(d, src.data))
    ensures r.Message? ==> |src.data| < |old(src.data)|
  {
    r := DecodeMessage(dl, head, src);
  }

  /** The read loop of a framed stream over one buffer. */
  method DrainBuffer(dl: DecompressLen, head: nat, src: BytesMut)
    returns (items: seq<seq<byte>>, error: Option<DecodeError>)
    requires |src.data| < USIZE_MODULUS / 2
    modifies src
    ensures Reader(items, src.data, error) == Drain(DecoderOf(dl, head), old(src.data))
  {
    hide Drain, DecoderOf;
    items, error := [], None;
    ghost var d := DecoderOf(dl, head);
    var more := true;
    while more
      invariant |src.data| < USIZE_MODULUS / 2
      invariant more ==> error.None?
      invariant more ==> Ahead(items, Drain(d, src.data)) == Drain(d, old(src.data))
      invariant !more ==> Reader(items, src.data, error) == Drain(d, old(src.data))
      decreases more, |src.data|
    {
      assert items + [] == items;
      var r := DecodeNext(dl, head, src);
      match r {
        case Again => more := false;
        case Failure(e) => error, more := Some(e), false;
        case Message(payload) =>
          AheadTwice(items, [payload], Drain(d, src.data));
          items := items + [payload];
      }
    }
  }
}
