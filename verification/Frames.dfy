/** The frames the Zig side builds and takes apart around the codecs, and the error
    response the Rust side builds by hand. */
module Frames {
  import opened Basics
  import opened Varint
  import opened SnappyScan
  import opened SnappyGrammar
  import opened Framing
  import opened Codec

  const MAX_RPC_MESSAGE_SIZE: nat := 4 * 1024 * 1024

  datatype FrameError = EmptyFrame | PayloadTooLarge | Incomplete | BadVarint(reason: VarintResult)
  datatype Built = Built(bytes: seq<byte>) | NotBuilt(error: FrameError)
  datatype Parsed = Parsed(code: byte, declared: nat, payload: seq<byte>) | NotParsed(error: FrameError)

  /** `head` is the response code, or empty for a request. */
  function Build(head: seq<byte>, size: nat, snappy: seq<byte>): (r: Built) {
    if size > MAX_RPC_MESSAGE_SIZE then NotBuilt(FrameError.PayloadTooLarge)
    else Built(head + EncodeUsize(size) + snappy)
  }

  method BuildRequestFrame(size: nat, snappy: seq<byte>) returns (r: Built)
    ensures r == Build([], size, snappy)
  {
    if size > MAX_RPC_MESSAGE_SIZE { return NotBuilt(FrameError.PayloadTooLarge); }
    var frame: seq<byte> := [];
    frame := AppendVarint(size, frame);
    frame := frame + snappy;
    return Built(frame);
  }

  method BuildResponseFrame(code: byte, size: nat, snappy: seq<byte>) returns (r: Built)
    ensures r == Build([code], size, snappy)
  {
    if size > MAX_RPC_MESSAGE_SIZE { return NotBuilt(FrameError.PayloadTooLarge); }
    var frame: seq<byte> := [code];
    frame := AppendVarint(size, frame);
    frame := frame + snappy;
    return Built(frame);
  }

  /** The length and payload behind the varint. Only the response parser reads a code. */
  function ParseBody(code: byte, bytes: seq<byte>): (r: Parsed) {
    match DecodeUsize(bytes)
    case Decoded(declared, len) =>
      if declared > MAX_RPC_MESSAGE_SIZE then NotParsed(FrameError.PayloadTooLarge)
      else Parsed(code, declared, bytes[len..])
    case other => NotParsed(BadVarint(other))
  }

  function ParseRequestFrame(bytes: seq<byte>): (r: Parsed) {
    if bytes == [] then NotParsed(EmptyFrame) else ParseBody(0, bytes)
  }

  function ParseResponseFrame(bytes: seq<byte>): (r: Parsed) {
    if bytes == [] then NotParsed(EmptyFrame)
    else if |bytes| == 1 then NotParsed(Incomplete)
    else ParseBody(bytes[0], bytes[1..])
  }

  /** What was built is taken apart into its parts, for every length up to the limit. */
  lemma RequestFrameRoundTrip(size: nat, snappy: seq<byte>)
    ensures Build([], size, snappy).Built? <==> size <= MAX_RPC_MESSAGE_SIZE
    ensures size <= MAX_RPC_MESSAGE_SIZE
            ==> ParseRequestFrame(Build([], size, snappy).bytes) == Parsed(0, size, snappy)
  {
    if size <= MAX_RPC_MESSAGE_SIZE {
      VarintRoundTrip(size, snappy);
      assert [] + EncodeUsize(size) + snappy == EncodeUsize(size) + snappy;
      assert (EncodeUsize(size) + snappy)[|EncodeUsize(size)|..] == snappy;
    }
  }

  lemma ResponseFrameRoundTrip(code: byte, size: nat, snappy: seq<byte>)
    ensures Build([code], size, snappy).Built? <==> size <= MAX_RPC_MESSAGE_SIZE
    ensures size <= MAX_RPC_MESSAGE_SIZE
            ==> ParseResponseFrame(Build([code], size, snappy).bytes) == Parsed(code, size, snappy)
  {
    if size <= MAX_RPC_MESSAGE_SIZE {
      var body := EncodeUsize(size) + snappy;
      VarintRoundTrip(size, snappy);
      assert ([code] + EncodeUsize(size) + snappy)[1..] == body;
      assert body[|EncodeUsize(size)|..] == snappy;
    }
  }

  /** Building again gives the same bytes back unless a ten-byte length prefix lost bits. */
  lemma ParsedFrameRebuilds(bytes: seq<byte>)
    requires ParseResponseFrame(bytes).Parsed?
    ensures var p := ParseResponseFrame(bytes); var prefix := DecodeUsize(bytes[1..]);
            Build([p.code], p.declared, p.payload) == Built(bytes)
            <==> (prefix.len < MAX_VARINT_BYTES || bytes[10] <= 1)
  {
    var p, body := ParseResponseFrame(bytes), bytes[1..];
    var n := DecodeUsize(body).len;
    PrefixIsCanonicalIff(body);
    assert bytes == [bytes[0]] + body[..n] + body[n..];
    var rebuilt := [p.code] + EncodeUsize(p.declared) + p.payload;
    if rebuilt == bytes {
      assert |EncodeUsize(p.declared)| == n;
      assert EncodeUsize(p.declared) == rebuilt[1..1 + n] == body[..n];
    }
  }

  /** A built frame passes the codec exactly when its snappy part is one whole frame for
      the length put in front of it. */
  lemma BuiltFrameIsAcceptedIff(dl: DecompressLen, head: seq<byte>, size: nat, snappy: seq<byte>)
    requires size <= MAX_RPC_MESSAGE_SIZE
    ensures Accepts(dl, |head|, Build(head, size, snappy).bytes) <==> FrameSize(dl, snappy, size) == Frame(|snappy|)
  {
    var bytes := head + EncodeUsize(size) + snappy;
    VarintRoundTrip(size, snappy);
    assert bytes[|head|..] == EncodeUsize(size) + snappy;
    assert bytes[|head| + |EncodeUsize(size)|..] == snappy;
  }

  /** So a payload stored in blocks crosses: built, encoded, decoded and taken apart, it
      comes back with its code and its frame. */
  lemma StoredPayloadCrosses(dl: DecompressLen, code: byte, crc: seq<byte>, data: seq<byte>, tail: seq<byte>)
    requires |crc| == 4 && |data| <= MAX_RPC_MESSAGE_SIZE
    ensures var cs := Store(crc, data);
            AllLegal(dl, cs) &&
            var snappy := STREAM_IDENTIFIER + ChunksBytes(dl, cs);
            var bytes := Build([code], |data|, snappy).bytes;
            Accepts(dl, RESPONSE_HEAD, bytes)
            && Decode(dl, RESPONSE_HEAD, bytes + tail) == Item(|bytes|)
            && ParseResponseFrame(bytes) == Parsed(code, |data|, snappy)
  {
    var cs := Store(crc, data);
    StoredDataIsBlocked(dl, crc, data);
    CapGrows(|data|, MAX_RPC_MESSAGE_SIZE);
    BlockedFramesAreAccepted(dl, cs, |data|, []);
    var snappy := STREAM_IDENTIFIER + ChunksBytes(dl, cs);
    assert snappy + [] == snappy;
    var bytes := Build([code], |data|, snappy).bytes;
    BuiltFrameIsAcceptedIff(dl, [code], |data|, snappy);
    ResponseFrameRoundTrip(code, |data|, snappy);
    AcceptedIffDecodedWhole(dl, RESPONSE_HEAD, bytes);
    DecodeStableUnderReads(dl, RESPONSE_HEAD, bytes, tail);
  }

  /** The payload of `send_rpc_error_response`: the text itself stands where the snappy
      frame should be. */
  function ErrorPayload(text: seq<byte>): (r: seq<byte>)
    requires |text| <= MAX_MESSAGE_SIZE
  {
    [2] + EncodeUsize(|text|) + text
  }

  /** The error response reaches the wire exactly when the text happens to be a whole
      snappy frame that declares as many bytes of data as the text is long. */
  lemma ErrorResponseIsSentIff(dl: DecompressLen, text: seq<byte>)
    requires |text| <= MAX_MESSAGE_SIZE
    ensures Accepts(dl, RESPONSE_HEAD, ErrorPayload(text)) <==> FrameSize(dl, text, |text|) == Frame(|text|)
  {
    assert ErrorPayload(text) == Build([2], |text|, text).bytes;
    BuiltFrameIsAcceptedIff(dl, [2], |text|, text);
  }

  /** It never is: the text comes from a C string, which holds no zero byte, and the stream
      identifier does. No error response is ever sent. */
  lemma ErrorsAreNeverSent(dl: DecompressLen, text: seq<byte>)
    requires |text| <= MAX_MESSAGE_SIZE && 0 !in text
    ensures !Accepts(dl, RESPONSE_HEAD, ErrorPayload(text))
  {
    ErrorResponseIsSentIff(dl, text);
    if |text| >= STREAM_LEN {
      assert text[..STREAM_LEN][2] == text[2];
      assert STREAM_IDENTIFIER[2] == 0;
    }
  }
}
