/** The chunk scan that finds where a snappy frame ends, and its length cap.
    The length a compressed body unpacks to is a parameter of every member: the
    results hold for every such function. */
module SnappyScan {
  import opened Basics

  /** The uncompressed length a compressed chunk body declares, if it is well formed. */
  type DecompressLen = seq<byte> -> Option<nat>

  const STREAM_IDENTIFIER: seq<byte> := [0xff, 0x06, 0x00, 0x00] + STREAM_MAGIC
  const STREAM_MAGIC: seq<byte> := [0x73, 0x4e, 0x61, 0x50, 0x70, 0x59]
  const COMPRESSED: byte := 0x00
  const UNCOMPRESSED: byte := 0x01
  const STREAM_ID: byte := 0xff
  const MAX_CHUNK_LEN: nat := 0xff_ffff
  const MAX_UNCOMPRESSED_CHUNK: nat := 0x1_0000
  const CHUNK_HEADER_AND_CRC_SIZE: nat := 8

  datatype ScanError =
    | BadStreamIdentifier
    | LengthOverflow
    | FrameTooLong
    | ChunkTooShort
    | BadCompressedChunk
    | ChunkTooBig
    | ExceedsDeclared
    | UnskippableChunk(kind: byte)

  datatype Scan = NeedMore | Frame(size: nat) | Malformed(error: ScanError)

  function MaxCompressLen(n: nat): (r: nat)
    ensures n <= r
  {
    32 + n + n / 6
  }

  /** The cap in closed form: the identifier, a fixed bound for each full block,
      and the bound for the short block that is left. */
  function FramedCap(expected: nat): (r: nat)
    ensures STREAM_LEN <= r && expected <= r
  {
    var tail := expected % MAX_UNCOMPRESSED_CHUNK;
    STREAM_LEN + expected / MAX_UNCOMPRESSED_CHUNK * FULL_BLOCK_CAP
    + (if tail == 0 then 0 else CHUNK_HEADER_AND_CRC_SIZE + MaxCompressLen(tail))
  }

  const STREAM_LEN: nat := 10
  const FULL_BLOCK_CAP: nat := 76498

  /** Taking off the block at the front takes its bound off the cap. */
  lemma CapOfNextBlock(remaining: nat)
    requires remaining > 0
    ensures var block := if remaining < MAX_UNCOMPRESSED_CHUNK then remaining else MAX_UNCOMPRESSED_CHUNK;
            FramedCap(remaining)
            == FramedCap(remaining - block) + CHUNK_HEADER_AND_CRC_SIZE + MaxCompressLen(block)
  {
    hide FramedCap, MaxCompressLen;
    var q, tail := remaining / MAX_UNCOMPRESSED_CHUNK, remaining % MAX_UNCOMPRESSED_CHUNK;
    assert remaining == q * MAX_UNCOMPRESSED_CHUNK + tail;
    CapInBlocks(q, tail);
    if q == 0 {
      CapOfNothing();
    } else {
      assert remaining - MAX_UNCOMPRESSED_CHUNK == (q - 1) * MAX_UNCOMPRESSED_CHUNK + tail;
      CapInBlocks(q - 1, tail);
      FullBlock();
    }
  }

  lemma FullBlock()
    ensures CHUNK_HEADER_AND_CRC_SIZE + MaxCompressLen(MAX_UNCOMPRESSED_CHUNK) == FULL_BLOCK_CAP
  {}

  /** The cap of so many full blocks and a rest. */
  lemma CapInBlocks(q: nat, tail: nat)
    requires tail < MAX_UNCOMPRESSED_CHUNK
    ensures FramedCap(q * MAX_UNCOMPRESSED_CHUNK + tail)
            == STREAM_LEN + q * FULL_BLOCK_CAP + (if tail == 0 then 0 else CHUNK_HEADER_AND_CRC_SIZE + MaxCompressLen(tail))
  {
    var n := q * MAX_UNCOMPRESSED_CHUNK + tail;
    assert n / MAX_UNCOMPRESSED_CHUNK == q;
    assert n % MAX_UNCOMPRESSED_CHUNK == tail;
  }

  lemma CapOfNothing()
    ensures FramedCap(0) == STREAM_LEN
  {}

  /** Sums the bound of every block; fails exactly when the cap does not fit `usize`. */
  method MaxFramedLen(expected: nat) returns (r: Option<nat>)
    requires expected < USIZE_MODULUS
    ensures r == if FramedCap(expected) < USIZE_MODULUS then Some(FramedCap(expected)) else None
  {
    hide FramedCap;
    CapOfNothing();
    var remaining: nat := expected;
    var total := |STREAM_IDENTIFIER|;
    while remaining > 0
      invariant total + FramedCap(remaining) == FramedCap(expected) + STREAM_LEN
    {
      var block := if remaining < MAX_UNCOMPRESSED_CHUNK then remaining else MAX_UNCOMPRESSED_CHUNK;
      CapOfNextBlock(remaining);
      if total + CHUNK_HEADER_AND_CRC_SIZE >= USIZE_MODULUS { return None; }
      if total + CHUNK_HEADER_AND_CRC_SIZE + MaxCompressLen(block) >= USIZE_MODULUS { return None; }
      total := total + CHUNK_HEADER_AND_CRC_SIZE + MaxCompressLen(block);
      remaining := remaining - block;
    }
    return if total < USIZE_MODULUS then Some(total) else None;
  }

  function ReadU24(src: seq<byte>, at: nat): (r: nat)
    requires at + 3 <= |src|
    ensures r <= MAX_CHUNK_LEN
  {
    var b0: int, b1: int, b2: int := src[at], src[at + 1], src[at + 2];
    b0 + 0x100 * b1 + 0x1_0000 * b2
  }

  /** What the chunk at one position says. */
  datatype ChunkVerdict =
    | Wait
    | Bad(error: ScanError)
    | Skip(end: nat)
    | Data(len: nat, end: nat)

  function ReadChunk(dl: DecompressLen, src: seq<byte>, cap: nat, pos: nat): (r: ChunkVerdict)
    requires pos <= |src|
    ensures r.Skip? || r.Data? ==> pos + 4 <= r.end <= |src| && r.end <= cap
    ensures r.Data? ==> r.len <= MAX_UNCOMPRESSED_CHUNK
    ensures r.Wait? ==> |src| < pos + 4 || |src| < cap
  {
    if pos + 4 > |src| then Wait
    else
      var kind := src[pos];
      var len := ReadU24(src, pos + 1);
      var end := pos + 4 + len;
      if end > cap then Bad(FrameTooLong)
      else if kind == COMPRESSED || kind == UNCOMPRESSED then
        if |src| < end then Wait
        else if len < 4 then Bad(ChunkTooShort)
        else if kind == COMPRESSED then
          match dl(src[pos + 8..end])
          case None => Bad(BadCompressedChunk)
          case Some(n) => if n > MAX_UNCOMPRESSED_CHUNK then Bad(ChunkTooBig) else Data(n, end)
        else if len - 4 > MAX_UNCOMPRESSED_CHUNK then Bad(ChunkTooBig)
        else Data(len - 4, end)
      else if kind == STREAM_ID then
        if |src| < end then Wait
        else if len != 6 || src[pos + 4..end] != STREAM_MAGIC then Bad(BadStreamIdentifier)
        else Skip(end)
      else if 0x02 <= kind <= 0x7f then Bad(UnskippableChunk(kind))
      else if |src| < end then Wait
      else Skip(end)
  }

  /** The chunk loop from position `pos`, with `total` bytes of data already seen. */
  function ScanFrom(dl: DecompressLen, src: seq<byte>, expected: nat, cap: nat, pos: nat, total: nat): (r: Scan)
    requires pos <= |src| && total < expected
    ensures r.Frame? ==> pos + 4 <= r.size <= |src| && r.size <= cap
    ensures r.NeedMore? && pos <= cap ==> |src| <= cap + 3
    decreases |src| - pos
  {
    match ReadChunk(dl, src, cap, pos)
    case Wait => NeedMore
    case Bad(e) => Malformed(e)
    case Skip(end) => ScanFrom(dl, src, expected, cap, end, total)
    case Data(n, end) =>
      if total + n == expected then Frame(end)
      else if total + n > expected then Malformed(ExceedsDeclared)
      else ScanFrom(dl, src, expected, cap, end, total + n)
  }

  /** The verdict of `calculate_snappy_frame_size`. */
  function FrameSize(dl: DecompressLen, src: seq<byte>, expected: nat): (r: Scan)
    ensures r.Frame? ==> STREAM_LEN <= r.size <= |src| && r.size <= FramedCap(expected)
    ensures r.NeedMore? ==> |src| <= FramedCap(expected) + 3
  {
    if |src| < STREAM_LEN then NeedMore
    else if src[..STREAM_LEN] != STREAM_IDENTIFIER then Malformed(BadStreamIdentifier)
    else if FramedCap(expected) >= USIZE_MODULUS then Malformed(LengthOverflow)
    else if expected == 0 then Frame(STREAM_LEN)
    else ScanFrom(dl, src, expected, FramedCap(expected), STREAM_LEN, 0)
  }

  /** The header checks and the match on the chunk type. A slice is never longer
      than half the address space, so the checked additions cannot fail. */
  method InspectChunk(dl: DecompressLen, src: seq<byte>, cap: nat, pos: nat) returns (r: ChunkVerdict)
    requires pos <= |src| < USIZE_MODULUS / 2
    ensures r == ReadChunk(dl, src, cap, pos)
  {
    if pos + 4 > |src| { return Wait; }
    var kind := src[pos];
    var len := ReadU24(src, pos + 1);
    var headerEnd := pos + 4;
    var end := headerEnd + len;
    assert end < USIZE_MODULUS && len <= MAX_CHUNK_LEN;
    if end > cap { return Bad(FrameTooLong); }
    if kind == COMPRESSED || kind == UNCOMPRESSED {
      if |src| < end { return Wait; }
      if len < 4 { return Bad(ChunkTooShort); }
      var added: nat := len - 4;
      if kind == COMPRESSED {
        var declared := dl(src[headerEnd + 4..end]);
        if declared.None? { return Bad(BadCompressedChunk); }
        added := declared.value;
      }
      if added > MAX_UNCOMPRESSED_CHUNK { return Bad(ChunkTooBig); }
      return Data(added, end);
    } else if kind == STREAM_ID {
      if |src| < end { return Wait; }
      if len != 6 || src[headerEnd..end] != STREAM_MAGIC { return Bad(BadStreamIdentifier); }
    } else if 0x02 <= kind <= 0x7f {
      return Bad(UnskippableChunk(kind));
    } else if |src| < end {
      return Wait;
    }
    return Skip(end);
  }

  /** The chunk loop, entered with room left above the declared length. */
  method ScanChunks(dl: DecompressLen, src: seq<byte>, expected: nat, cap: nat) returns (r: Scan)
    requires 0 < expected && expected + MAX_UNCOMPRESSED_CHUNK < USIZE_MODULUS
    requires STREAM_LEN <= |src| < USIZE_MODULUS / 2
    ensures r == ScanFrom(dl, src, expected, cap, STREAM_LEN, 0)
  {
    var pos: nat, total: nat := STREAM_LEN, 0;
    while pos < |src|
      invariant pos <= |src| && total < expected
      invariant ScanFrom(dl, src, expected, cap, pos, total) == ScanFrom(dl, src, expected, cap, STREAM_LEN, 0)
      decreases |src| - pos
    {
      var chunk := InspectChunk(dl, src, cap, pos);
      match chunk {
        case Wait => return NeedMore;
        case Bad(error) => return Malformed(error);
        case Skip(end) => pos := end;
        case Data(len, end) =>
          assert total + len < USIZE_MODULUS;
          total := total + len;
          if total == expected { return Frame(end); }
          if total > expected { return Malformed(ExceedsDeclared); }
          pos := end;
      }
    }
    return NeedMore;
  }

  /** The checks before the loop. The cap keeps the running total from overflowing. */
  method CalculateSnappyFrameSize(dl: DecompressLen, src: seq<byte>, expected: nat) returns (r: Scan)
    requires expected < USIZE_MODULUS
    requires |src| < USIZE_MODULUS / 2
    ensures r == FrameSize(dl, src, expected)
  {
    if |src| < |STREAM_IDENTIFIER| { return NeedMore; }
    if src[..|STREAM_IDENTIFIER|] != STREAM_IDENTIFIER { return Malformed(BadStreamIdentifier); }
    var limit := MaxFramedLen(expected);
    if limit.None? { return Malformed(LengthOverflow); }
    if expected == 0 { return Frame(|STREAM_IDENTIFIER|); }
    CapLeavesRoom(expected);
    r := ScanChunks(dl, src, expected, limit.value);
  }

  /** A declared length whose cap fits `usize` stays a full chunk below the limit. */
  lemma CapLeavesRoom(expected: nat)
    requires FramedCap(expected) < USIZE_MODULUS
    ensures expected + MAX_UNCOMPRESSED_CHUNK < USIZE_MODULUS
  {
    var q := expected / MAX_UNCOMPRESSED_CHUNK;
    assert expected < (q + 1) * MAX_UNCOMPRESSED_CHUNK;
    assert STREAM_LEN + q * FULL_BLOCK_CAP <= FramedCap(expected);
  }

  lemma {:induction false} ScanStable(dl: DecompressLen, src: seq<byte>, ext: seq<byte>,
                                      expected: nat, cap: nat, pos: nat, total: nat)
    requires pos <= |src| && total < expected
    requires !ScanFrom(dl, src, expected, cap, pos, total).NeedMore?
    ensures ScanFrom(dl, src + ext, expected, cap, pos, total) == ScanFrom(dl, src, expected, cap, pos, total)
    decreases |src| - pos
  {
    hide ReadChunk;
    ChunkStable(dl, src, ext, cap, pos);
    match ReadChunk(dl, src, cap, pos)
    case Bad(_) =>
    case Skip(end) => ScanStable(dl, src, ext, expected, cap, end, total);
    case Data(n, end) =>
      if total + n < expected { ScanStable(dl, src, ext, expected, cap, end, total + n); }
  }

  lemma ChunkStable(dl: DecompressLen, src: seq<byte>, ext: seq<byte>, cap: nat, pos: nat)
    requires pos <= |src|
    requires !ReadChunk(dl, src, cap, pos).Wait?
    ensures ReadChunk(dl, src + ext, cap, pos) == ReadChunk(dl, src, cap, pos)
  {
    var all := src + ext;
    var end := pos + 4 + ReadU24(src, pos + 1);
    assert ReadU24(all, pos + 1) == ReadU24(src, pos + 1);
    if end <= |src| {
      assert all[pos + 4..end] == src[pos + 4..end];
      if end >= pos + 8 { assert all[pos + 8..end] == src[pos + 8..end]; }
    }
  }

  /** A frame size and an error stand whatever arrives later; only "need more" can change. */
  lemma FrameSizeStable(dl: DecompressLen, src: seq<byte>, ext: seq<byte>, expected: nat)
    requires !FrameSize(dl, src, expected).NeedMore?
    ensures FrameSize(dl, src + ext, expected) == FrameSize(dl, src, expected)
  {
    assert (src + ext)[..STREAM_LEN] == src[..STREAM_LEN];
    if src[..STREAM_LEN] == STREAM_IDENTIFIER && 0 < expected && FramedCap(expected) < USIZE_MODULUS {
      ScanStable(dl, src, ext, expected, FramedCap(expected), STREAM_LEN, 0);
    }
  }
}
