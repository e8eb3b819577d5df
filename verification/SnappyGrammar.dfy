/** Snappy frames as a grammar (sections 4.1 to 4.6 of the Snappy framing format),
    and the proof that the scan recognises exactly that grammar. */
module SnappyGrammar {
  import opened Basics
  import opened SnappyScan

  datatype Chunk = Chunk(kind: byte, body: seq<byte>)

  function U24(n: nat): (r: seq<byte>)
    requires n <= MAX_CHUNK_LEN
    ensures |r| == 3
  {
    [n % 0x100, n / 0x100 % 0x100, n / 0x1_0000]
  }

  function ChunkBytes(c: Chunk): (r: seq<byte>)
    requires |c.body| <= MAX_CHUNK_LEN
  {
    [c.kind] + U24(|c.body|) + c.body
  }

  predicate Legal(dl: DecompressLen, c: Chunk) {
    |c.body| <= MAX_CHUNK_LEN
    && (c.kind == COMPRESSED ==>
      |c.body| >= 4 && dl(c.body[4..]).Some? && dl(c.body[4..]).value <= MAX_UNCOMPRESSED_CHUNK)
    && (c.kind == UNCOMPRESSED ==> 4 <= |c.body| <= 4 + MAX_UNCOMPRESSED_CHUNK)
    && (c.kind == STREAM_ID ==> c.body == STREAM_MAGIC)
    && !(0x02 <= c.kind <= 0x7f)
  }

  function DataLen(dl: DecompressLen, c: Chunk): (r: nat)
    requires Legal(dl, c)
    ensures r <= MAX_UNCOMPRESSED_CHUNK
  {
    if c.kind == COMPRESSED then dl(c.body[4..]).value
    else if c.kind == UNCOMPRESSED then |c.body| - 4
    else 0
  }

  predicate AllLegal(dl: DecompressLen, cs: seq<Chunk>) {
    forall i :: 0 <= i < |cs| ==> Legal(dl, cs[i])
  }

  function ChunksBytes(dl: DecompressLen, cs: seq<Chunk>): (r: seq<byte>)
    requires AllLegal(dl, cs)
  {
    if cs == [] then [] else ChunkBytes(cs[0]) + ChunksBytes(dl, cs[1..])
  }

  function TotalData(dl: DecompressLen, cs: seq<Chunk>): (r: nat)
    requires AllLegal(dl, cs)
  {
    if cs == [] then 0 else DataLen(dl, cs[0]) + TotalData(dl, cs[1..])
  }

  /** The chunks carry exactly `need` bytes of data and no chunk comes after the last of it. */
  predicate Spells(dl: DecompressLen, cs: seq<Chunk>, need: nat) {
    AllLegal(dl, cs)
    && TotalData(dl, cs) == need
    && forall k :: 0 <= k < |cs| ==> TotalData(dl, cs[..k]) < need
  }

  /** `bytes` is a whole frame for `expected` bytes of data. */
  ghost predicate IsFrame(dl: DecompressLen, bytes: seq<byte>, expected: nat) {
    exists cs: seq<Chunk> ::
      Spells(dl, cs, expected) && bytes == STREAM_IDENTIFIER + ChunksBytes(dl, cs)
  }

  lemma LegalCons(dl: DecompressLen, cs: seq<Chunk>)
    requires cs != [] && Legal(dl, cs[0]) && AllLegal(dl, cs[1..])
    ensures AllLegal(dl, cs)
  {
    forall i | 0 <= i < |cs| ensures Legal(dl, cs[i]) {
      if i > 0 { assert cs[i] == cs[1..][i - 1]; }
    }
  }

  /** `Spells`, read from the front. */
  predicate SpellsOut(dl: DecompressLen, cs: seq<Chunk>, need: nat) {
    if cs == [] then need == 0
    else
      need > 0 && Legal(dl, cs[0]) && DataLen(dl, cs[0]) <= need
      && SpellsOut(dl, cs[1..], need - DataLen(dl, cs[0]))
  }

  lemma {:induction false} SpellsOutIsSpells(dl: DecompressLen, cs: seq<Chunk>, need: nat)
    ensures SpellsOut(dl, cs, need) <==> Spells(dl, cs, need)
    decreases |cs|
  {
    if cs != [] && Legal(dl, cs[0]) {
      var rest, first := cs[1..], DataLen(dl, cs[0]);
      if AllLegal(dl, rest) {
        LegalCons(dl, cs);
        forall k | 0 <= k <= |rest|
          ensures TotalData(dl, cs[..k + 1]) == first + TotalData(dl, rest[..k])
        {
          assert cs[..k + 1][1..] == rest[..k];
        }
      }
      if first <= need { SpellsOutIsSpells(dl, rest, need - first); }
      SpellsBothWays(dl, cs, need);
    }
  }

  lemma SpellsBothWays(dl: DecompressLen, cs: seq<Chunk>, need: nat)
    requires cs != [] && Legal(dl, cs[0])
    requires AllLegal(dl, cs[1..]) ==> AllLegal(dl, cs)
    requires AllLegal(dl, cs[1..]) ==> forall k :: 0 <= k < |cs| ==>
               TotalData(dl, cs[..k + 1]) == DataLen(dl, cs[0]) + TotalData(dl, cs[1..][..k])
    ensures Spells(dl, cs, need)
            <==> need > 0 && DataLen(dl, cs[0]) <= need && Spells(dl, cs[1..], need - DataLen(dl, cs[0]))
  {
    var rest, first := cs[1..], DataLen(dl, cs[0]);
    assert cs[..0] == [];
    if Spells(dl, cs, need) {
      assert TotalData(dl, cs[..0]) < need;
      assert AllLegal(dl, rest);
      forall k | 0 <= k < |rest| ensures TotalData(dl, rest[..k]) < need - first {
        assert TotalData(dl, cs[..k + 1]) < need;
      }
    }
    if need > 0 && first <= need && Spells(dl, rest, need - first) {
      forall k | 0 <= k < |cs| ensures TotalData(dl, cs[..k]) < need {
        if k > 0 { assert TotalData(dl, rest[..k - 1]) < need - first; }
      }
    }
  }

  lemma U24RoundTrip(n: nat, src: seq<byte>, at: nat)
    requires n <= MAX_CHUNK_LEN && at + 3 <= |src| && src[at..at + 3] == U24(n)
    ensures ReadU24(src, at) == n
  {
    assert src[at] == src[at..at + 3][0];
    assert src[at + 1] == src[at..at + 3][1];
    assert src[at + 2] == src[at..at + 3][2];
  }

  lemma U24Inverse(src: seq<byte>, at: nat)
    requires at + 3 <= |src|
    ensures U24(ReadU24(src, at)) == src[at..at + 3]
  {
    var b0: int, b1: int, b2: int := src[at], src[at + 1], src[at + 2];
    var n := b0 + 0x100 * b1 + 0x1_0000 * b2;
    assert n / 0x1_0000 == b2;
    assert n / 0x100 == b1 + 0x100 * b2;
  }

  /** The chunk that stands at `pos`. */
  function ChunkAt(src: seq<byte>, pos: nat, end: nat): (r: Chunk)
    requires pos + 4 <= end <= |src|
  {
    Chunk(src[pos], src[pos + 4..end])
  }

  /** A chunk the scan passes is a legal chunk standing there, with its data length. */
  lemma PassedChunkIsLegal(dl: DecompressLen, src: seq<byte>, cap: nat, pos: nat)
    requires pos <= |src|
    requires var v := ReadChunk(dl, src, cap, pos); v.Skip? || v.Data?
    ensures var v := ReadChunk(dl, src, cap, pos); var c := ChunkAt(src, pos, v.end);
            Legal(dl, c) && src[pos..v.end] == ChunkBytes(c)
            && DataLen(dl, c) == (if v.Data? then v.len else 0)
  {
    var v := ReadChunk(dl, src, cap, pos);
    var c := ChunkAt(src, pos, v.end);
    assert |c.body| == ReadU24(src, pos + 1);
    U24Inverse(src, pos + 1);
    if |c.body| >= 4 { assert c.body[4..] == src[pos + 8..v.end]; }
    CutInThree(src, pos, v.end);
  }

  lemma CutInThree(src: seq<byte>, pos: nat, end: nat)
    requires pos + 4 <= end <= |src|
    ensures src[pos..end] == [src[pos]] + src[pos + 1..pos + 4] + src[pos + 4..end]
  {
    var parts := [src[pos]] + src[pos + 1..pos + 4] + src[pos + 4..end];
    assert forall k :: 0 <= k < end - pos ==> src[pos..end][k] == parts[k];
  }

  /** A legal chunk within the cap is passed, with its data length. */
  lemma LegalChunkIsPassed(dl: DecompressLen, src: seq<byte>, cap: nat, pos: nat, c: Chunk)
    requires Legal(dl, c)
    requires var end := pos + |ChunkBytes(c)|; end <= |src| && end <= cap && src[pos..end] == ChunkBytes(c)
    ensures var end := pos + |ChunkBytes(c)|;
            ReadChunk(dl, src, cap, pos)
            == if c.kind == COMPRESSED || c.kind == UNCOMPRESSED then Data(DataLen(dl, c), end) else Skip(end)
  {
    ChunkStands(src, pos, c);
    U24RoundTrip(|c.body|, src, pos + 1);
    StandingChunkIsPassed(dl, src, cap, pos, c);
  }

  /** A slice that stands somewhere has its own slices there. */
  lemma SlicesStand(src: seq<byte>, at: nat, w: seq<byte>, i: nat, j: nat)
    requires at + |w| <= |src| && src[at..at + |w|] == w && i <= j <= |w|
    ensures src[at + i..at + j] == w[i..j]
  {
    forall k | 0 <= k < j - i ensures src[at + i..at + j][k] == w[i..j][k] {
      assert src[at..at + |w|][i + k] == w[i + k];
    }
  }

  /** The parts of a chunk stand where the scan looks for them. */
  lemma ChunkStands(src: seq<byte>, pos: nat, c: Chunk)
    requires |c.body| <= MAX_CHUNK_LEN
    requires var end := pos + |ChunkBytes(c)|; end <= |src| && src[pos..end] == ChunkBytes(c)
    ensures var end := pos + 4 + |c.body|;
            end <= |src| && src[pos] == c.kind && src[pos + 1..pos + 4] == U24(|c.body|) && src[pos + 4..end] == c.body
            && (|c.body| >= 4 ==> src[pos + 8..end] == c.body[4..])
  {
    var w := ChunkBytes(c);
    assert |w| == 4 + |c.body| && w[0] == c.kind && w[1..4] == U24(|c.body|) && w[4..|w|] == c.body;
    assert src[pos..pos + |w|][0] == src[pos];
    SlicesStand(src, pos, w, 1, 4);
    SlicesStand(src, pos, w, 4, |w|);
    if |c.body| >= 4 {
      SlicesStand(src, pos, w, 8, |w|);
      assert w[8..|w|] == w[4..|w|][4..];
    }
  }

  lemma StandingChunkIsPassed(dl: DecompressLen, src: seq<byte>, cap: nat, pos: nat, c: Chunk)
    requires Legal(dl, c)
    requires var end := pos + 4 + |c.body|;
             end <= |src| && end <= cap && src[pos] == c.kind && ReadU24(src, pos + 1) == |c.body| && src[pos + 4..end] == c.body
             && (|c.body| >= 4 ==> src[pos + 8..end] == c.body[4..])
    ensures var end := pos + 4 + |c.body|;
            ReadChunk(dl, src, cap, pos)
            == if c.kind == COMPRESSED || c.kind == UNCOMPRESSED then Data(DataLen(dl, c), end) else Skip(end)
  {}

  /** From an accepted scan to the chunks it read. */
  lemma {:induction false} ScanReadsChunks(dl: DecompressLen, src: seq<byte>, expected: nat, cap: nat, pos: nat, total: nat)
    returns (cs: seq<Chunk>)
    requires pos <= |src| && total < expected
    requires ScanFrom(dl, src, expected, cap, pos, total).Frame?
    ensures AllLegal(dl, cs) && SpellsOut(dl, cs, expected - total)
    ensures src[pos..ScanFrom(dl, src, expected, cap, pos, total).size] == ChunksBytes(dl, cs)
    decreases |src| - pos
  {
    hide ReadChunk;
    var v := ReadChunk(dl, src, cap, pos);
    var size := ScanFrom(dl, src, expected, cap, pos, total).size;
    PassedChunkIsLegal(dl, src, cap, pos);
    var c := ChunkAt(src, pos, v.end);
    var n := DataLen(dl, c);
    var rest := [];
    if total + n < expected {
      rest := ScanReadsChunks(dl, src, expected, cap, v.end, total + n);
    }
    cs := [c] + rest;
    assert cs[1..] == rest;
    LegalCons(dl, cs);
    assert src[pos..size] == src[pos..v.end] + src[v.end..size];
  }

  /** `cs` stands in `src` at `pos`, within the cap. */
  ghost predicate StandsAt(dl: DecompressLen, src: seq<byte>, cap: nat, pos: nat, cs: seq<Chunk>)
    requires AllLegal(dl, cs)
  {
    var size := pos + |ChunksBytes(dl, cs)|;
    size <= |src| && size <= cap && src[pos..size] == ChunksBytes(dl, cs)
  }

  lemma StandsFront(dl: DecompressLen, src: seq<byte>, cap: nat, pos: nat, cs: seq<Chunk>)
    requires AllLegal(dl, cs) && cs != [] && StandsAt(dl, src, cap, pos, cs)
    ensures var end := pos + |ChunkBytes(cs[0])|;
            end <= |src| && end <= cap && src[pos..end] == ChunkBytes(cs[0]) && StandsAt(dl, src, cap, end, cs[1..])
  {
    var size := pos + |ChunksBytes(dl, cs)|;
    var end := pos + |ChunkBytes(cs[0])|;
    assert src[pos..end] == src[pos..size][..end - pos];
    assert src[end..size] == src[pos..size][end - pos..];
  }

  /** One passed chunk moves the scan on by its size and its data. */
  lemma ScanOneChunk(dl: DecompressLen, src: seq<byte>, expected: nat, cap: nat, pos: nat, total: nat, c: Chunk)
    requires total < expected && Legal(dl, c) && total + DataLen(dl, c) <= expected
    requires var end := pos + |ChunkBytes(c)|; end <= |src| && end <= cap && src[pos..end] == ChunkBytes(c)
    ensures var end, sum := pos + |ChunkBytes(c)|, total + DataLen(dl, c);
            ScanFrom(dl, src, expected, cap, pos, total)
            == if sum == expected then Frame(end) else ScanFrom(dl, src, expected, cap, end, sum)
  {
    hide ReadChunk;
    LegalChunkIsPassed(dl, src, cap, pos, c);
  }

  /** From chunks within the cap to an accepted scan. */
  lemma {:induction false} ChunksAreScanned(dl: DecompressLen, src: seq<byte>, expected: nat, cap: nat, pos: nat, total: nat, cs: seq<Chunk>)
    requires pos <= |src| && total < expected
    requires AllLegal(dl, cs) && SpellsOut(dl, cs, expected - total) && StandsAt(dl, src, cap, pos, cs)
    ensures ScanFrom(dl, src, expected, cap, pos, total) == Frame(pos + |ChunksBytes(dl, cs)|)
    decreases |cs|
  {
    hide ScanFrom;
    hide StandsAt;
    StandsFront(dl, src, cap, pos, cs);
    ScanOneChunk(dl, src, expected, cap, pos, total, cs[0]);
    var n := DataLen(dl, cs[0]);
    if total + n < expected {
      ChunksAreScanned(dl, src, expected, cap, pos + |ChunkBytes(cs[0])|, total + n, cs[1..]);
    }
  }

  /** The scan answers `n` exactly when the first `n` bytes are a frame for the declared
      length and stay within the cap. */
  lemma ScanIsGrammar(dl: DecompressLen, src: seq<byte>, expected: nat, n: nat)
    ensures FrameSize(dl, src, expected) == Frame(n)
            <==> n <= |src| && n <= FramedCap(expected) < USIZE_MODULUS && IsFrame(dl, src[..n], expected)
  {
    if FrameSize(dl, src, expected) == Frame(n) { ScannedIsFrame(dl, src, expected); }
    if n <= |src| && n <= FramedCap(expected) < USIZE_MODULUS && IsFrame(dl, src[..n], expected) {
      hide FrameSize, Spells;
      var cs :| Spells(dl, cs, expected) && src[..n] == STREAM_IDENTIFIER + ChunksBytes(dl, cs);
      FrameBytesAreScanned(dl, src, expected, cs);
    }
  }

  lemma ScannedIsFrame(dl: DecompressLen, src: seq<byte>, expected: nat)
    requires FrameSize(dl, src, expected).Frame?
    ensures FramedCap(expected) < USIZE_MODULUS && IsFrame(dl, src[..FrameSize(dl, src, expected).size], expected)
  {
    var n := FrameSize(dl, src, expected).size;
    var cs := [];
    if expected > 0 {
      hide ScanFrom;
      cs := ScanReadsChunks(dl, src, expected, FramedCap(expected), STREAM_LEN, 0);
    }
    SpellsOutIsSpells(dl, cs, expected);
    assert src[..n] == src[..STREAM_LEN] + src[STREAM_LEN..n];
    assert Spells(dl, cs, expected) && src[..n] == STREAM_IDENTIFIER + ChunksBytes(dl, cs);
  }

  lemma FrameBytesAreScanned(dl: DecompressLen, src: seq<byte>, expected: nat, cs: seq<Chunk>)
    requires Spells(dl, cs, expected)
    requires STREAM_IDENTIFIER + ChunksBytes(dl, cs) <= src
    requires STREAM_LEN + |ChunksBytes(dl, cs)| <= FramedCap(expected) < USIZE_MODULUS
    ensures FrameSize(dl, src, expected) == Frame(STREAM_LEN + |ChunksBytes(dl, cs)|)
  {
    var frame := STREAM_IDENTIFIER + ChunksBytes(dl, cs);
    assert src[..STREAM_LEN] == frame[..STREAM_LEN] == STREAM_IDENTIFIER;
    assert src[STREAM_LEN..|frame|] == frame[STREAM_LEN..] == ChunksBytes(dl, cs);
    SpellsOutIsSpells(dl, cs, expected);
    if expected > 0 {
      ChunksAreScanned(dl, src, expected, FramedCap(expected), STREAM_LEN, 0, cs);
    }
  }

  /** A chunk that has begun and could still become legal: its header is not whole, or it is
      one of a kind that may be and its end, within the cap, has not come. */
  predicate Unfinished(rest: seq<byte>, pos: nat, cap: nat) {
    |rest| < 4
    || (!(0x02 <= rest[0] <= 0x7f) && |rest| < 4 + ReadU24(rest, 1) && pos + 4 + ReadU24(rest, 1) <= cap)
  }

  lemma ChunkWaitsIff(dl: DecompressLen, src: seq<byte>, cap: nat, pos: nat)
    requires pos <= |src|
    ensures ReadChunk(dl, src, cap, pos).Wait? <==> Unfinished(src[pos..], pos, cap)
  {
    if pos + 4 <= |src| { assert ReadU24(src[pos..], 1) == ReadU24(src, pos + 1); }
  }

  /** `src`, from `pos` on, is legal chunks with less data than is still needed, within the
      cap, and then an unfinished chunk. */
  ghost predicate Waits(dl: DecompressLen, src: seq<byte>, cap: nat, pos: nat, need: nat, cs: seq<Chunk>)
    requires pos <= |src|
  {
    AllLegal(dl, cs) && TotalData(dl, cs) < need && StandsAt(dl, src, cap, pos, cs)
    && Unfinished(src[pos + |ChunksBytes(dl, cs)|..], pos + |ChunksBytes(dl, cs)|, cap)
  }

  lemma WaitsCons(dl: DecompressLen, src: seq<byte>, cap: nat, pos: nat, need: nat, c: Chunk, cs: seq<Chunk>)
    requires Legal(dl, c) && DataLen(dl, c) < need
    requires var end := pos + |ChunkBytes(c)|;
             end <= |src| && end <= cap && src[pos..end] == ChunkBytes(c) && Waits(dl, src, cap, end, need - DataLen(dl, c), cs)
    ensures Waits(dl, src, cap, pos, need, [c] + cs)
  {
    var all := [c] + cs;
    var end := pos + |ChunkBytes(c)|;
    var size := end + |ChunksBytes(dl, cs)|;
    assert all[1..] == cs;
    LegalCons(dl, all);
    assert TotalData(dl, all) == DataLen(dl, c) + TotalData(dl, cs);
    assert ChunksBytes(dl, all) == ChunkBytes(c) + ChunksBytes(dl, cs);
    hide Unfinished, DataLen, TotalData, ChunksBytes, ChunkBytes, AllLegal, Legal;
    assert src[pos..size] == src[pos..end] + src[end..size];
  }

  lemma {:induction false} WaitingReadsChunks(dl: DecompressLen, src: seq<byte>, expected: nat, cap: nat, pos: nat, total: nat)
    returns (cs: seq<Chunk>)
    requires pos <= |src| && pos <= cap && total < expected
    requires ScanFrom(dl, src, expected, cap, pos, total).NeedMore?
    ensures Waits(dl, src, cap, pos, expected - total, cs)
    decreases |src| - pos
  {
    hide ReadChunk, Unfinished, Legal, DataLen, StandsAt;
    var v := ReadChunk(dl, src, cap, pos);
    if v.Wait? {
      ChunkWaitsIff(dl, src, cap, pos);
      cs := [];
      NothingStands(dl, src, cap, pos);
    } else {
      PassedChunkIsLegal(dl, src, cap, pos);
      var c := ChunkAt(src, pos, v.end);
      var rest := WaitingReadsChunks(dl, src, expected, cap, v.end, total + DataLen(dl, c));
      ChunkSize(src, pos, v.end);
      WaitsCons(dl, src, cap, pos, expected - total, c, rest);
      cs := [c] + rest;
    }
  }

  lemma ChunkSize(src: seq<byte>, pos: nat, end: nat)
    requires pos + 4 <= end <= |src| && |ChunkAt(src, pos, end).body| <= MAX_CHUNK_LEN
    ensures pos + |ChunkBytes(ChunkAt(src, pos, end))| == end
  {}

  lemma NothingStands(dl: DecompressLen, src: seq<byte>, cap: nat, pos: nat)
    requires pos <= |src| && pos <= cap
    ensures AllLegal(dl, []) && ChunksBytes(dl, []) == [] && TotalData(dl, []) == 0 && StandsAt(dl, src, cap, pos, [])
  {
    assert src[pos..pos] == [];
  }

  lemma {:induction false} WaitingIsScanned(dl: DecompressLen, src: seq<byte>, expected: nat, cap: nat, pos: nat, total: nat, cs: seq<Chunk>)
    requires pos <= |src| && total < expected && Waits(dl, src, cap, pos, expected - total, cs)
    ensures ScanFrom(dl, src, expected, cap, pos, total).NeedMore?
    decreases |cs|
  {
    hide ReadChunk, Unfinished, StandsAt, DataLen;
    if cs == [] {
      ChunkWaitsIff(dl, src, cap, pos);
    } else {
      hide ScanFrom;
      StandsFront(dl, src, cap, pos, cs);
      ScanOneChunk(dl, src, expected, cap, pos, total, cs[0]);
      WaitingIsScanned(dl, src, expected, cap, pos + |ChunkBytes(cs[0])|, total + DataLen(dl, cs[0]), cs[1..]);
    }
  }

  /** The input is the identifier, legal chunks with less data than declared, and an
      unfinished chunk. */
  ghost predicate IsBeginning(dl: DecompressLen, src: seq<byte>, expected: nat) {
    STREAM_IDENTIFIER <= src && exists cs: seq<Chunk> :: Waits(dl, src, FramedCap(expected), STREAM_LEN, expected, cs)
  }

  /** The scan asks for more exactly when the input is shorter than the identifier, or is the
      beginning of a frame for a length that can be declared: whatever else it is given it
      accepts or rejects at once. */
  lemma NeedMoreIff(dl: DecompressLen, src: seq<byte>, expected: nat)
    ensures FrameSize(dl, src, expected).NeedMore?
            <==> |src| < 10 || (expected > 0 && FramedCap(expected) < USIZE_MODULUS && IsBeginning(dl, src, expected))
  {
    hide ScanFrom, Waits, FramedCap;
    var cap := FramedCap(expected);
    if FrameSize(dl, src, expected).NeedMore? && |src| >= STREAM_LEN {
      var cs := WaitingReadsChunks(dl, src, expected, cap, STREAM_LEN, 0);
      assert Waits(dl, src, cap, STREAM_LEN, expected, cs);
    }
    if |src| >= STREAM_LEN && expected > 0 && cap < USIZE_MODULUS && IsBeginning(dl, src, expected) {
      var cs :| Waits(dl, src, cap, STREAM_LEN, expected, cs);
      WaitingIsScanned(dl, src, expected, cap, STREAM_LEN, 0, cs);
      assert src[..STREAM_LEN] == STREAM_IDENTIFIER;
    }
  }

  /** Every proper prefix of a frame asks for more. */
  lemma ShorterPrefixNeedsMore(dl: DecompressLen, src: seq<byte>, expected: nat, k: nat)
    requires FrameSize(dl, src, expected).Frame?
    requires k < FrameSize(dl, src, expected).size
    ensures FrameSize(dl, src[..k], expected).NeedMore?
  {
    assert src[..k] + src[k..] == src;
    if !FrameSize(dl, src[..k], expected).NeedMore? {
      FrameSizeStable(dl, src[..k], src[k..], expected);
    }
  }

  /** A rejected input has no continuation that is a frame within the cap. */
  lemma RejectionIsFinal(dl: DecompressLen, src: seq<byte>, ext: seq<byte>, expected: nat, n: nat)
    requires FrameSize(dl, src, expected).Malformed?
    requires n <= |src + ext| && n <= FramedCap(expected) < USIZE_MODULUS
    ensures !IsFrame(dl, (src + ext)[..n], expected)
  {
    FrameSizeStable(dl, src, ext, expected);
    ScanIsGrammar(dl, src + ext, expected, n);
  }

  /** Data cut into full blocks, the last may be short, each packed within the compressor's bound. */
  predicate Blocked(dl: DecompressLen, cs: seq<Chunk>, need: nat) {
    if cs == [] then need == 0
    else
      need > 0 && Legal(dl, cs[0]) && (cs[0].kind == COMPRESSED || cs[0].kind == UNCOMPRESSED)
      && DataLen(dl, cs[0]) == (if need < MAX_UNCOMPRESSED_CHUNK then need else MAX_UNCOMPRESSED_CHUNK)
      && |cs[0].body| <= 4 + MaxCompressLen(DataLen(dl, cs[0]))
      && Blocked(dl, cs[1..], need - DataLen(dl, cs[0]))
  }

  lemma {:induction false} BlockedFitsCap(dl: DecompressLen, cs: seq<Chunk>, need: nat)
    requires Blocked(dl, cs, need)
    ensures AllLegal(dl, cs) && SpellsOut(dl, cs, need)
    ensures STREAM_LEN + |ChunksBytes(dl, cs)| <= FramedCap(need)
    decreases |cs|
  {
    if cs != [] {
      var n := DataLen(dl, cs[0]);
      BlockedFitsCap(dl, cs[1..], need - n);
      CapOfNextBlock(need);
      LegalCons(dl, cs);
      assert |ChunkBytes(cs[0])| == 4 + |cs[0].body|;
    }
  }

  /** The cap turns away no compressor that cuts its data into blocks: such a frame is
      accepted at its exact size, whatever follows it. */
  lemma BlockedFramesAreAccepted(dl: DecompressLen, cs: seq<Chunk>, expected: nat, tail: seq<byte>)
    requires Blocked(dl, cs, expected) && FramedCap(expected) < USIZE_MODULUS
    ensures Spells(dl, cs, expected)
    ensures var frame := STREAM_IDENTIFIER + ChunksBytes(dl, cs);
            FrameSize(dl, frame + tail, expected) == Frame(|frame|)
  {
    BlockedFitsCap(dl, cs, expected);
    SpellsOutIsSpells(dl, cs, expected);
    FrameBytesAreScanned(dl, STREAM_IDENTIFIER + ChunksBytes(dl, cs) + tail, expected, cs);
  }

  /** The chunks of a frame that stores its data uncompressed. `crc` stands for the checksum. */
  function Store(crc: seq<byte>, data: seq<byte>): (cs: seq<Chunk>)
    requires |crc| == 4
    decreases |data|
  {
    if data == [] then []
    else
      var n := if |data| < MAX_UNCOMPRESSED_CHUNK then |data| else MAX_UNCOMPRESSED_CHUNK;
      [Chunk(UNCOMPRESSED, crc + data[..n])] + Store(crc, data[n..])
  }

  /** So every payload has a frame the scan accepts. */
  lemma {:induction false} StoredDataIsBlocked(dl: DecompressLen, crc: seq<byte>, data: seq<byte>)
    requires |crc| == 4
    ensures Blocked(dl, Store(crc, data), |data|)
    decreases |data|
  {
    if data != [] {
      var n := if |data| < MAX_UNCOMPRESSED_CHUNK then |data| else MAX_UNCOMPRESSED_CHUNK;
      StoredDataIsBlocked(dl, crc, data[n..]);
      var cs := Store(crc, data);
      assert cs[1..] == Store(crc, data[n..]);
      assert |cs[0].body| == 4 + n;
    }
  }
}
