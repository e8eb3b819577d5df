/** The unsigned varint that prefixes every request and response: little-endian
    groups of seven bits, minimal, at most ten bytes, read into a 64-bit `usize`. */
module Varint {
  import opened Basics

  const MAX_VARINT_BYTES: nat := 10

  datatype VarintResult =
    | Insufficient
    | NotMinimal
    | Overflow
    | Decoded(value: nat, len: nat)

  /** Reads the groups at the front of `src`, where `i` groups came before.
      The value is the exact sum, before it is cut to 64 bits. */
  function Groups(src: seq<byte>, i: nat): (r: VarintResult)
    requires i < MAX_VARINT_BYTES
    ensures r.Decoded? ==> 1 <= r.len <= |src| && r.len + i <= MAX_VARINT_BYTES
    ensures r.Insufficient? ==> |src| + i < MAX_VARINT_BYTES
    decreases |src|
  {
    if src == [] then Insufficient
    else if src[0] < 128 then
      if src[0] == 0 && i > 0 then NotMinimal else Decoded(src[0], 1)
    else if i == MAX_VARINT_BYTES - 1 then Overflow
    else
      match Groups(src[1..], i + 1)
      case Decoded(v, n) => Decoded(src[0] - 128 + 128 * v, n + 1)
      case other => other
  }

  /** The groups are shifted into a `u64`, so bits from 64 up are lost. */
  function DecodeUsize(src: seq<byte>): (r: VarintResult)
    ensures r.Decoded? ==> 1 <= r.len <= |src| && r.len <= MAX_VARINT_BYTES && r.value < USIZE_MODULUS
    ensures r.Insufficient? ==> |src| < MAX_VARINT_BYTES
  {
    match Groups(src, 0)
    case Decoded(v, n) => Decoded(v % USIZE_MODULUS, n)
    case other => other
  }

  function EncodeUsize(v: nat): (r: seq<byte>)
    ensures |r| >= 1
  {
    if v < 128 then [v] else [128 + v % 128] + EncodeUsize(v / 128)
  }

  /** `encode_varint` appends to the buffer it is given. */
  method AppendVarint(value: nat, dst: seq<byte>) returns (r: seq<byte>)
    requires value < USIZE_MODULUS
    ensures r == dst + EncodeUsize(value)
  {
    var rest := value;
    r := dst;
    while rest >= 128
      invariant r + EncodeUsize(rest) == dst + EncodeUsize(value)
    {
      assert EncodeUsize(rest) == [128 + rest % 128] + EncodeUsize(rest / 128);
      r := r + [128 + rest % 128];
      rest := rest / 128;
    }
    r := r + [rest];
  }

  ghost function Pow128(k: nat): (r: nat)
    ensures r >= 1
  {
    if k == 0 then 1 else 128 * Pow128(k - 1)
  }

  /** Only an incomplete prefix can change its reading when bytes arrive. */
  lemma {:induction false} GroupsStable(src: seq<byte>, ext: seq<byte>, i: nat)
    requires i < MAX_VARINT_BYTES
    requires !Groups(src, i).Insufficient?
    ensures Groups(src + ext, i) == Groups(src, i)
    decreases |src|
  {
    if src[0] >= 128 && i < MAX_VARINT_BYTES - 1 {
      assert (src + ext)[1..] == src[1..] + ext;
      GroupsStable(src[1..], ext, i + 1);
    }
  }

  lemma DecodeStable(src: seq<byte>, ext: seq<byte>)
    requires !DecodeUsize(src).Insufficient?
    ensures DecodeUsize(src + ext) == DecodeUsize(src)
  {
    GroupsStable(src, ext, 0);
  }

  lemma {:induction false} GroupsOfEncoding(v: nat, tail: seq<byte>, i: nat)
    requires i < MAX_VARINT_BYTES
    requires v < Pow128(MAX_VARINT_BYTES - i)
    requires i > 0 ==> v > 0
    ensures Groups(EncodeUsize(v) + tail, i) == Decoded(v, |EncodeUsize(v)|)
    decreases v
  {
    if v >= 128 {
      assert Pow128(1) == 128 * Pow128(0);
      var e := EncodeUsize(v);
      assert (e + tail)[1..] == EncodeUsize(v / 128) + tail;
      assert Pow128(MAX_VARINT_BYTES - i) == 128 * Pow128(MAX_VARINT_BYTES - i - 1);
      GroupsOfEncoding(v / 128, tail, i + 1);
    } else {
      assert (EncodeUsize(v) + tail)[0] == v;
    }
  }

  lemma Pow128Values()
    ensures Pow128(9) * 2 == USIZE_MODULUS
    ensures Pow128(10) > USIZE_MODULUS
  {
    assert Pow128(0) == 1;
    assert Pow128(1) == 0x80;
    assert Pow128(2) == 0x4000;
    assert Pow128(3) == 0x20_0000;
    assert Pow128(4) == 0x1000_0000;
    assert Pow128(5) == 0x8_0000_0000;
    assert Pow128(6) == 0x400_0000_0000;
    assert Pow128(7) == 0x2_0000_0000_0000;
    assert Pow128(8) == 0x100_0000_0000_0000;
    assert Pow128(9) == 0x8000_0000_0000_0000;
  }

  /** Every `usize` is read back from its encoding, whatever follows it. */
  lemma VarintRoundTrip(v: nat, tail: seq<byte>)
    requires v < USIZE_MODULUS
    ensures DecodeUsize(EncodeUsize(v) + tail) == Decoded(v, |EncodeUsize(v)|)
  {
    Pow128Values();
    GroupsOfEncoding(v, tail, 0);
  }

  /** The groups read are the one minimal encoding of their exact sum. */
  lemma {:induction false} GroupsAreMinimal(src: seq<byte>, i: nat)
    requires i < MAX_VARINT_BYTES
    requires Groups(src, i).Decoded?
    ensures var d := Groups(src, i);
            src[..d.len] == EncodeUsize(d.value) && (i > 0 ==> d.value > 0)
    decreases |src|
  {
    var d := Groups(src, i);
    if src[0] >= 128 {
      var rest := Groups(src[1..], i + 1);
      GroupsAreMinimal(src[1..], i + 1);
      assert d.value / 128 == rest.value && d.value % 128 == src[0] - 128;
      assert src[..d.len] == [src[0]] + src[1..][..rest.len];
    } else {
      assert src[..1] == [src[0]];
    }
  }

  lemma ScaleBound(a: nat, v: nat, p: nat, low: nat)
    requires a * p <= v < (a + 1) * p && low < 128
    ensures a * (128 * p) <= low + 128 * v < (a + 1) * (128 * p)
  {
    assert a * (128 * p) == 128 * (a * p);
    assert (a + 1) * (128 * p) == 128 * ((a + 1) * p);
    assert v + 1 <= (a + 1) * p;
  }

  /** The last byte of the prefix fixes the size of the exact sum. */
  lemma {:induction false} LastGroupBounds(src: seq<byte>, i: nat)
    requires i < MAX_VARINT_BYTES
    requires Groups(src, i).Decoded?
    ensures var d := Groups(src, i); var last := src[d.len - 1];
            last * Pow128(d.len - 1) <= d.value < (last + 1) * Pow128(d.len - 1)
    decreases |src|
  {
    if src[0] >= 128 {
      var rest := Groups(src[1..], i + 1);
      LastGroupBounds(src[1..], i + 1);
      ScaleBound(src[1..][rest.len - 1], rest.value, Pow128(rest.len - 1), src[0] - 128);
    }
  }

  /** The exact sum fits 64 bits unless a tenth byte carries more than one bit. */
  lemma ExactSumFits(src: seq<byte>)
    requires Groups(src, 0).Decoded?
    ensures var g := Groups(src, 0);
            g.value < USIZE_MODULUS <==> (g.len < MAX_VARINT_BYTES || src[9] <= 1)
  {
    var g := Groups(src, 0);
    LastGroupBounds(src, 0);
    Pow128Values();
    if g.len < MAX_VARINT_BYTES {
      TerminalGroupIsSmall(src, 0);
      MulMonotone(src[g.len - 1] + 1, 128, Pow128(g.len - 1));
      assert g.value < Pow128(g.len);
      Pow128Monotone(g.len, 9);
    } else if src[9] <= 1 {
      MulMonotone(src[9] + 1, 2, Pow128(9));
    } else {
      MulMonotone(2, src[9], Pow128(9));
    }
  }

  /** Reading is the inverse of writing exactly when no bit was lost: a prefix of
      ten bytes keeps one bit of its last byte. */
  lemma PrefixIsCanonicalIff(src: seq<byte>)
    requires DecodeUsize(src).Decoded?
    ensures var d := DecodeUsize(src);
            src[..d.len] == EncodeUsize(d.value) <==> (d.len < MAX_VARINT_BYTES || src[9] <= 1)
  {
    var g := Groups(src, 0);
    GroupsAreMinimal(src, 0);
    ExactSumFits(src);
    if g.value >= USIZE_MODULUS && EncodeUsize(g.value) == EncodeUsize(g.value % USIZE_MODULUS) {
      EncodingIsInjective(g.value, g.value % USIZE_MODULUS);
    }
  }

  lemma {:induction false} EncodingIsInjective(a: nat, b: nat)
    requires EncodeUsize(a) == EncodeUsize(b)
    ensures a == b
  {
    assert EncodeUsize(a)[0] == EncodeUsize(b)[0];
    if a >= 128 && b >= 128 {
      assert EncodeUsize(a)[1..] == EncodeUsize(a / 128);
      assert EncodeUsize(b)[1..] == EncodeUsize(b / 128);
      EncodingIsInjective(a / 128, b / 128);
    }
  }

  lemma MulMonotone(a: nat, b: nat, p: nat)
    requires a <= b
    ensures a * p <= b * p
  {}

  lemma {:induction false} Pow128Monotone(a: nat, b: nat)
    requires a <= b
    ensures Pow128(a) <= Pow128(b)
    decreases b
  {
    if a < b { Pow128Monotone(a, b - 1); }
  }

  lemma {:induction false} TerminalGroupIsSmall(src: seq<byte>, i: nat)
    requires i < MAX_VARINT_BYTES
    requires Groups(src, i).Decoded?
    ensures src[Groups(src, i).len - 1] < 128
    decreases |src|
  {
    if src[0] >= 128 { TerminalGroupIsSmall(src[1..], i + 1); }
  }

  predicate AllContinue(s: seq<byte>) {
    forall i :: 0 <= i < |s| ==> s[i] >= 128
  }

  lemma {:induction false} GroupsWait(src: seq<byte>, i: nat)
    requires i < MAX_VARINT_BYTES
    ensures Groups(src, i).Insufficient? <==> |src| + i < MAX_VARINT_BYTES && AllContinue(src)
    ensures Groups(src, i).Overflow? <==> |src| + i >= MAX_VARINT_BYTES && AllContinue(src[..MAX_VARINT_BYTES - i])
    decreases |src|
  {
    if src != [] && src[0] >= 128 && i < MAX_VARINT_BYTES - 1 {
      GroupsWait(src[1..], i + 1);
      ContinueCons(src, |src|);
      if |src| + i >= MAX_VARINT_BYTES { ContinueCons(src, MAX_VARINT_BYTES - i); }
    } else if src != [] && |src| + i >= MAX_VARINT_BYTES {
      assert src[..MAX_VARINT_BYTES - i][0] == src[0];
    }
  }

  /** The groups end in a needless zero at `k`. */
  predicate EndsInZero(src: seq<byte>, i: nat, k: nat) {
    k < |src| && 0 < k + i < MAX_VARINT_BYTES && src[k] == 0 && AllContinue(src[..k])
  }

  lemma {:induction false} GroupsNotMinimal(src: seq<byte>, i: nat)
    requires i < MAX_VARINT_BYTES
    ensures Groups(src, i).NotMinimal? <==> exists k: nat :: EndsInZero(src, i, k)
    decreases |src|
  {
    if src != [] && src[0] >= 128 && i < MAX_VARINT_BYTES - 1 {
      GroupsNotMinimal(src[1..], i + 1);
      forall k: nat | 0 < k <= |src| ensures EndsInZero(src, i, k) <==> EndsInZero(src[1..], i + 1, k - 1) {
        ContinueCons(src, k);
      }
      if Groups(src[1..], i + 1).NotMinimal? {
        var k: nat :| EndsInZero(src[1..], i + 1, k);
        assert EndsInZero(src, i, k + 1);
      }
    } else if src != [] {
      assert src[..0] == [];
      assert EndsInZero(src, i, 0) <==> i > 0 && src[0] == 0;
      forall k: nat | 0 < k ensures !EndsInZero(src, i, k) {
        if k <= |src| { assert src[..k][0] == src[0]; }
      }
    }
  }

  lemma ContinueCons(src: seq<byte>, k: nat)
    requires 0 < k <= |src|
    ensures AllContinue(src[..k]) <==> src[0] >= 128 && AllContinue(src[1..][..k - 1])
    ensures AllContinue(src) <==> AllContinue(src[..|src|])
  {
    assert src[..|src|] == src;
    assert src[..k] == [src[0]] + src[1..][..k - 1];
  }

  /** When a prefix waits for more and when it is refused: it waits while all of fewer than
      ten bytes say that more follows, overflows when ten do, and is not minimal when it ends
      in a zero byte that is not its first. */
  lemma PrefixVerdicts(src: seq<byte>)
    ensures DecodeUsize(src).Insufficient? <==> |src| < 10 && AllContinue(src)
    ensures DecodeUsize(src).Overflow? <==> |src| >= 10 && AllContinue(src[..10])
    ensures DecodeUsize(src).NotMinimal? <==> exists k: nat :: EndsInZero(src, 0, k)
  {
    GroupsWait(src, 0);
    GroupsNotMinimal(src, 0);
  }
}
