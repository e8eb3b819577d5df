/** A framed stream: bytes arrive in pieces of any size and a decoder takes messages off
    the front. Stated for every decoder; the codecs supply theirs. */
module Framing {
  import opened Basics

  /** A decoder asks for more, takes a message of `len` bytes, or fails. */
  datatype Verdict<+E> = Pending | Item(len: nat) | Failed(error: E)

  type Decoder<!E> = d: seq<byte> -> Verdict<E> |
    forall src :: d(src).Item? ==> 0 < d(src).len <= |src|
    witness (src => Pending)

  /** A message and a failure stand whatever arrives later. */
  ghost predicate Stable<E>(d: Decoder<E>) {
    forall src: seq<byte>, ext: seq<byte> :: !d(src).Pending? ==> d(src + ext) == d(src)
  }

  /** What a reader has made of the bytes so far: the messages in order, the bytes not
      consumed, and the failure that ended decoding, if any. */
  datatype Reader<+E> = Reader(items: seq<seq<byte>>, rest: seq<byte>, error: Option<E>)

  function Start<E>(): (r: Reader<E>) {
    Reader([], [], None)
  }

  function Ahead<E>(items: seq<seq<byte>>, r: Reader<E>): (r': Reader<E>) {
    r.(items := items + r.items)
  }

  /** Decodes until more bytes are needed or decoding fails. */
  function Drain<E>(d: Decoder<E>, src: seq<byte>): (r: Reader<E>)
    decreases |src|
  {
    match d(src)
    case Pending => Reader([], src, None)
    case Failed(e) => Reader([], src, Some(e))
    case Item(n) => Ahead([src[..n]], Drain(d, src[n..]))
  }

  /** Bytes that arrive after a failure are never looked at. */
  function Feed<E>(d: Decoder<E>, r: Reader<E>, bytes: seq<byte>): (r': Reader<E>) {
    if r.error.Some? then r.(rest := r.rest + bytes)
    else Ahead(r.items, Drain(d, r.rest + bytes))
  }

  function FeedAll<E>(d: Decoder<E>, r: Reader<E>, pieces: seq<seq<byte>>): (r': Reader<E>)
    decreases |pieces|
  {
    if pieces == [] then r else FeedAll(d, Feed(d, r, pieces[0]), pieces[1..])
  }

  lemma {:induction false} DrainLosesNothing<E>(d: Decoder<E>, src: seq<byte>)
    ensures Flatten(Drain(d, src).items) + Drain(d, src).rest == src
    decreases |src|
  {
    match d(src)
    case Item(n) =>
      var more := Drain(d, src[n..]);
      DrainLosesNothing(d, src[n..]);
      assert Drain(d, src).items == [src[..n]] + more.items;
      FlattenCons(src[..n], more.items);
      Associate(src[..n], Flatten(more.items), more.rest);
      assert src[..n] + src[n..] == src;
    case _ =>
  }

  lemma FlattenCons(first: seq<byte>, rest: seq<seq<byte>>)
    ensures Flatten([first] + rest) == first + Flatten(rest)
  {
    assert ([first] + rest)[1..] == rest;
  }

  /** Draining a longer buffer is draining the shorter one and going on from there. */
  lemma {:induction false} DrainInTwoReads<E>(d: Decoder<E>, a: seq<byte>, b: seq<byte>)
    requires Stable(d)
    ensures Drain(d, a + b) == Feed(d, Drain(d, a), b)
    decreases |a|
  {
    match d(a)
    case Pending =>
    case Failed(_) => assert d(a + b) == d(a);
    case Item(n) =>
      assert d(a + b) == d(a);
      assert (a + b)[..n] == a[..n] && (a + b)[n..] == a[n..] + b;
      DrainInTwoReads(d, a[n..], b);
      var rest := Drain(d, a[n..]);
      AheadTwice([a[..n]], rest.items, Drain(d, rest.rest + b));
  }

  lemma FeedInTwoReads<E>(d: Decoder<E>, r: Reader<E>, a: seq<byte>, b: seq<byte>)
    requires Stable(d)
    ensures Feed(d, Feed(d, r, a), b) == Feed(d, r, a + b)
  {
    if r.error.Some? {
      assert r.rest + a + b == r.rest + (a + b);
    } else {
      assert r.rest + (a + b) == (r.rest + a) + b;
      DrainInTwoReads(d, r.rest + a, b);
      var first := Drain(d, r.rest + a);
      AheadTwice(r.items, first.items, Drain(d, first.rest + b));
    }
  }

  /** A reader that has drained its buffer. */
  ghost predicate Settled<E>(d: Decoder<E>, r: Reader<E>) {
    r.error.None? ==> d(r.rest).Pending?
  }

  lemma {:induction false} DrainSettles<E>(d: Decoder<E>, src: seq<byte>)
    ensures Settled(d, Drain(d, src))
    decreases |src|
  {
    match d(src)
    case Item(n) => DrainSettles(d, src[n..]);
    case _ =>
  }

  /** Reading in pieces ends where one read of everything ends. */
  lemma {:induction false} SplitsDoNotMatter<E>(d: Decoder<E>, r: Reader<E>, pieces: seq<seq<byte>>)
    requires Stable(d)
    requires Settled(d, r) || pieces != []
    ensures FeedAll(d, r, pieces) == Feed(d, r, Flatten(pieces))
    decreases |pieces|
  {
    if pieces == [] {
      assert r.rest + [] == r.rest;
      assert r.items + [] == r.items;
    } else {
      if r.error.None? { DrainSettles(d, r.rest + pieces[0]); }
      SplitsDoNotMatter(d, Feed(d, r, pieces[0]), pieces[1..]);
      FeedInTwoReads(d, r, pieces[0], Flatten(pieces[1..]));
    }
  }

  /** The decoder takes the payload, all of it. */
  ghost predicate Whole<E>(d: Decoder<E>, payload: seq<byte>) {
    d(payload) == Item(|payload|)
  }

  ghost predicate AllWhole<E>(d: Decoder<E>, payloads: seq<seq<byte>>) {
    forall i :: 0 <= i < |payloads| ==> Whole(d, payloads[i])
  }

  lemma DrainOneWhole<E>(d: Decoder<E>, p: seq<byte>, after: seq<byte>)
    requires Stable(d) && Whole(d, p)
    ensures Drain(d, p + after) == Ahead([p], Drain(d, after))
  {
    assert d(p + after) == d(p);
    assert (p + after)[..|p|] == p && (p + after)[|p|..] == after;
  }

  lemma AheadTwice<E>(a: seq<seq<byte>>, b: seq<seq<byte>>, r: Reader<E>)
    ensures Ahead(a, Ahead(b, r)) == Ahead(a + b, r)
  {
    assert a + (b + r.items) == a + b + r.items;
  }

  lemma {:induction false} DrainOfWholes<E>(d: Decoder<E>, payloads: seq<seq<byte>>, tail: seq<byte>)
    requires Stable(d) && AllWhole(d, payloads)
    ensures Drain(d, Flatten(payloads) + tail) == Ahead(payloads, Drain(d, tail))
    decreases |payloads|
  {
    if payloads == [] {
      assert Flatten(payloads) + tail == tail;
      assert payloads + Drain(d, tail).items == Drain(d, tail).items;
    } else {
      var p, others := payloads[0], payloads[1..];
      var after := Flatten(others) + tail;
      assert Flatten(payloads) + tail == p + after;
      DrainOneWhole(d, p, after);
      DrainOfWholes(d, others, tail);
      AheadTwice([p], others, Drain(d, tail));
      assert [p] + others == payloads;
    }
  }

  /** A message cut short asks for more: a decoder never takes part of one. */
  lemma PartIsPending<E>(d: Decoder<E>, payload: seq<byte>, part: seq<byte>)
    requires Stable(d) && Whole(d, payload) && part < payload
    ensures d(part).Pending?
  {
    assert part + payload[|part|..] == payload;
    assert d(part).Pending? || d(part + payload[|part|..]) == d(part);
  }
}
