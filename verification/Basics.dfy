/** Types and sequence facts shared by every component. */
module Basics {

  type byte = x: int | 0 <= x < 256

  datatype Option<+T> = None | Some(value: T)

  /** One past the largest `usize` of the 64-bit targets the node is built for. */
  const USIZE_MODULUS: int := 0x1_0000_0000_0000_0000

  predicate NoDup<T(==)>(s: seq<T>) {
    forall i, j :: 0 <= i < j < |s| ==> s[i] != s[j]
  }

  function Elements<T>(s: seq<T>): (r: set<T>) {
    set x | x in s
  }

  /** Distinct elements of a set are no more than the set has. */
  lemma {:induction false} DistinctFit<T>(s: seq<T>, universe: set<T>)
    requires NoDup(s) && Elements(s) <= universe
    ensures |s| <= |universe|
    decreases |s|
  {
    if s != [] {
      var rest := s[..|s| - 1];
      assert s[|s| - 1] in Elements(s);
      assert Elements(rest) <= universe - {s[|s| - 1]};
      DistinctFit(rest, universe - {s[|s| - 1]});
    }
  }

  lemma {:induction false} DistinctAre<T>(s: seq<T>)
    requires NoDup(s)
    ensures |Elements(s)| == |s|
    decreases |s|
  {
    if s != [] {
      var rest := s[..|s| - 1];
      DistinctAre(rest);
      assert Elements(s) == Elements(rest) + {s[|s| - 1]};
    }
  }

  /** What each element gives, in order: a filter when it gives itself or nothing. */
  function Collect<T, U>(s: seq<T>, give: T -> seq<U>): (r: seq<U>) {
    if s == [] then [] else give(s[0]) + Collect(s[1..], give)
  }

  lemma {:induction false} CollectConcat<T, U>(a: seq<T>, b: seq<T>, give: T -> seq<U>)
    ensures Collect(a + b, give) == Collect(a, give) + Collect(b, give)
    decreases |a|
  {
    if a == [] {
      assert a + b == b;
    } else {
      assert (a + b)[0] == a[0] && (a + b)[1..] == a[1..] + b;
      CollectConcat(a[1..], b, give);
      Associate(give(a[0]), Collect(a[1..], give), Collect(b, give));
    }
  }

  lemma CollectOne<T, U>(x: T, give: T -> seq<U>)
    ensures Collect([x], give) == give(x)
  {
    assert [x][1..] == [];
    assert give(x) + [] == give(x);
  }

  lemma CollectSnoc<T, U>(s: seq<T>, x: T, give: T -> seq<U>)
    ensures Collect(s + [x], give) == Collect(s, give) + give(x)
  {
    CollectConcat(s, [x], give);
    CollectOne(x, give);
  }

  lemma {:induction false} CollectNothing<T, U>(s: seq<T>, give: T -> seq<U>)
    requires forall i :: 0 <= i < |s| ==> give(s[i]) == []
    ensures Collect(s, give) == []
    decreases |s|
  {
    if s != [] { CollectNothing(s[1..], give); }
  }

  lemma CollectPrefix<T, U>(a: seq<T>, b: seq<T>, give: T -> seq<U>)
    requires a <= b
    ensures Collect(a, give) <= Collect(b, give)
  {
    assert a + b[|a|..] == b;
    CollectConcat(a, b[|a|..], give);
  }

  lemma Associate<T>(a: seq<T>, b: seq<T>, c: seq<T>)
    ensures a + (b + c) == a + b + c
  {}

  function Itself<T>(): (give: seq<T> -> seq<T>) {
    part => part
  }

  function Flatten<T>(parts: seq<seq<T>>): (r: seq<T>) {
    Collect(parts, Itself())
  }

  lemma FlattenSnoc<T>(a: seq<seq<T>>, last: seq<T>)
    ensures Flatten(a + [last]) == Flatten(a) + last
  {
    CollectSnoc(a, last, Itself());
  }
}
