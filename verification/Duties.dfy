/** Validator duties, and the node loop that catches up on intervals. A signature is made
    under the validator's key for the epoch given by the attestation's slot; two under
    one key for one epoch must never happen. */
module Duties {
  import opened Basics

  const INTERVALS_PER_SLOT: nat := 5

  /** The validators of this node, out of `total` on the network. */
  datatype Validators = Validators(ids: seq<nat>, total: nat)

  datatype Signature = Signature(validator: nat, slot: nat)

  /** How the chain and the keys answer during one interval. `failAfter` is the number of
      signatures after which the duty fails, if it does. */
  datatype Weather = Weather(chainTicks: bool, synced: bool, failAfter: Option<nat>, published: bool, aggregated: bool)

  /** What a duty signed, and whether it came to its end. */
  datatype Outcome = Outcome(signed: seq<Signature>, ok: bool)

  predicate WellFormed(v: Validators) {
    v.total > 0 && NoDup(v.ids)
  }

  function GetSlotProposer(v: Validators, slot: nat): (r: Option<nat>)
    requires v.total > 0
  {
    if slot % v.total in v.ids then Some(slot % v.total) else None
  }

  /** The attestations of a slot: one for each validator but the proposer, in order. */
  function Attestations(ids: seq<nat>, proposer: Option<nat>, slot: nat): (r: seq<Signature>) {
    if ids == [] then []
    else (if Some(ids[0]) == proposer then [] else [Signature(ids[0], slot)]) + Attestations(ids[1..], proposer, slot)
  }

  /** A duty that fails keeps the signatures it has made. */
  function Cut(signed: seq<Signature>, failAfter: Option<nat>): (r: Outcome) {
    if failAfter.Some? && failAfter.value <= |signed| then Outcome(signed[..failAfter.value], false)
    else Outcome(signed, true)
  }

  /** Everything a validator set signs at an interval when nothing goes wrong. */
  function DutySignatures(v: Validators, interval: nat): (r: seq<Signature>)
    requires v.total > 0
  {
    var slot := interval / INTERVALS_PER_SLOT;
    var proposer := GetSlotProposer(v, slot);
    if interval % INTERVALS_PER_SLOT == 0 && proposer.Some? then [Signature(proposer.value, slot)]
    else if interval % INTERVALS_PER_SLOT == 1 then Attestations(v.ids, proposer, slot)
    else []
  }

  /** There is something to do at the interval. */
  predicate OnDuty(v: Validators, interval: nat)
    requires v.total > 0
  {
    if interval % INTERVALS_PER_SLOT == 0 then GetSlotProposer(v, interval / INTERVALS_PER_SLOT).Some?
    else interval % INTERVALS_PER_SLOT == 1 && v.ids != []
  }

  function DutyOutcome(v: Validators, interval: nat, w: Weather): (r: Outcome)
    requires v.total > 0
  {
    if OnDuty(v, interval) && w.synced then Cut(DutySignatures(v, interval), w.failAfter) else Outcome([], true)
  }

  method MaybeDoProposal(v: Validators, slot: nat, w: Weather) returns (r: Outcome)
    requires v.total > 0
    ensures r == DutyOutcome(v, INTERVALS_PER_SLOT * slot, w)
  {
    var proposer := GetSlotProposer(v, slot);
    if proposer.None? || !w.synced { return Outcome([], true); }
    if w.failAfter == Some(0) { return Outcome([], false); }
    var signed := [Signature(proposer.value, slot)];
    if w.failAfter == Some(1) { return Outcome(signed, false); }
    return Outcome(signed, true);
  }

  method MayBeDoAttestation(v: Validators, slot: nat, w: Weather) returns (r: Outcome)
    requires v.total > 0
    ensures r == DutyOutcome(v, INTERVALS_PER_SLOT * slot + 1, w)
  {
    if v.ids == [] || !w.synced { return Outcome([], true); }
    var proposer := GetSlotProposer(v, slot);
    r := SignEach(v.ids, proposer, slot, w.failAfter);
  }

  /** The attestation loop, after the data to sign has been built. */
  method SignEach(ids: seq<nat>, proposer: Option<nat>, slot: nat, failAfter: Option<nat>) returns (r: Outcome)
    ensures r == Cut(Attestations(ids, proposer, slot), failAfter)
  {
    if failAfter == Some(0) {
      CutAt([], Attestations(ids, proposer, slot));
      assert [] + Attestations(ids, proposer, slot) == Attestations(ids, proposer, slot);
      return Outcome([], false);
    }
    var signed: seq<Signature> := [];
    ghost var all := Attestations(ids, proposer, slot);
    assert ids[0..] == ids;
    hide Attestations;
    for i := 0 to |ids|
      invariant all == signed + Attestations(ids[i..], proposer, slot)
      invariant failAfter.Some? ==> |signed| < failAfter.value
    {
      NextAttestation(ids, i, proposer, slot);
      ghost var rest := Attestations(ids[i + 1..], proposer, slot);
      if Some(ids[i]) != proposer {
        Associate(signed, [Signature(ids[i], slot)], rest);
        signed := signed + [Signature(ids[i], slot)];
        if failAfter == Some(|signed|) {
          CutAt(signed, rest);
          return Outcome(signed, false);
        }
      }
    }
    assert Attestations(ids[|ids|..], proposer, slot) == [] by { NoAttestations(proposer, slot); }
    assert signed + [] == signed;
    return Outcome(signed, true);
  }

  lemma NextAttestation(ids: seq<nat>, i: nat, proposer: Option<nat>, slot: nat)
    requires i < |ids|
    ensures Attestations(ids[i..], proposer, slot)
            == if Some(ids[i]) == proposer then Attestations(ids[i + 1..], proposer, slot)
               else [Signature(ids[i], slot)] + Attestations(ids[i + 1..], proposer, slot)
  {
    assert ids[i..][1..] == ids[i + 1..];
    var rest := Attestations(ids[i + 1..], proposer, slot);
    assert [] + rest == rest;
  }

  lemma NoAttestations(proposer: Option<nat>, slot: nat)
    ensures Attestations([], proposer, slot) == []
  {}

  lemma CutAt(signed: seq<Signature>, rest: seq<Signature>)
    ensures Cut(signed + rest, Some(|signed|)) == Outcome(signed, false)
  {
    assert (signed + rest)[..|signed|] == signed;
  }

  method OnValidatorInterval(v: Validators, interval: nat, w: Weather) returns (r: Outcome)
    requires v.total > 0
    ensures r == DutyOutcome(v, interval, w)
  {
    var slot := interval / INTERVALS_PER_SLOT;
    var phase := interval % INTERVALS_PER_SLOT;
    if phase == 0 {
      r := MaybeDoProposal(v, slot, w);
    } else if phase == 1 {
      r := MayBeDoAttestation(v, slot, w);
    } else {
      r := Outcome([], true);
    }
  }

  /** One pass of the loop: the chain ticks, the duty runs, its messages are published,
      and at phase two aggregations are. */
  function IntervalOutcome(v: Validators, interval: nat, w: Weather): (r: Outcome)
    requires v.total > 0
  {
    if !w.chainTicks then Outcome([], false)
    else
      var duty := DutyOutcome(v, interval, w);
      Outcome(duty.signed, duty.ok && w.published && (interval % INTERVALS_PER_SLOT == 2 ==> w.aggregated))
  }

  /** The loop over the intervals from `lo` to `hi`; it stops at the first failure. */
  function CatchUp(v: Validators, lo: nat, hi: nat, weather: nat -> Weather): (r: Outcome)
    requires v.total > 0
    decreases hi + 1 - lo
  {
    if lo > hi then Outcome([], true)
    else
      var first := IntervalOutcome(v, lo, weather(lo));
      if !first.ok then first
      else
        var rest := CatchUp(v, lo + 1, hi, weather);
        Outcome(first.signed + rest.signed, rest.ok)
  }

  /** A call of the node's interval callback. */
  datatype Tick = Tick(intervals: int, chainTime: nat, weather: nat -> Weather)

  /** Where catching up starts, if the call is acted upon at all. */
  predicate Acts(last: int, t: Tick) {
    t.intervals >= 1 && t.intervals > t.chainTime && t.intervals > last
  }

  function From(last: int): (r: nat) {
    if last + 1 < 1 then 1 else last + 1
  }

  function TickOutcome(v: Validators, last: int, t: Tick): (r: Outcome)
    requires v.total > 0
  {
    if Acts(last, t) then CatchUp(v, From(last), t.intervals, t.weather) else Outcome([], true)
  }

  class Node {
    const validators: Validators
    var lastInterval: int
    /** Every signature made, in order. */
    ghost var signed: seq<Signature>

    constructor (v: Validators)
      ensures validators == v && lastInterval == -1 && signed == []
    {
      validators := v;
      lastInterval := -1;
      signed := [];
    }

    /** On success the node is caught up; on failure it has not moved. */
    method OnInterval(t: Tick) returns (ok: bool)
      requires validators.total > 0
      modifies this
      ensures var o := TickOutcome(validators, old(lastInterval), t);
              ok == o.ok && signed == old(signed) + o.signed
              && lastInterval == if Acts(old(lastInterval), t) && o.ok then t.intervals else old(lastInterval)
    {
      if t.intervals > 0 && t.intervals <= t.chainTime { return true; }
      if t.intervals < 1 { return true; }
      var start := lastInterval + 1;
      if start < 1 { start := 1; }
      if start > t.intervals { return true; }
      ok := VisitIntervals(start, t.intervals, t.weather);
      if ok { lastInterval := t.intervals; }
    }

    /** One turn of the catch-up loop. */
    method VisitInterval(interval: nat, w: Weather) returns (ok: bool)
      requires validators.total > 0
      modifies `signed
      ensures var o := IntervalOutcome(validators, interval, w);
              ok == o.ok && signed == old(signed) + o.signed
    {
      hide DutyOutcome;
      if !w.chainTicks { return false; }
      var duty := OnValidatorInterval(validators, interval, w);
      signed := signed + duty.signed;
      if !duty.ok || !w.published { return false; }
      if interval % INTERVALS_PER_SLOT == 2 && !w.aggregated { return false; }
      return true;
    }

    /** The catch-up loop. */
    method VisitIntervals(start: nat, last: nat, weather: nat -> Weather) returns (ok: bool)
      requires validators.total > 0 && start <= last
      modifies `signed
      ensures var o := CatchUp(validators, start, last, weather);
              ok == o.ok && signed == old(signed) + o.signed
    {
      hide IntervalOutcome;
      var interval: nat := start;
      ghost var done := [];
      while interval <= last
        invariant start <= interval <= last + 1 && signed == old(signed) + done
        invariant var rest := CatchUp(validators, interval, last, weather);
                  CatchUp(validators, start, last, weather) == Outcome(done + rest.signed, rest.ok)
      {
        ghost var first := IntervalOutcome(validators, interval, weather(interval));
        ghost var rest := CatchUp(validators, interval + 1, last, weather);
        var fine := VisitInterval(interval, weather(interval));
        if !fine { return false; }
        assert done + (first.signed + rest.signed) == done + first.signed + rest.signed;
        done := done + first.signed;
        interval := interval + 1;
      }
      return true;
    }
  }

  /** The only interval at which a validator has a duty for a slot. */
  function DutyInterval(v: Validators, s: Signature): (r: nat)
    requires v.total > 0
  {
    INTERVALS_PER_SLOT * s.slot + (if s.validator == s.slot % v.total then 0 else 1)
  }

  ghost predicate Within(v: Validators, signed: seq<Signature>, lo: int, hi: int)
    requires v.total > 0
  {
    forall s :: s in signed ==> lo <= DutyInterval(v, s) <= hi
  }

  lemma {:induction false} AttestationsExact(ids: seq<nat>, proposer: Option<nat>, slot: nat)
    requires NoDup(ids)
    ensures NoDup(Attestations(ids, proposer, slot))
    ensures forall s :: s in Attestations(ids, proposer, slot)
              <==> s.slot == slot && s.validator in ids && Some(s.validator) != proposer
    decreases |ids|
  {
    hide NoDup;
    if ids == [] {
      NoDupEmpty<Signature>();
    } else {
      var id, rest := ids[0], ids[1..];
      NoDupRest(ids);
      AttestationsExact(rest, proposer, slot);
      var later := Attestations(rest, proposer, slot);
      assert ids == [id] + rest;
      if Some(id) == proposer {
        assert [] + later == later;
      } else {
        assert Signature(id, slot) !in later;
        NoDupCons(Signature(id, slot), later);
      }
    }
  }

  lemma NoDupRest<T>(s: seq<T>)
    requires NoDup(s) && s != []
    ensures NoDup(s[1..]) && s[0] !in s[1..]
  {
    assert forall i :: 0 <= i < |s[1..]| ==> s[1..][i] == s[i + 1];
  }

  lemma NoDupCons<T>(x: T, s: seq<T>)
    requires NoDup(s) && x !in s
    ensures NoDup([x] + s)
  {}

  lemma NoDupEmpty<T>()
    ensures NoDup<T>([])
  {}

  /** Each signature of an interval belongs to that interval, and none is made twice in it. */
  lemma DutySignaturesBelong(v: Validators, interval: nat)
    requires WellFormed(v)
    ensures NoDup(DutySignatures(v, interval))
    ensures forall s :: s in DutySignatures(v, interval) ==> DutyInterval(v, s) == interval
  {
    var slot := interval / INTERVALS_PER_SLOT;
    AttestationsExact(v.ids, GetSlotProposer(v, slot), slot);
  }

  /** A validator of this node signs for a slot at one interval and signs it there: the
      duties of an interval are exactly the signatures that belong to it. */
  lemma DutySignaturesExact(v: Validators, interval: nat, s: Signature)
    requires WellFormed(v)
    ensures s in DutySignatures(v, interval) <==> s.validator in v.ids && DutyInterval(v, s) == interval
  {
    var slot := interval / INTERVALS_PER_SLOT;
    AttestationsExact(v.ids, GetSlotProposer(v, slot), slot);
  }

  lemma IntervalSignsDuties(v: Validators, interval: nat, w: Weather)
    requires v.total > 0
    ensures IntervalOutcome(v, interval, w).signed <= DutySignatures(v, interval)
  {}

  lemma NoDupConcat<T>(a: seq<T>, b: seq<T>)
    requires NoDup(a) && NoDup(b) && forall x :: x in a ==> x !in b
    ensures NoDup(a + b)
  {
    forall i, j | 0 <= i < j < |a + b| ensures (a + b)[i] != (a + b)[j] {
      if i < |a| <= j { assert (a + b)[i] in a && (a + b)[j] in b; }
    }
  }

  lemma NoDupParts<T>(a: seq<T>, b: seq<T>)
    requires NoDup(a + b)
    ensures NoDup(a) && NoDup(b) && forall x :: x in a ==> x !in b
  {
    forall i, j | 0 <= i < j < |a| ensures a[i] != a[j] { assert (a + b)[i] != (a + b)[j]; }
    forall i, j | 0 <= i < j < |b| ensures b[i] != b[j] { assert (a + b)[|a| + i] != (a + b)[|a| + j]; }
    forall x | x in a ensures x !in b {
      var i :| 0 <= i < |a| && a[i] == x;
      forall j | 0 <= j < |b| ensures b[j] != x { assert (a + b)[i] != (a + b)[|a| + j]; }
    }
  }

  lemma {:induction false} CatchUpBelongs(v: Validators, lo: nat, hi: nat, weather: nat -> Weather)
    requires WellFormed(v)
    ensures NoDup(CatchUp(v, lo, hi, weather).signed)
    ensures Within(v, CatchUp(v, lo, hi, weather).signed, lo, hi)
    decreases hi + 1 - lo
  {
    hide IntervalOutcome, DutySignatures, DutyInterval;
    if lo <= hi {
      var first := IntervalOutcome(v, lo, weather(lo));
      DutySignaturesBelong(v, lo);
      IntervalSignsDuties(v, lo, weather(lo));
      if first.ok {
        CatchUpBelongs(v, lo + 1, hi, weather);
        NoDupConcat(first.signed, CatchUp(v, lo + 1, hi, weather).signed);
      }
    }
  }

  /** Where the node is after a run of callbacks, and all it has signed. */
  datatype Progress = Progress(last: int, signed: seq<Signature>)

  function AfterTick(v: Validators, p: Progress, t: Tick): (r: Progress)
    requires v.total > 0
  {
    var o := TickOutcome(v, p.last, t);
    Progress(if Acts(p.last, t) && o.ok then t.intervals else p.last, p.signed + o.signed)
  }

  ghost function AfterTicks(v: Validators, p: Progress, ticks: seq<Tick>): (r: Progress)
    requires v.total > 0
    decreases |ticks|
  {
    if ticks == [] then p else AfterTicks(v, AfterTick(v, p, ticks[0]), ticks[1..])
  }

  /** Nothing is signed twice and nothing belongs to an interval still to come. */
  ghost predicate Safe(v: Validators, p: Progress)
    requires v.total > 0
  {
    NoDup(p.signed) && Within(v, p.signed, 0, p.last)
  }

  lemma SafeTick(v: Validators, p: Progress, t: Tick)
    requires WellFormed(v) && Safe(v, p)
    requires TickOutcome(v, p.last, t).ok || TickOutcome(v, p.last, t).signed == []
    ensures Safe(v, AfterTick(v, p, t))
  {
    var o := TickOutcome(v, p.last, t);
    if Acts(p.last, t) && o.ok {
      CatchUpBelongs(v, From(p.last), t.intervals, t.weather);
      NoDupConcat(p.signed, o.signed);
    } else {
      assert p.signed + [] == p.signed;
    }
  }

  // ---------------------------------------------------------------- when a run signs twice

  /** The callback fails, and not before it has signed something. */
  predicate FailsAfterSigning(v: Validators, last: int, t: Tick)
    requires v.total > 0
  {
    var o := TickOutcome(v, last, t);
    !o.ok && o.signed != []
  }

  /** Nothing is signed any more once a callback has failed after signing. */
  ghost predicate SilentAfterFailure(v: Validators, p: Progress, ticks: seq<Tick>)
    requires v.total > 0
    decreases |ticks|
  {
    ticks != [] ==>
      var next := AfterTick(v, p, ticks[0]);
      if FailsAfterSigning(v, p.last, ticks[0]) then AfterTicks(v, next, ticks[1..]).signed == next.signed
      else SilentAfterFailure(v, next, ticks[1..])
  }

  lemma {:induction false} SignedGrows(v: Validators, p: Progress, ticks: seq<Tick>)
    requires v.total > 0
    ensures p.signed <= AfterTicks(v, p, ticks).signed
    decreases |ticks|
  {
    if ticks != [] { SignedGrows(v, AfterTick(v, p, ticks[0]), ticks[1..]); }
  }

  /** A callback repeats nothing that was signed before the duties it starts from. */
  lemma FailedTickAlone(v: Validators, p: Progress, t: Tick)
    requires WellFormed(v) && Safe(v, p)
    ensures NoDup(AfterTick(v, p, t).signed)
  {
    if Acts(p.last, t) {
      CatchUpBelongs(v, From(p.last), t.intervals, t.weather);
      NoDupConcat(p.signed, TickOutcome(v, p.last, t).signed);
    } else {
      assert p.signed + [] == p.signed;
    }
  }

  /** In every run that is silent after its failures, whatever goes wrong and however
      callbacks are repeated, skipped or late, no validator signs twice for one slot. */
  lemma {:induction false} NoDoubleSigning(v: Validators, p: Progress, ticks: seq<Tick>)
    requires WellFormed(v) && Safe(v, p) && SilentAfterFailure(v, p, ticks)
    ensures NoDup(AfterTicks(v, p, ticks).signed)
    decreases |ticks|
  {
    if ticks != [] {
      if FailsAfterSigning(v, p.last, ticks[0]) {
        FailedTickAlone(v, p, ticks[0]);
      } else {
        SafeTick(v, p, ticks[0]);
        NoDoubleSigning(v, AfterTick(v, p, ticks[0]), ticks[1..]);
      }
    }
  }

  /** The first signature due in the intervals from `lo` to `hi`. */
  function FirstDue(v: Validators, lo: nat, hi: nat): (r: Option<Signature>)
    requires v.total > 0
    decreases hi + 1 - lo
  {
    if lo > hi then None
    else if DutySignatures(v, lo) != [] then Some(DutySignatures(v, lo)[0])
    else FirstDue(v, lo + 1, hi)
  }

  /** The chain is in sync whenever a duty comes up. */
  ghost predicate InSync(t: Tick) {
    forall i :: t.weather(i).synced
  }

  lemma IntervalInSync(v: Validators, interval: nat, w: Weather)
    requires v.total > 0 && w.synced
    ensures var o := IntervalOutcome(v, interval, w);
            o.signed <= DutySignatures(v, interval) && (o.ok ==> o.signed == DutySignatures(v, interval))
  {}

  /** In sync, catching up signs the first signature due first, and does not succeed without it. */
  lemma {:induction false} CatchUpStartsWithFirstDue(v: Validators, lo: nat, hi: nat, weather: nat -> Weather)
    requires v.total > 0 && forall i :: weather(i).synced
    ensures var o := CatchUp(v, lo, hi, weather);
            (o.signed != [] ==> FirstDue(v, lo, hi) == Some(o.signed[0]))
            && (o.signed == [] && o.ok ==> FirstDue(v, lo, hi) == None)
    decreases hi + 1 - lo
  {
    hide IntervalOutcome, DutySignatures;
    if lo <= hi {
      IntervalInSync(v, lo, weather(lo));
      CatchUpStartsWithFirstDue(v, lo + 1, hi, weather);
    }
  }

  lemma {:induction false} FirstDueIsOne(v: Validators, lo: nat, a: nat, b: nat)
    requires v.total > 0 && FirstDue(v, lo, a).Some? && FirstDue(v, lo, b).Some?
    ensures FirstDue(v, lo, a) == FirstDue(v, lo, b)
    decreases a + 1 - lo
  {
    if DutySignatures(v, lo) == [] { FirstDueIsOne(v, lo + 1, a, b); }
  }

  lemma {:induction false} FirstDueFrom(v: Validators, lo: nat, mid: nat, hi: nat)
    requires v.total > 0 && lo <= mid + 1 && FirstDue(v, lo, mid).None? && FirstDue(v, lo, hi).Some?
    ensures FirstDue(v, mid + 1, hi) == FirstDue(v, lo, hi)
    decreases mid + 1 - lo
  {
    if lo <= mid { FirstDueFrom(v, lo + 1, mid, hi); }
  }

  /** The signature that is due next has been made already. */
  ghost predicate Stuck(v: Validators, p: Progress)
    requires v.total > 0
  {
    exists hi: nat :: FirstDue(v, From(p.last), hi).Some? && FirstDue(v, From(p.last), hi).value in p.signed
  }

  lemma FailureSticks(v: Validators, p: Progress, t: Tick)
    requires v.total > 0 && InSync(t) && FailsAfterSigning(v, p.last, t)
    ensures Stuck(v, AfterTick(v, p, t))
  {
    CatchUpStartsWithFirstDue(v, From(p.last), t.intervals, t.weather);
    var o := TickOutcome(v, p.last, t);
    assert AfterTick(v, p, t).last == p.last;
    assert o.signed[0] in AfterTick(v, p, t).signed;
  }

  lemma StuckTick(v: Validators, p: Progress, t: Tick)
    requires v.total > 0 && InSync(t) && Stuck(v, p)
    ensures TickOutcome(v, p.last, t).signed == [] ==> Stuck(v, AfterTick(v, p, t))
    ensures TickOutcome(v, p.last, t).signed != [] ==> !NoDup(AfterTick(v, p, t).signed)
  {
    hide FirstDue, CatchUp, NoDup;
    var hi: nat :| FirstDue(v, From(p.last), hi).Some? && FirstDue(v, From(p.last), hi).value in p.signed;
    var o, next := TickOutcome(v, p.last, t), AfterTick(v, p, t);
    assert p.signed + [] == p.signed;
    if Acts(p.last, t) {
      CatchUpStartsWithFirstDue(v, From(p.last), t.intervals, t.weather);
      if o.signed != [] {
        FirstDueIsOne(v, From(p.last), hi, t.intervals);
        Repeated(p.signed, o.signed);
      } else if o.ok {
        FirstDueFrom(v, From(p.last), t.intervals, hi);
        assert From(next.last) == t.intervals + 1 && next.signed == p.signed;
      } else {
        assert next == p;
      }
    }
  }

  lemma Repeated<T>(a: seq<T>, b: seq<T>)
    requires b != [] && b[0] in a
    ensures !NoDup(a + b)
  {
    var i :| 0 <= i < |a| && a[i] == b[0];
    assert (a + b)[i] == (a + b)[|a|];
  }

  lemma {:induction false} StuckRun(v: Validators, p: Progress, ticks: seq<Tick>)
    requires v.total > 0 && Stuck(v, p) && NoDup(p.signed) && forall i :: 0 <= i < |ticks| ==> InSync(ticks[i])
    ensures NoDup(AfterTicks(v, p, ticks).signed) ==> AfterTicks(v, p, ticks).signed == p.signed
    decreases |ticks|
  {
    hide Stuck, TickOutcome, InSync;
    if ticks != [] {
      var next := AfterTick(v, p, ticks[0]);
      StuckTick(v, p, ticks[0]);
      if TickOutcome(v, p.last, ticks[0]).signed == [] {
        assert p.signed + [] == p.signed;
        StuckRun(v, next, ticks[1..]);
      } else {
        SignedGrows(v, next, ticks[1..]);
      }
    }
  }

  /** And on a chain that stays in sync exactly those runs are safe: the node does not move
      on failure, so whatever signs next after such a failure signs the same duty again. */
  lemma {:induction false} DoubleSigningInSyncIff(v: Validators, p: Progress, ticks: seq<Tick>)
    requires WellFormed(v) && Safe(v, p) && forall i :: 0 <= i < |ticks| ==> InSync(ticks[i])
    ensures NoDup(AfterTicks(v, p, ticks).signed) <==> SilentAfterFailure(v, p, ticks)
    decreases |ticks|
  {
    hide TickOutcome, InSync, Stuck;
    if SilentAfterFailure(v, p, ticks) {
      NoDoubleSigning(v, p, ticks);
    } else {
      var next := AfterTick(v, p, ticks[0]);
      if FailsAfterSigning(v, p.last, ticks[0]) {
        FailedTickAlone(v, p, ticks[0]);
        FailureSticks(v, p, ticks[0]);
        StuckRun(v, next, ticks[1..]);
      } else {
        SafeTick(v, p, ticks[0]);
        DoubleSigningInSyncIff(v, next, ticks[1..]);
      }
    }
  }

  // ---------------------------------------------------------------- the exact condition

  /** What makes a callback sign something at an interval it comes to. */
  predicate Works(v: Validators, interval: nat, w: Weather)
    requires v.total > 0
  {
    w.chainTicks && w.synced && DutySignatures(v, interval) != [] && w.failAfter != Some(0)
  }

  /** What makes it go on to the next interval. */
  predicate Passes(v: Validators, interval: nat, w: Weather)
    requires v.total > 0
  {
    w.chainTicks && w.published && (interval % INTERVALS_PER_SLOT == 2 ==> w.aggregated)
    && !(w.synced && OnDuty(v, interval) && w.failAfter.Some? && w.failAfter.value <= |DutySignatures(v, interval)|)
  }

  /** The intervals in which catching up signs something. */
  function Worked(v: Validators, lo: nat, hi: nat, weather: nat -> Weather): (r: seq<nat>)
    requires v.total > 0
    decreases hi + 1 - lo
  {
    if lo > hi then []
    else
      (if Works(v, lo, weather(lo)) then [lo] else [])
      + (if Passes(v, lo, weather(lo)) then Worked(v, lo + 1, hi, weather) else [])
  }

  function WorkedBy(v: Validators, last: int, t: Tick): (r: seq<nat>)
    requires v.total > 0
  {
    if Acts(last, t) then Worked(v, From(last), t.intervals, t.weather) else []
  }

  /** The intervals worked by the callbacks of a run, callback by callback. */
  ghost function WorkedAll(v: Validators, p: Progress, ticks: seq<Tick>): (r: seq<nat>)
    requires v.total > 0
    decreases |ticks|
  {
    if ticks == [] then []
    else WorkedBy(v, p.last, ticks[0]) + WorkedAll(v, AfterTick(v, p, ticks[0]), ticks[1..])
  }

  lemma IntervalGuards(v: Validators, interval: nat, w: Weather)
    requires v.total > 0
    ensures var o := IntervalOutcome(v, interval, w);
            (o.ok <==> Passes(v, interval, w)) && (o.signed != [] <==> Works(v, interval, w))
            && o.signed <= DutySignatures(v, interval)
  {}

  /** Each worked interval shows in the signatures by its first one, and each signature
      belongs to a worked interval. */
  ghost predicate Shows(v: Validators, signed: seq<Signature>, worked: seq<nat>)
    requires v.total > 0
  {
    (forall i :: i in worked ==> DutySignatures(v, i) != [] && DutySignatures(v, i)[0] in signed)
    && (forall s :: s in signed ==> DutyInterval(v, s) in worked)
  }

  lemma IntervalShows(v: Validators, interval: nat, w: Weather)
    requires WellFormed(v)
    ensures Shows(v, IntervalOutcome(v, interval, w).signed, if Works(v, interval, w) then [interval] else [])
  {
    hide IntervalOutcome, DutySignatures, Works, DutyInterval;
    IntervalGuards(v, interval, w);
    DutySignaturesBelong(v, interval);
  }

  lemma ShowsConcat(v: Validators, a: seq<Signature>, b: seq<Signature>, inA: seq<nat>, inB: seq<nat>)
    requires v.total > 0 && Shows(v, a, inA) && Shows(v, b, inB)
    ensures Shows(v, a + b, inA + inB)
  {
    hide DutySignatures, DutyInterval;
  }

  lemma CatchUpUnfolds(v: Validators, lo: nat, hi: nat, weather: nat -> Weather)
    requires v.total > 0 && lo <= hi
    ensures var first, rest := IntervalOutcome(v, lo, weather(lo)), CatchUp(v, lo + 1, hi, weather);
            CatchUp(v, lo, hi, weather) == if first.ok then Outcome(first.signed + rest.signed, rest.ok) else first
    ensures Worked(v, lo, hi, weather)
            == (if Works(v, lo, weather(lo)) then [lo] else [])
               + (if Passes(v, lo, weather(lo)) then Worked(v, lo + 1, hi, weather) else [])
  {
    hide IntervalOutcome, Works, Passes;
  }

  lemma {:induction false} CatchUpShows(v: Validators, lo: nat, hi: nat, weather: nat -> Weather)
    requires WellFormed(v)
    ensures Shows(v, CatchUp(v, lo, hi, weather).signed, Worked(v, lo, hi, weather))
    decreases hi + 1 - lo
  {
    hide Shows, IntervalOutcome, Works, Passes, CatchUp, Worked;
    if lo > hi {
      NothingShows(v, lo, hi, weather);
    } else {
      var o, worked := IntervalOutcome(v, lo, weather(lo)), if Works(v, lo, weather(lo)) then [lo] else [];
      CatchUpUnfolds(v, lo, hi, weather);
      IntervalGuards(v, lo, weather(lo));
      IntervalShows(v, lo, weather(lo));
      if o.ok {
        CatchUpShows(v, lo + 1, hi, weather);
        ShowsConcat(v, o.signed, CatchUp(v, lo + 1, hi, weather).signed, worked, Worked(v, lo + 1, hi, weather));
      } else {
        assert worked + [] == worked;
      }
    }
  }

  lemma NothingShows(v: Validators, lo: nat, hi: nat, weather: nat -> Weather)
    requires v.total > 0 && lo > hi
    ensures Shows(v, CatchUp(v, lo, hi, weather).signed, Worked(v, lo, hi, weather))
  {}

  lemma {:induction false} WorkedOnce(v: Validators, lo: nat, hi: nat, weather: nat -> Weather)
    requires v.total > 0
    ensures NoDup(Worked(v, lo, hi, weather)) && forall i :: i in Worked(v, lo, hi, weather) ==> lo <= i <= hi
    decreases hi + 1 - lo
  {
    hide Works, Passes;
    if lo <= hi {
      var rest := Worked(v, lo + 1, hi, weather);
      WorkedOnce(v, lo + 1, hi, weather);
      NoDupConcat([lo], rest);
    }
  }

  /** The intervals worked so far, all after `base`, and the signatures tell the same: the
      one list has a repetition exactly when the other has. */
  ghost predicate Linked(v: Validators, base: int, p: Progress, worked: seq<nat>)
    requires v.total > 0
  {
    base <= p.last
    && (forall i :: i in worked ==> DutySignatures(v, i) != [] && DutySignatures(v, i)[0] in p.signed)
    && (forall s :: s in p.signed ==> DutyInterval(v, s) <= base || DutyInterval(v, s) in worked)
    && (NoDup(p.signed) <==> NoDup(worked))
  }

  lemma LinkedStep(v: Validators, base: int, p: Progress, worked: seq<nat>, signed: seq<Signature>, more: seq<nat>)
    requires v.total > 0 && Linked(v, base, p, worked)
    requires NoDup(signed) && NoDup(more) && Shows(v, signed, more) && forall i :: i in more ==> i > p.last
    ensures NoDup(p.signed + signed) <==> NoDup(worked + more)
  {
    hide DutySignatures, DutyInterval, NoDup;
    if NoDup(p.signed + signed) {
      NoDupParts(p.signed, signed);
      NoDupConcat(worked, more);
    }
    if NoDup(worked + more) {
      NoDupParts(worked, more);
      NoDupConcat(p.signed, signed);
    }
  }

  lemma LinkedTick(v: Validators, base: int, p: Progress, worked: seq<nat>, t: Tick)
    requires WellFormed(v) && Linked(v, base, p, worked)
    ensures Linked(v, base, AfterTick(v, p, t), worked + WorkedBy(v, p.last, t))
  {
    hide DutySignatures, DutyInterval, CatchUp, Worked, NoDup;
    if Acts(p.last, t) {
      CatchUpBelongs(v, From(p.last), t.intervals, t.weather);
      CatchUpShows(v, From(p.last), t.intervals, t.weather);
      WorkedOnce(v, From(p.last), t.intervals, t.weather);
      LinkedStep(v, base, p, worked, TickOutcome(v, p.last, t).signed, WorkedBy(v, p.last, t));
    } else {
      assert p.signed + [] == p.signed && worked + [] == worked;
    }
  }

  lemma {:induction false} LinkedRun(v: Validators, base: int, p: Progress, worked: seq<nat>, ticks: seq<Tick>)
    requires WellFormed(v) && Linked(v, base, p, worked)
    ensures Linked(v, base, AfterTicks(v, p, ticks), worked + WorkedAll(v, p, ticks))
    decreases |ticks|
  {
    hide Linked, WorkedBy, AfterTick;
    if ticks == [] {
      assert worked + [] == worked;
    } else {
      var now, next := WorkedBy(v, p.last, ticks[0]), AfterTick(v, p, ticks[0]);
      LinkedTick(v, base, p, worked, ticks[0]);
      LinkedRun(v, base, next, worked + now, ticks[1..]);
      Associate(worked, now, WorkedAll(v, next, ticks[1..]));
    }
  }

  /** Exactly, for every run of callbacks and whatever goes wrong in them: no validator signs
      twice for one slot if and only if no interval is worked by two callbacks, that is,
      reached by both in sync with its duty not failing before the first signature. */
  lemma DoubleSigningIff(v: Validators, p: Progress, ticks: seq<Tick>)
    requires WellFormed(v) && Safe(v, p)
    ensures NoDup(AfterTicks(v, p, ticks).signed) <==> NoDup(WorkedAll(v, p, ticks))
  {
    LinkedRun(v, p.last, p, [], ticks);
    assert [] + WorkedAll(v, p, ticks) == WorkedAll(v, p, ticks);
  }

  // ---------------------------------------------------------------- no duty is missed

  /** In sync, catching up that comes to its end has done every duty on the way. */
  lemma {:induction false} CatchUpSignsAll(v: Validators, lo: nat, hi: nat, weather: nat -> Weather, s: Signature)
    requires WellFormed(v) && CatchUp(v, lo, hi, weather).ok && forall i :: lo <= i <= hi ==> weather(i).synced
    ensures s in CatchUp(v, lo, hi, weather).signed <==> s.validator in v.ids && lo <= DutyInterval(v, s) <= hi
    decreases hi + 1 - lo
  {
    hide IntervalOutcome, DutySignatures, DutyInterval;
    if lo <= hi {
      IntervalInSync(v, lo, weather(lo));
      DutySignaturesExact(v, lo, s);
      CatchUpSignsAll(v, lo + 1, hi, weather, s);
    }
  }

  /** Everything answers well in the intervals up to `hi`. */
  ghost predicate AllWell(weather: nat -> Weather, hi: int) {
    forall i :: 0 <= i <= hi ==> weather(i) == Weather(true, true, None, true, true)
  }

  lemma {:induction false} WellCatchesUp(v: Validators, lo: nat, hi: nat, weather: nat -> Weather)
    requires v.total > 0 && AllWell(weather, hi)
    ensures CatchUp(v, lo, hi, weather).ok
    decreases hi + 1 - lo
  {
    if lo <= hi { WellCatchesUp(v, lo + 1, hi, weather); }
  }

  /** A callback for an interval after the last one and after the chain's time, in which all
      goes well, signs exactly once for every validator of this node and every slot whose
      duty lies between, from interval one on, and the node is at its interval then. */
  lemma CallbackDoesItsDuties(v: Validators, p: Progress, t: Tick, s: Signature)
    requires WellFormed(v) && t.intervals >= 1 && t.intervals > t.chainTime && t.intervals > p.last && AllWell(t.weather, t.intervals)
    ensures AfterTick(v, p, t).last == t.intervals
    ensures var signed := AfterTick(v, p, t).signed[|p.signed|..];
            NoDup(signed)
            && (s in signed <==> s.validator in v.ids && 1 <= DutyInterval(v, s) && p.last < DutyInterval(v, s) <= t.intervals)
  {
    var o := TickOutcome(v, p.last, t);
    assert (p.signed + o.signed)[|p.signed|..] == o.signed;
    WellCatchesUp(v, From(p.last), t.intervals, t.weather);
    CatchUpBelongs(v, From(p.last), t.intervals, t.weather);
    CatchUpSignsAll(v, From(p.last), t.intervals, t.weather, s);
  }

  /** A callback on a chain in sync that moves the node past a duty has signed it. */
  lemma TickMissesNone(v: Validators, p: Progress, t: Tick, s: Signature)
    requires WellFormed(v) && InSync(t)
    requires s.validator in v.ids && 1 <= DutyInterval(v, s) && p.last < DutyInterval(v, s) <= AfterTick(v, p, t).last
    ensures s in AfterTick(v, p, t).signed
  {
    hide DutyInterval, CatchUp;
    CatchUpSignsAll(v, From(p.last), t.intervals, t.weather, s);
  }

  lemma PrefixHas<T>(a: seq<T>, b: seq<T>, x: T)
    requires a <= b && x in a
    ensures x in b
  {
    var i :| 0 <= i < |a| && a[i] == x;
    assert b[i] == x;
  }

  /** In every run on a chain in sync, whatever else fails and however callbacks are repeated,
      skipped or late, no duty is missed that the node has passed. */
  lemma {:induction false} NoDutyIsMissed(v: Validators, p: Progress, ticks: seq<Tick>, s: Signature)
    requires WellFormed(v) && forall i :: 0 <= i < |ticks| ==> InSync(ticks[i])
    requires s.validator in v.ids && 1 <= DutyInterval(v, s) && p.last < DutyInterval(v, s) <= AfterTicks(v, p, ticks).last
    ensures s in AfterTicks(v, p, ticks).signed
    decreases |ticks|
  {
    hide DutyInterval, AfterTick, InSync;
    if ticks != [] {
      var next := AfterTick(v, p, ticks[0]);
      if DutyInterval(v, s) <= next.last {
        TickMissesNone(v, p, ticks[0], s);
        SignedGrows(v, next, ticks[1..]);
        PrefixHas(next.signed, AfterTicks(v, next, ticks[1..]).signed, s);
      } else {
        NoDutyIsMissed(v, next, ticks[1..], s);
      }
    }
  }

  /** Such a run exists: two validators, the second attestation of slot one fails, and the
      next interval signs the first one again. */
  lemma DoubleSigningHappens()
    ensures var v := Validators([0, 2], 3);
            var bad := Weather(true, true, Some(1), true, true);
            var good := Weather(true, true, None, true, true);
            var failed := Tick(6, 5, (i: nat) => if i == 6 then bad else good);
            var next := Tick(7, 6, (i: nat) => good);
            WellFormed(v) && Safe(v, Progress(5, []))
            && !NoDup(AfterTicks(v, Progress(5, []), [failed, next]).signed)
  {
    var v := Validators([0, 2], 3);
    var bad := Weather(true, true, Some(1), true, true);
    var good := Weather(true, true, None, true, true);
    var weather := (i: nat) => if i == 6 then bad else good;
    var failed := Tick(6, 5, weather);
    var next := Tick(7, 6, (i: nat) => good);
    assert GetSlotProposer(v, 1) == None;
    assert [0, 2][1..] == [2] && [2][1..] == [];
    assert Attestations([2], None, 1) == [Signature(2, 1)];
    assert DutySignatures(v, 6) == [Signature(0, 1), Signature(2, 1)];
    assert DutyOutcome(v, 6, bad) == Outcome([Signature(0, 1)], false);
    assert CatchUp(v, 6, 6, weather) == Outcome([Signature(0, 1)], false);
    var p := AfterTick(v, Progress(5, []), failed);
    assert IntervalOutcome(v, 6, good).signed == [Signature(0, 1), Signature(2, 1)];
    assert TickOutcome(v, 5, next).signed != [];
    assert [failed, next][1..] == [next] && [next][1..] == [];
    assert AfterTicks(v, p, [next]) == AfterTick(v, p, next);
    DoubleSigningInSyncIff(v, Progress(5, []), [failed, next]);
  }
}
