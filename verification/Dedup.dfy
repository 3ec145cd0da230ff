/** Duplicate and stale-packet suppression on a wrapping 32-bit sequence number
    (drone/src/dynlink/dedup.cpp). */
module Dedup {
  import opened Wire

  const TWO31 := 0x8000_0000

  datatype State = State(ever: bool, lastSeq: U32)

  // Reinterpretation of an unsigned 32-bit difference as signed.
  function AsInt32(u: U32): (d: int)
    ensures -TWO31 <= d < TWO31 && (d - u) % TWO32 == 0
  {
    if u < TWO31 then u as int else u as int - TWO32
  }

  function Delta(seqno: U32, last: U32): int {
    AsInt32((seqno - last) % TWO32)
  }

  predicate Drops(s: State, seqno: U32) {
    s.ever && Delta(seqno, s.lastSeq) <= 0
  }

  function Checked(s: State, seqno: U32): State {
    if Drops(s, seqno) then s else State(true, seqno)
  }

  class Filter {
    var lastSeq: U32
    var ever: bool

    function View(): State reads this { State(ever, lastSeq) }

    constructor ()
      ensures View() == State(false, 0)
    {
      lastSeq, ever := 0, false;
    }

    method Reset()
      modifies this
      ensures View() == old(View()).(ever := false)
    {
      ever := false;
    }

    // True means drop.
    method Check(seqno: U32) returns (drop: bool)
      modifies this
      ensures drop == Drops(old(View()), seqno)
      ensures View() == Checked(old(View()), seqno)
    {
      if !ever {
        lastSeq := seqno;
        ever := true;
        return false;
      }
      var delta := AsInt32((seqno - lastSeq) % TWO32);
      if delta <= 0 {
        return true;
      }
      lastSeq := seqno;
      drop := false;
    }
  }
}

/** The decision channel end to end: a counting sender, a network that loses,
    duplicates, delays and reorders, and the drone's decode-and-dedup front end. */
module Channel {
  import opened Common
  import opened Wire
  import opened Dedup

  // The sequence number of the i-th packet sent, for a counter that began at start.
  function SeqOf(start: U32, i: nat): U32 {
    (start + i) % TWO32
  }

  // The datagram of the i-th send.
  function Sent(start: U32, mcs: seq<Byte>, i: nat): seq<Byte>
    requires i < |mcs|
  {
    Packet(0, SeqOf(start, i), mcs[i])
  }

  /** One datagram reaching the drone: either a copy of send number `index`, at a
      moment when `newest` was the latest send, or bytes that do not decode. */
  datatype Arrival = Copy(index: nat, newest: nat) | Noise(bytes: seq<Byte>)

  function Bytes(start: U32, mcs: seq<Byte>, a: Arrival): seq<Byte>
    requires a.Copy? ==> a.index < |mcs|
  {
    match a
    case Copy(i, _) => Sent(start, mcs, i)
    case Noise(b) => b
  }

  datatype Received = Dropped | Accepted(d: Decision)
  datatype Fronted = Fronted(state: State, got: Received)

  // The drone's front end on one datagram: the decision it lets through, if any.
  function Front(s: State, buf: seq<Byte>): (r: Fronted)
    ensures r.got.Accepted? ==> r.state == State(true, r.got.d.sequence) && r.got.d.magic == MAGIC
    ensures r.got.Dropped? ==> r.state == s
  {
    if !IsDecisionKind(buf) || Verdict(buf) != Ok then Fronted(s, Dropped)
    else if Drops(s, Decoded(buf).sequence) then Fronted(s, Dropped)
    else Fronted(Checked(s, Decoded(buf).sequence), Accepted(Decoded(buf)))
  }

  /** Lag of at most 2^31 sends, and the sender's clock never runs backwards. */
  ghost predicate BoundedLag(mcs: seq<Byte>, arrivals: seq<Arrival>) {
    && (forall k :: 0 <= k < |arrivals| && arrivals[k].Copy? ==>
          arrivals[k].index <= arrivals[k].newest < |mcs| && arrivals[k].newest - arrivals[k].index <= TWO31)
    && (forall k :: 0 <= k < |arrivals| && arrivals[k].Noise? ==> Verdict(arrivals[k].bytes) != Ok)
    && (forall j, k :: 0 <= j < k < |arrivals| && arrivals[j].Copy? && arrivals[k].Copy? ==>
          arrivals[j].newest <= arrivals[k].newest)
  }

  // A decision let through, with the number of the send it is a copy of.
  datatype Taken = Taken(index: nat, d: Decision)
  datatype Trace = Trace(state: State, out: seq<Taken>)

  function Extend(t: Trace, start: U32, mcs: seq<Byte>, a: Arrival): Trace
    requires a.Copy? ==> a.index < |mcs|
  {
    var f := Front(t.state, Bytes(start, mcs, a));
    match f.got
    case Dropped => Trace(f.state, t.out)
    case Accepted(d) => Trace(f.state, t.out + [Taken(if a.Copy? then a.index else 0, d)])
  }

  function Through(start: U32, mcs: seq<Byte>, arrivals: seq<Arrival>): Trace
    requires forall k :: 0 <= k < |arrivals| && arrivals[k].Copy? ==> arrivals[k].index < |mcs|
  {
    if arrivals == [] then Trace(State(false, 0), [])
    else Extend(Through(start, mcs, arrivals[..|arrivals| - 1]), start, mcs, arrivals[|arrivals| - 1])
  }

  ghost predicate StrictlyIncreasing(out: seq<Taken>) {
    forall j, k :: 0 <= j < k < |out| ==> out[j].index < out[k].index
  }

  // Every accepted decision is exactly the one sent under its number.
  ghost predicate AsSent(start: U32, mcs: seq<Byte>, out: seq<Taken>) {
    forall k :: 0 <= k < |out| ==>
      out[k].index < |mcs| && out[k].d == DecisionOf(start, mcs, out[k].index)
  }

  ghost predicate Arrived(arrivals: seq<Arrival>, index: nat) {
    exists j :: 0 <= j < |arrivals| && arrivals[j].Copy? && arrivals[j].index == index
  }

  // The filter remembers the last decision let through.
  ghost predicate Remembers(start: U32, t: Trace) {
    if t.out == [] then !t.state.ever
    else t.state == State(true, SeqOf(start, t.out[|t.out| - 1].index))
  }

  lemma FrontOnCopy(s: State, start: U32, mcs: seq<Byte>, i: nat)
    requires i < |mcs|
    ensures Front(s, Sent(start, mcs, i)) ==
      if Drops(s, SeqOf(start, i)) then Fronted(s, Dropped)
      else Fronted(State(true, SeqOf(start, i)), Accepted(DecisionOf(start, mcs, i)))
  {
    RoundTrip(0, SeqOf(start, i), mcs[i], []);
    assert Sent(start, mcs, i) + [] == Sent(start, mcs, i);
  }

  lemma WrapDifference(start: int, last: int, i: int)
    ensures ((start + i) % TWO32 - (start + last) % TWO32) % TWO32 == (i - last) % TWO32
  {
  }

  // Comparing wrapped numbers compares send numbers, up to half the circle.
  lemma DropsByIndex(start: U32, last: nat, i: nat)
    requires i <= last + TWO31 && last <= i + TWO31
    ensures Drops(State(true, SeqOf(start, last)), SeqOf(start, i)) <==> i <= last || i == last + TWO31
  {
    WrapDifference(start, last, i);
    var u := (i - last) % TWO32;
    assert u == if i >= last then i - last else i - last + TWO32;
  }

  // The decision that send number i carries.
  function DecisionOf(start: U32, mcs: seq<Byte>, i: nat): Decision
    requires i < |mcs|
  {
    BLANK.(magic := MAGIC, version := VERSION, sequence := SeqOf(start, i), mcs := mcs[i])
  }

  // One arrival: noise and dropped copies change nothing, others are recorded.
  lemma ExtendCases(t: Trace, start: U32, mcs: seq<Byte>, a: Arrival)
    requires a.Copy? ==> a.index < |mcs|
    requires a.Noise? ==> Verdict(a.bytes) != Ok
    ensures Extend(t, start, mcs, a) ==
      if a.Noise? || Drops(t.state, SeqOf(start, a.index)) then t
      else Trace(State(true, SeqOf(start, a.index)), t.out + [Taken(a.index, DecisionOf(start, mcs, a.index))])
  {
    if a.Copy? {
      FrontOnCopy(t.state, start, mcs, a.index);
    }
  }

  // A copy is recorded only if it is newer than the last one recorded ...
  lemma OlderDropped(t: Trace, start: U32, a: Arrival)
    requires t.out != [] && Remembers(start, t) && a.Copy?
    requires t.out[|t.out| - 1].index <= a.newest <= a.index + TWO31
    ensures a.index <= t.out[|t.out| - 1].index ==> Drops(t.state, SeqOf(start, a.index))
  {
    if a.index <= t.out[|t.out| - 1].index {
      DropsByIndex(start, t.out[|t.out| - 1].index, a.index);
    }
  }

  lemma FirstTaken(s: State, seqno: U32)
    requires !s.ever
    ensures !Drops(s, seqno)
  {
  }

  // ... and always then, if it is not too far ahead.
  lemma NewerTaken(t: Trace, start: U32, a: Arrival)
    requires t.out != [] && Remembers(start, t) && a.Copy?
    requires t.out[|t.out| - 1].index < a.index < t.out[|t.out| - 1].index + TWO31
    ensures !Drops(t.state, SeqOf(start, a.index))
  {
    DropsByIndex(start, t.out[|t.out| - 1].index, a.index);
  }

  lemma ArrivedBelow(mcs: seq<Byte>, arrivals: seq<Arrival>, index: nat)
    requires arrivals != [] && BoundedLag(mcs, arrivals)
    requires arrivals[|arrivals| - 1].Copy? && Arrived(arrivals[..|arrivals| - 1], index)
    ensures index <= arrivals[|arrivals| - 1].newest
  {
  }

  ghost predicate Consistent(start: U32, mcs: seq<Byte>, arrivals: seq<Arrival>, t: Trace) {
    && StrictlyIncreasing(t.out)
    && AsSent(start, mcs, t.out)
    && (forall k :: 0 <= k < |t.out| ==> Arrived(arrivals, t.out[k].index))
    && Remembers(start, t)
  }

  /** Between resets, the accepted decisions are a strictly increasing subsequence
      of the decisions sent, across any number of counter wraps. */
  lemma {:induction false} AcceptedIncreasing(start: U32, mcs: seq<Byte>, arrivals: seq<Arrival>)
    requires BoundedLag(mcs, arrivals)
    ensures Consistent(start, mcs, arrivals, Through(start, mcs, arrivals))
  {
    hide Drops, SeqOf, Extend, Front, Bytes, Verdict, DecisionOf;
    if arrivals != [] {
      var n := |arrivals| - 1;
      var front, last := arrivals[..n], arrivals[n];
      AcceptedIncreasing(start, mcs, front);
      var t := Through(start, mcs, front);
      ExtendCases(t, start, mcs, last);
      if last.Copy? && t.out != [] {
        ArrivedBelow(mcs, arrivals, t.out[|t.out| - 1].index);
        OlderDropped(t, start, last);
      }
      ConsistentStep(start, mcs, arrivals, t, Through(start, mcs, arrivals));
    }
  }

  lemma ConsistentStep(start: U32, mcs: seq<Byte>, arrivals: seq<Arrival>, t: Trace, t': Trace)
    requires arrivals != [] && Consistent(start, mcs, arrivals[..|arrivals| - 1], t)
    requires var a := arrivals[|arrivals| - 1];
      || t' == t
      || (&& a.Copy? && a.index < |mcs|
          && (t.out != [] ==> t.out[|t.out| - 1].index < a.index)
          && t' == Trace(State(true, SeqOf(start, a.index)), t.out + [Taken(a.index, DecisionOf(start, mcs, a.index))]))
    ensures Consistent(start, mcs, arrivals, t')
  {
  }

  // Newer than every earlier arrival.
  ghost predicate Newest(arrivals: seq<Arrival>, n: nat)
    requires n < |arrivals|
  {
    arrivals[n].Copy? && forall k :: 0 <= k < n && arrivals[k].Copy? ==> arrivals[k].index < arrivals[n].index
  }

  ghost predicate BoundedJump(arrivals: seq<Arrival>) {
    forall j, k :: 0 <= j < k < |arrivals| && arrivals[j].Copy? && arrivals[k].Copy? ==>
      arrivals[k].index < arrivals[j].index + TWO31
  }

  // The last decision let through is the newest arrival.
  ghost predicate UpToDate(arrivals: seq<Arrival>, t: Trace) {
    forall k :: 0 <= k < |arrivals| && arrivals[k].Copy? ==> t.out != [] && arrivals[k].index <= t.out[|t.out| - 1].index
  }

  /** If moreover no arrival runs 2^31 or more ahead of an earlier one, the filter
      loses nothing: an arrival is accepted exactly when it is newer than all the
      arrivals before it. */
  lemma {:induction false} AcceptedExactlyNewest(start: U32, mcs: seq<Byte>, arrivals: seq<Arrival>)
    requires BoundedLag(mcs, arrivals) && BoundedJump(arrivals)
    ensures UpToDate(arrivals, Through(start, mcs, arrivals))
    ensures arrivals != [] ==>
      var n := |arrivals| - 1;
      |Through(start, mcs, arrivals).out| == |Through(start, mcs, arrivals[..n]).out| + if Newest(arrivals, n) then 1 else 0
  {
    hide Drops, SeqOf, Extend, Front, Bytes, Verdict, DecisionOf, AsSent, StrictlyIncreasing;
    if arrivals != [] {
      var n := |arrivals| - 1;
      var front, last := arrivals[..n], arrivals[n];
      AcceptedExactlyNewest(start, mcs, front);
      AcceptedIncreasing(start, mcs, front);
      var t := Through(start, mcs, front);
      ExtendCases(t, start, mcs, last);
      if last.Copy? && t.out != [] {
        var a := t.out[|t.out| - 1].index;
        ArrivedBelow(mcs, arrivals, a);
        OlderDropped(t, start, last);
        assert Arrived(front, a);
        var j :| 0 <= j < |front| && front[j].Copy? && front[j].index == a;
        assert arrivals[j] == front[j];
        if a < last.index {
          NewerTaken(t, start, last);
        }
      }
      if last.Copy? && t.out == [] {
        FirstTaken(t.state, SeqOf(start, last.index));
      }
      UpToDateStep(arrivals, t, Through(start, mcs, arrivals));
    }
  }

  lemma UpToDateStep(arrivals: seq<Arrival>, t: Trace, t': Trace)
    requires arrivals != [] && UpToDate(arrivals[..|arrivals| - 1], t)
    requires t.out != [] ==> Arrived(arrivals[..|arrivals| - 1], t.out[|t.out| - 1].index)
    requires var a := arrivals[|arrivals| - 1];
      if a.Copy? && (t.out == [] || t.out[|t.out| - 1].index < a.index)
      then |t'.out| == |t.out| + 1 && t'.out[|t.out|].index == a.index
      else t' == t
    ensures UpToDate(arrivals, t')
    ensures |t'.out| == |t.out| + if Newest(arrivals, |arrivals| - 1) then 1 else 0
  {
  }

  /** The lag bound is tight: one more send of delay and an old decision is taken
      for a new one. */
  lemma LagBoundTight(start: U32, last: nat, i: nat)
    requires last == i + TWO31 + 1
    ensures !Drops(State(true, SeqOf(start, last)), SeqOf(start, i))
  {
    WrapDifference(start, last, i);
    assert (i - last) % TWO32 == TWO31 - 1;
  }
}
