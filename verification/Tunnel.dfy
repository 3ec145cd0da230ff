/** The queue that batches small messages for the radio by size and by time. */
module Aggregation {
  import opened Common

  type Message = seq<Byte>

  // Stale: the timer has fired and its handle is still held.
  datatype Timer = Unarmed | Pending | Stale

  datatype Limit = Passthrough | AtMost(size: nat)

  // Sent batches are kept as the messages that were joined into them.
  datatype Agg = Agg(queue: seq<Message>, size: nat, timer: Timer, batches: seq<seq<Message>>)

  function Fresh(): Agg { Agg([], 0, Unarmed, []) }

  function Join(ms: seq<Message>): seq<Byte> { if ms == [] then [] else Join(ms[..|ms| - 1]) + ms[|ms| - 1] }

  function Concat(bs: seq<seq<Message>>): seq<Message> { if bs == [] then [] else Concat(bs[..|bs| - 1]) + bs[|bs| - 1] }

  function Sent(a: Agg): Agg { Agg([], 0, Unarmed, a.batches + [a.queue]) }

  function Room(max: nat, a: Agg, data: Message): Agg {
    if a.size + |data| <= max then a
    else if a.queue == [] then a.(timer := Unarmed) else Sent(a)
  }

  function Put(limit: Limit, a: Agg, data: Message): Agg {
    if limit.Passthrough? then a.(batches := a.batches + [[data]])
    else if |data| > limit.size then a
    else
      var r := Room(limit.size, a, data);
      r.(queue := r.queue + [data], size := r.size + |data|, timer := if r.timer == Unarmed then Pending else r.timer)
  }

  function Flush(a: Agg): Agg { if a.size > 0 then Sent(a) else a }

  // The event loop runs a pending timer's flush.
  function Fire(a: Agg): Agg {
    if a.timer == Pending then Flush(a.(timer := Stale)) else a
  }

  // ---- the invariant ---------------------------------------------------------------------------

  // Something is queued exactly when a timer will send it, and no batch is over the limit.
  ghost predicate Tidy(limit: Limit, a: Agg) {
    && a.size == |Join(a.queue)| && (a.queue != [] <==> a.size > 0)
    && a.timer == (if a.queue == [] then Unarmed else Pending)
    && (limit.Passthrough? ==> a.queue == [])
    && (limit.AtMost? ==> a.size <= limit.size)
    && (limit.AtMost? ==> forall i :: 0 <= i < |a.batches| ==> |Join(a.batches[i])| <= limit.size)
  }

  predicate Accepts(limit: Limit, data: Message) { limit.Passthrough? || |data| <= limit.size }

  lemma JoinSnoc(ms: seq<Message>, m: Message)
    ensures Join(ms + [m]) == Join(ms) + m
  {
  }

  lemma ConcatSnoc(bs: seq<seq<Message>>, b: seq<Message>)
    ensures Concat(bs + [b]) == Concat(bs) + b
  {
  }

  lemma {:induction false} JoinConcat(a: seq<Message>, b: seq<Message>)
    ensures Join(a + b) == Join(a) + Join(b)
  {
    if b == [] {
      assert a + b == a;
    } else {
      JoinConcat(a, b[..|b| - 1]);
      assert (a + b)[..|a + b| - 1] == a + b[..|b| - 1];
    }
  }

  /** A put keeps the queue tidy exactly when it is refused, passed through, not empty, or
      joins messages already waiting. */
  lemma PutTidyExactly(limit: Limit, a: Agg, data: Message)
    requires Tidy(limit, a)
    ensures Tidy(limit, Put(limit, a, data)) <==> !Accepts(limit, data) || limit.Passthrough? || data != [] || a.queue != []
  {
    hide Join;
    JoinNone();
    JoinSnoc([], data);
    if Accepts(limit, data) && limit.AtMost? {
      var r := Room(limit.size, a, data);
      JoinSnoc(r.queue, data);
    }
  }

  /** A put, from the bytes waiting: what is over the limit is refused, what fits joins, and what
      does not sends the waiting batch and waits alone. */
  lemma PutExactly(max: nat, a: Agg, data: Message)
    requires Tidy(AtMost(max), a)
    ensures var r, waiting := Put(AtMost(max), a, data), |Join(a.queue)|;
      if |data| > max then r == a
      else if waiting + |data| <= max then r.batches == a.batches && r.queue == a.queue + [data]
      else r.batches == a.batches + [a.queue] && r.queue == [data]
  {
    JoinNone();
  }

  /** A flush, asked for or timed, sends whatever waits as one batch. */
  lemma FlushExactly(limit: Limit, a: Agg)
    requires Tidy(limit, a)
    ensures Flush(a) == if a.queue == [] then a else Agg([], 0, Unarmed, a.batches + [a.queue])
    ensures Fire(a) == Flush(a)
  {
  }

  lemma JoinNone()
    ensures Join([]) == []
  {
  }

  /** An empty message put into an empty queue is armed for, but its timer sends nothing and
      stays held: whatever is put next waits with no timer pending. */
  lemma EmptyMessageStalls(max: nat, data: Message)
    requires data != [] && |data| <= max
    ensures var a := Put(AtMost(max), Fire(Put(AtMost(max), Fresh(), [])), data);
      a.queue == [[], data] && a.timer == Stale && Fire(a) == a
  {
  }

  // ---- runs ----------------------------------------------------------------------------------------

  datatype Event = Arrive(data: Message) | Expire | Demand

  function Step(limit: Limit, a: Agg, e: Event): Agg {
    match e
    case Arrive(data) => Put(limit, a, data)
    case Expire => Fire(a)
    case Demand => Flush(a)
  }

  function Run(limit: Limit, es: seq<Event>): Agg {
    if es == [] then Fresh() else Step(limit, Run(limit, es[..|es| - 1]), es[|es| - 1])
  }

  // The messages within the limit, in arrival order.
  function Accepted(limit: Limit, es: seq<Event>): seq<Message> {
    if es == [] then []
    else
      var front, e := Accepted(limit, es[..|es| - 1]), es[|es| - 1];
      if e.Arrive? && Accepts(limit, e.data) then front + [e.data] else front
  }

  ghost predicate NoneEmpty(es: seq<Event>) {
    forall i :: 0 <= i < |es| && es[i].Arrive? ==> es[i].data != []
  }

  lemma FlushKeeps(limit: Limit, a: Agg)
    requires Tidy(limit, a)
    ensures Tidy(limit, Flush(a)) && Tidy(limit, Fire(a))
    ensures Concat(Flush(a).batches) + Flush(a).queue == Concat(a.batches) + a.queue
    ensures Concat(Fire(a).batches) + Fire(a).queue == Concat(a.batches) + a.queue
  {
  }

  lemma PutKeeps(limit: Limit, a: Agg, data: Message)
    requires Tidy(limit, a)
    ensures var r := Put(limit, a, data);
      Concat(r.batches) + r.queue == Concat(a.batches) + a.queue + if Accepts(limit, data) then [data] else []
  {
    hide Join, Concat;
    ConcatSnoc(a.batches, a.queue);
    ConcatSnoc(a.batches, [data]);
  }

  /** Under any interleaving of arrivals, expiries and flushes: batches within the limit, a
      timer pending exactly when something waits, and every accepted message once, in order. */
  lemma {:induction false} RunDelivers(limit: Limit, es: seq<Event>)
    requires NoneEmpty(es)
    ensures var a := Run(limit, es);
      Tidy(limit, a) && Concat(a.batches) + a.queue == Accepted(limit, es)
  {
    hide Tidy, Put, Fire, Flush, Concat;
    if es == [] {
      FreshTidy(limit);
    } else {
      var front, e := es[..|es| - 1], es[|es| - 1];
      RunDelivers(limit, front);
      var a := Run(limit, front);
      match e
      case Arrive(data) =>
        PutTidyExactly(limit, a, data);
        PutKeeps(limit, a, data);
      case _ => FlushKeeps(limit, a);
    }
  }

  lemma FreshTidy(limit: Limit)
    ensures Tidy(limit, Fresh()) && Concat(Fresh().batches) + Fresh().queue == []
  {
  }

  // ---- the queue object --------------------------------------------------------------------------------

  class AggQueue {
    const limit: Limit
    var queue: seq<Message>
    var size: nat
    var timer: Timer
    var sent: seq<seq<Byte>>
    ghost var batches: seq<seq<Message>>

    ghost function View(): Agg reads this { Agg(queue, size, timer, batches) }

    // What went out is the batches, joined.
    ghost predicate Valid() reads this {
      |sent| == |batches| && forall i :: 0 <= i < |sent| ==> sent[i] == Join(batches[i])
    }

    constructor (limit: Limit)
      ensures Valid() && this.limit == limit && View() == Fresh()
    {
      this.limit := limit;
      queue, size, timer, sent, batches := [], 0, Unarmed, [], [];
    }

    method Send(ms: seq<Message>)
      requires Valid()
      modifies this`sent, this`batches
      ensures Valid() && batches == old(batches) + [ms]
    {
      var joined: seq<Byte> := [];
      for i := 0 to |ms|
        invariant joined == Join(ms[..i])
        invariant sent == old(sent) && batches == old(batches)
      {
        assert ms[..i + 1][..i] == ms[..i];
        joined := joined + ms[i];
      }
      assert ms[..|ms|] == ms;
      sent, batches := sent + [joined], batches + [ms];
    }

    method PutMessage(data: Message)
      requires Valid()
      modifies this
      ensures Valid() && View() == Put(limit, old(View()), data)
    {
      if limit.Passthrough? {
        Send([data]);
        return;
      }
      if |data| > limit.size {
        return;
      }
      if size + |data| > limit.size {
        timer := Unarmed;
        if queue != [] {
          Send(queue);
          queue, size := [], 0;
        }
      }
      queue, size := queue + [data], size + |data|;
      if timer == Unarmed {
        timer := Pending;
      }
    }

    method FlushQueue()
      requires Valid()
      modifies this
      ensures Valid() && View() == Flush(old(View()))
    {
      if size > 0 {
        timer := Unarmed;
        Send(queue);
        queue, size := [], 0;
      }
    }

    method TimerFires()
      requires Valid()
      modifies this
      ensures Valid() && View() == Fire(old(View()))
    {
      if timer == Pending {
        timer := Stale;
        FlushQueue();
      }
    }
  }
}

/** The IP tunnel's length-prefixed packets over radio batches. */
module Tunnel {
  import opened Common
  import opened Aggregation

  const MAX_PACKET := 65535

  function Pack(p: Message): (m: Message)
    requires |p| <= MAX_PACKET
    ensures |m| == |p| + 2
  {
    [|p| / 256, |p| % 256] + p
  }

  predicate Short(ps: seq<Message>) { forall i :: 0 <= i < |ps| ==> |ps[i]| <= MAX_PACKET }

  function PackAll(ps: seq<Message>): seq<Message>
    requires Short(ps)
  {
    seq(|ps|, i requires 0 <= i < |ps| => Pack(ps[i]))
  }

  function SizeAt(m: seq<Byte>): nat
    requires |m| >= 2
  {
    256 * m[0] as int + m[1] as int
  }

  // The first packet is all there.
  predicate Complete(m: seq<Byte>) { |m| >= 2 && |m| >= 2 + SizeAt(m) }

  function Unpack(m: seq<Byte>): (ps: seq<Message>)
    ensures Short(ps)
  {
    if !Complete(m) then []
    else [m[2..2 + SizeAt(m)]] + Unpack(m[2 + SizeAt(m)..])
  }

  method UnpackBatch(m: seq<Byte>) returns (packets: seq<Message>)
    ensures packets == Unpack(m)
  {
    hide Unpack;
    packets := [];
    var i := 0;
    while i < |m|
      invariant 0 <= i <= |m| && packets + Unpack(m[i..]) == Unpack(m)
    {
      ghost var left := m[i..];
      UnpackStep(left);
      if |m| - i < 2 {
        return;
      }
      var size := 256 * m[i] as int + m[i + 1] as int;
      assert size == SizeAt(left);
      i := i + 2;
      if |m| - i < size {
        return;
      }
      Cut(m, i - 2, 2 + size);
      Cut(m, i - 2, 2);
      Cut(m[i - 2..], 2, size);
      packets := packets + [m[i..i + size]];
      i := i + size;
    }
    UnpackStep(m[i..]);
  }

  // ---- packing, then unpacking -------------------------------------------------------------------

  // Front recursion, to follow Unpack.
  lemma JoinCons(p: Message, ps: seq<Message>)
    requires |p| <= MAX_PACKET && Short(ps)
    ensures Short([p] + ps) && Join(PackAll([p] + ps)) == Pack(p) + Join(PackAll(ps))
  {
    assert PackAll([p] + ps) == [Pack(p)] + PackAll(ps);
    JoinConcat([Pack(p)], PackAll(ps));
    JoinSnoc([], Pack(p));
    assert [] + [Pack(p)] == [Pack(p)];
  }

  lemma PackHead(p: Message, rest: seq<Byte>)
    requires |p| <= MAX_PACKET
    ensures Unpack(Pack(p) + rest) == [p] + Unpack(rest)
  {
  }

  /** Packets packed in front of anything come out first. */
  lemma {:induction false} UnpackJoin(ps: seq<Message>, rest: seq<Byte>)
    requires Short(ps)
    ensures Unpack(Join(PackAll(ps)) + rest) == ps + Unpack(rest)
  {
    hide Unpack, Join, Pack;
    if ps == [] {
      JoinNone();
      assert PackAll(ps) == [] && [] + rest == rest;
    } else {
      assert ps == [ps[0]] + ps[1..];
      JoinCons(ps[0], ps[1..]);
      UnpackJoin(ps[1..], rest);
      var tail := Join(PackAll(ps[1..]));
      assert Join(PackAll(ps)) + rest == Pack(ps[0]) + (tail + rest);
      PackHead(ps[0], tail + rest);
    }
  }

  lemma RoundTrip(ps: seq<Message>)
    requires Short(ps)
    ensures Unpack(Join(PackAll(ps))) == ps
  {
    UnpackJoin(ps, []);
    assert Join(PackAll(ps)) + [] == Join(PackAll(ps));
    assert ps + Unpack([]) == ps;
  }

  // ---- arbitrary bytes ------------------------------------------------------------------------------

  lemma PackBack(m: seq<Byte>)
    requires Complete(m)
    ensures var n := SizeAt(m);
      && n <= MAX_PACKET && m == Pack(m[2..2 + n]) + m[2 + n..]
      && Unpack(m) == [m[2..2 + n]] + Unpack(m[2 + n..])
  {
  }

  lemma UnpackStep(m: seq<Byte>)
    ensures Unpack(m) == if Complete(m) then [m[2..2 + SizeAt(m)]] + Unpack(m[2 + SizeAt(m)..]) else []
  {
  }

  /** On any bytes: the packets are a prefix of the batch, cut exactly where no complete
      packet follows. */
  lemma {:induction false} UnpackPrefix(m: seq<Byte>) returns (rest: seq<Byte>)
    ensures m == Join(PackAll(Unpack(m))) + rest && !Complete(rest)
    decreases |m|
  {
    hide Unpack, Join, Pack;
    if !Complete(m) {
      rest := m;
      UnpackStep(m);
      JoinNone();
      assert PackAll([]) == [];
    } else {
      var tail := m[2 + SizeAt(m)..];
      rest := UnpackPrefix(tail);
      PackBack(m);
      JoinCons(m[2..2 + SizeAt(m)], Unpack(tail));
    }
  }

  /** No other reading of the batch finds more packets. */
  lemma UnpackMaximal(m: seq<Byte>, ps: seq<Message>)
    requires Short(ps) && Join(PackAll(ps)) <= m
    ensures ps <= Unpack(m)
  {
    var rest := m[|Join(PackAll(ps))|..];
    assert m == Join(PackAll(ps)) + rest;
    UnpackJoin(ps, rest);
  }

  // ---- end to end --------------------------------------------------------------------------------------

  // A tun read returns one packet of at most mtu - 2 bytes.
  datatype Event = Read(packet: Message) | Expire | Demand

  ghost predicate FromTun(mtu: nat, es: seq<Event>) {
    forall i :: 0 <= i < |es| && es[i].Read? ==> es[i].packet != [] && |es[i].packet| + 2 <= mtu
  }

  function Uplink(e: Event): Aggregation.Event
    requires e.Read? ==> |e.packet| <= MAX_PACKET
  {
    match e
    case Read(p) => Arrive(Pack(p))
    case Expire => Aggregation.Expire
    case Demand => Aggregation.Demand
  }

  predicate Packable(es: seq<Event>) { forall i :: 0 <= i < |es| && es[i].Read? ==> |es[i].packet| <= MAX_PACKET }

  function Uplinked(es: seq<Event>): seq<Aggregation.Event>
    requires Packable(es)
  {
    if es == [] then [] else Uplinked(es[..|es| - 1]) + [Uplink(es[|es| - 1])]
  }

  function Reads(es: seq<Event>): seq<Message> {
    if es == [] then []
    else Reads(es[..|es| - 1]) + if es[|es| - 1].Read? then [es[|es| - 1].packet] else []
  }

  function Received(batches: seq<seq<Message>>): seq<Message> {
    if batches == [] then []
    else Received(batches[..|batches| - 1]) + Unpack(Join(batches[|batches| - 1]))
  }

  // Nothing read off the tun is refused as oversize.
  lemma {:induction false} AllAccepted(limit: Limit, mtu: nat, es: seq<Event>)
    requires FromTun(mtu, es) && Packable(es) && (limit == Passthrough || limit == AtMost(mtu))
    ensures Short(Reads(es)) && Accepted(limit, Uplinked(es)) == PackAll(Reads(es)) && NoneEmpty(Uplinked(es))
  {
    if es != [] {
      var front := es[..|es| - 1];
      AllAccepted(limit, mtu, front);
      var us := Uplinked(es);
      assert us[..|us| - 1] == Uplinked(front);
    }
  }

  // Splitting a packed list at any message splits the packets there.
  lemma PackAllSplit(ps: seq<Message>, n: nat)
    requires Short(ps) && n <= |ps|
    ensures PackAll(ps)[..n] == PackAll(ps[..n]) && PackAll(ps)[n..] == PackAll(ps[n..])
  {
  }

  lemma {:induction false} ReceivedPrefix(batches: seq<seq<Message>>, queue: seq<Message>, ps: seq<Message>)
    requires Short(ps) && Concat(batches) + queue == PackAll(ps)
    ensures Received(batches) + Unpack(Join(queue)) == ps
  {
    if batches == [] {
      assert Concat(batches) + queue == queue;
      RoundTrip(ps);
    } else {
      var front, last := batches[..|batches| - 1], batches[|batches| - 1];
      var n := |Concat(front) + last|;
      PackAllSplit(ps, n);
      assert PackAll(ps)[..n] == Concat(front) + last && PackAll(ps)[n..] == queue;
      ReceivedPrefix(front, last, ps[..n]);
      RoundTrip(ps[n..]);
      assert ps == ps[..n] + ps[n..];
    }
  }

  /** Whatever the timing: the packets unpacked from the batches sent, then those still
      queued, are exactly the packets read, in order; a timer is pending exactly when one waits. */
  lemma TunnelDelivers(limit: Limit, mtu: nat, es: seq<Event>)
    requires FromTun(mtu, es) && Packable(es) && (limit == Passthrough || limit == AtMost(mtu))
    ensures var a := Run(limit, Uplinked(es));
      && Tidy(limit, a)
      && Received(a.batches) + Unpack(Join(a.queue)) == Reads(es)
  {
    hide Tidy, Run, Received, Concat, Join, Unpack;
    AllAccepted(limit, mtu, es);
    RunDelivers(limit, Uplinked(es));
    ReceivedPrefix(Run(limit, Uplinked(es)).batches, Run(limit, Uplinked(es)).queue, Reads(es));
  }
}
