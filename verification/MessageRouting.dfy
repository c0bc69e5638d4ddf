/** How a vertex program distributes messages and activations over the partitions. */
module MessageRouting {
  import opened Striping
  import opened RangePartitioner
  import opened MessagePacking
  import opened MessageSenders
  import opened MessageBanks

  function Times<T(==)>(v: seq<T>, x: T): nat {
    multiset(v)[x]
  }

  lemma {:induction false} TimesAppend<T>(a: seq<T>, b: seq<T>, x: T)
    ensures Times(a + b, x) == Times(a, x) + Times(b, x)
  {
  }

  // Two vertices at one location are one vertex.
  lemma {:induction false} OneLocation(s: Stripe, x: nat, y: nat)
    requires s.Valid() && s.Part(x) == s.Part(y) && s.Off(x) == s.Off(y)
    ensures x == y
  {
    IdToLocToId(s, x);
    IdToLocToId(s, y);
  }

  // A vertex is in its bucket exactly as often as in the list.
  lemma {:induction false} BucketTimes(s: Stripe, ids: seq<nat>, id: nat)
    requires s.Valid()
    ensures Times(Bucket(s, ids, s.Part(id)), s.Off(id)) == Times(ids, id)
  {
    if ids != [] {
      var rest, last := ids[..|ids| - 1], ids[|ids| - 1];
      BucketTimes(s, rest, id);
      assert ids == rest + [last];
      TimesAppend(rest, [last], id);
      if s.Part(last) == s.Part(id) {
        TimesAppend(Bucket(s, rest, s.Part(id)), [s.Off(last)], s.Off(id));
        if s.Off(last) == s.Off(id) { OneLocation(s, last, id); }
      }
    }
  }

  lemma {:induction false} ToAllTimes(b: Body, dests: seq<nat>, p: Pair)
    ensures Times(ToAll(b, dests), p) == if p.body == b then Times(dests, p.dest) else 0
  {
    if dests != [] {
      var rest, last := dests[..|dests| - 1], dests[|dests| - 1];
      ToAllTimes(b, rest, p);
      assert dests == rest + [last] && ToAll(b, dests) == ToAll(b, rest) + [Pair(b, last)];
      TimesAppend(rest, [last], p.dest);
      TimesAppend(ToAll(b, rest), [Pair(b, last)], p);
    }
  }

  // What the bucketed path hands to the sender of a partition.
  lemma {:induction false} BucketSent(s: Stripe, ids: seq<nat>, b: Body, id: nat, body: Body)
    requires s.Valid()
    ensures Times(ToAll(b, Bucket(s, ids, s.Part(id))), Pair(body, s.Off(id))) == if body == b then Times(ids, id) else 0
  {
    ToAllTimes(b, Bucket(s, ids, s.Part(id)), Pair(body, s.Off(id)));
    BucketTimes(s, ids, id);
  }

  const ACTIVATION: Body := Body(true, true, [])

  // ----- what has been sent, by partition
  //
  // With p partitions, the multicast senders are numbered from 0 to p and the activation
  // senders from p to 2p; so are the point-to-point senders and those of flush messages.

  ghost predicate Rows(s: Stripe, lanes: seq<Lane>, sent: seq<seq<Pair>>) {
    s.Valid() && |lanes| == 2 * s.p && |sent| == 2 * s.p
  }

  // How often body b has been sent to vertex id, in whatever way.
  ghost function Delivered(s: Stripe, lanes: seq<Lane>, sent: seq<seq<Pair>>, id: nat, b: Body): nat
    requires Rows(s, lanes, sent)
  {
    IdToLocToId(s, id);
    var q, x := s.Part(id), Pair(b, s.Off(id));
    Times(sent[q], x) + Times(sent[s.p + q], x) + Times(lanes[q].sent, x)
  }

  // How often vertex id has been activated, by message or directly.
  ghost function Activations(s: Stripe, lanes: seq<Lane>, worker: nat, activated: seq<nat>, id: nat): nat
    requires s.Valid() && |lanes| == 2 * s.p
  {
    IdToLocToId(s, id);
    var q := s.Part(id);
    Times(lanes[s.p + q].sent, Pair(ACTIVATION, s.Off(id))) + if q == worker then Times(activated, s.Off(id)) else 0
  }

  ghost predicate KeepSent(before: seq<Lane>, now: seq<Lane>) {
    |before| == |now| && forall q :: 0 <= q < |now| ==> now[q].sent == before[q].sent
  }

  // Opening and closing sends nothing.
  lemma {:induction false} SameSent(s: Stripe, before: seq<Lane>, now: seq<Lane>, sent: seq<seq<Pair>>, id: nat, b: Body)
    requires Rows(s, before, sent) && KeepSent(before, now)
    ensures Delivered(s, now, sent, id, b) == Delivered(s, before, sent, id, b)
  {
    IdToLocToId(s, id);
  }

  lemma {:induction false} NothingSent(s: Stripe, lanes: seq<Lane>, sent: seq<seq<Pair>>, worker: nat)
    requires Rows(s, lanes, sent) && forall q :: 0 <= q < 2 * s.p ==> lanes[q].sent == [] && sent[q] == []
    ensures forall id, b :: Delivered(s, lanes, sent, id, b) == 0
    ensures forall id :: Activations(s, lanes, worker, [], id) == 0
  {
    forall id, b ensures Delivered(s, lanes, sent, id, b) == 0 { IdToLocToId(s, id); }
    forall id ensures Activations(s, lanes, worker, [], id) == 0 { IdToLocToId(s, id); }
  }

  // One point-to-point message more, in the row of messages or in that of flush messages.
  lemma {:induction false} OneMoreSent(s: Stripe, lanes: seq<Lane>, sent: seq<seq<Pair>>, dest: nat, row: nat, b: Body, id: nat, body: Body)
    requires Rows(s, lanes, sent) && s.Part(dest) < s.p && (row == s.Part(dest) || row == s.p + s.Part(dest))
    ensures
      var more := sent[row := sent[row] + [Pair(b, s.Off(dest))]];
      Delivered(s, lanes, more, id, body) == Delivered(s, lanes, sent, id, body) + if id == dest && body == b then 1 else 0
  {
    IdToLocToId(s, id);
    TimesAppend(sent[row], [Pair(b, s.Off(dest))], Pair(body, s.Off(id)));
    if s.Part(id) == s.Part(dest) && s.Off(id) == s.Off(dest) { OneLocation(s, id, dest); }
  }

  // The buckets of a list, one for each partition.
  ghost function Buckets(s: Stripe, ids: seq<nat>): (bs: seq<seq<nat>>)
    requires s.Valid()
    ensures |bs| == s.p && forall q :: 0 <= q < s.p ==> bs[q] == Bucket(s, ids, q)
  {
    seq(s.p, q requires 0 <= q < s.p => Bucket(s, ids, q))
  }

  // The buffers, of which the first n have been handed over.
  ghost predicate BufsAfter(bs: seq<seq<nat>>, n: nat, bufs: seq<seq<nat>>) {
    |bufs| == |bs| && forall q :: 0 <= q < |bs| ==> bufs[q] == if q < n then [] else bs[q]
  }

  lemma {:induction false} BufsNext(bs: seq<seq<nat>>, n: nat, bufs: seq<seq<nat>>)
    requires n < |bs| && BufsAfter(bs, n, bufs)
    ensures bufs[n] == bs[n] && BufsAfter(bs, n + 1, bufs[n := []])
  {
  }

  // The first n multicast senders have got their buckets.
  ghost predicate BucketsSent(before: seq<Lane>, now: seq<Lane>, b: Body, bs: seq<seq<nat>>, n: nat)
    requires |before| == |now| == 2 * |bs| && n <= |bs|
  {
    forall q :: 0 <= q < |now| ==>
      if q < n then now[q].open == before[q].open && now[q].sent == before[q].sent + ToAll(b, bs[q]) else now[q] == before[q]
  }

  lemma {:induction false} SentNext(before: seq<Lane>, was: seq<Lane>, now: seq<Lane>, b: Body, bs: seq<seq<nat>>, n: nat)
    requires |before| == |was| == |now| == 2 * |bs| && n < |bs| && BucketsSent(before, was, b, bs, n) && !before[n].open
    requires forall k :: 0 <= k < |now| ==>
      if k == n then !now[k].open && now[k].sent == was[k].sent + ToAll(b, bs[n]) else now[k] == was[k]
    ensures BucketsSent(before, now, b, bs, n + 1)
  {
  }

  lemma {:induction false} BucketsDelivered(s: Stripe, before: seq<Lane>, now: seq<Lane>, sent: seq<seq<Pair>>, b: Body, ids: seq<nat>, id: nat, body: Body)
    requires Rows(s, before, sent) && |now| == 2 * s.p && BucketsSent(before, now, b, Buckets(s, ids), s.p)
    ensures Delivered(s, now, sent, id, body) == Delivered(s, before, sent, id, body) + if body == b then Times(ids, id) else 0
  {
    IdToLocToId(s, id);
    var q := s.Part(id);
    TimesAppend(before[q].sent, ToAll(b, Bucket(s, ids, q)), Pair(body, s.Off(id)));
    BucketSent(s, ids, b, id, body);
  }

  function WithActivations(lane: Lane, ids: seq<nat>): Lane {
    lane.(sent := lane.sent + ToAll(ACTIVATION, ids))
  }

  // The first n activation senders, but the one passed over, have got their buckets.
  ghost predicate BucketsActivated(before: seq<Lane>, now: seq<Lane>, bs: seq<seq<nat>>, passed: nat, n: nat)
    requires |before| == |now| == 2 * |bs| && n <= |bs|
  {
    forall q :: 0 <= q < |now| ==>
      if |bs| <= q < |bs| + n && q - |bs| != passed then now[q] == WithActivations(before[q], bs[q - |bs|]) else now[q] == before[q]
  }

  // Every bucket that is to go out finds its sender open.
  ghost predicate Reachable(lanes: seq<Lane>, bs: seq<seq<nat>>, passed: nat)
    requires |lanes| == 2 * |bs|
  {
    forall q :: 0 <= q < |bs| && q != passed && bs[q] != [] ==> lanes[|bs| + q].open && lanes[|bs| + q].body == ACTIVATION
  }

  // The next bucket: its sender is as it was, and gets it.
  lemma {:induction false} ReachNext(before: seq<Lane>, now: seq<Lane>, bs: seq<seq<nat>>, passed: nat, n: nat)
    requires |before| == |now| == 2 * |bs| && n < |bs| && BucketsActivated(before, now, bs, passed, n)
    ensures now[|bs| + n] == before[|bs| + n]
    ensures n == passed ==> BucketsActivated(before, now, bs, passed, n + 1)
    ensures n != passed ==> BucketsActivated(before, now[|bs| + n := WithActivations(now[|bs| + n], bs[n])], bs, passed, n + 1)
  {
  }

  // The first i buckets have been handed over, the one passed over to the worker itself.
  ghost predicate HandedOver(bs: seq<seq<nat>>, passed: nat, i: nat, before: seq<Lane>, now: seq<Lane>, bufs: seq<seq<nat>>, was: seq<nat>, activated: seq<nat>) {
    && |before| == |now| == 2 * |bs| && i <= |bs| && BufsAfter(bs, i, bufs) && BucketsActivated(before, now, bs, passed, i)
    && activated == if passed < i && passed < |bs| then was + bs[passed] else was
  }

  // The next bucket finds its sender open, and has then been handed over.
  lemma {:induction false} BucketReady(before: seq<Lane>, now: seq<Lane>, bs: seq<seq<nat>>, passed: nat, n: nat, bufs: seq<seq<nat>>, was: seq<nat>, activated: seq<nat>)
    requires HandedOver(bs, passed, n, before, now, bufs, was, activated) && n < |bs| && n != passed && Reachable(before, bs, passed)
    ensures |bufs| == |bs| && bufs[n] == bs[n] && (bs[n] != [] ==> now[|bs| + n].open && now[|bs| + n].body == ACTIVATION)
  {
    ReachNext(before, now, bs, passed, n);
  }

  lemma {:induction false} BucketDone(before: seq<Lane>, prior: seq<Lane>, now: seq<Lane>, bs: seq<seq<nat>>, passed: nat, n: nat, bufs: seq<seq<nat>>, bufs': seq<seq<nat>>, was: seq<nat>, activated: seq<nat>)
    requires HandedOver(bs, passed, n, before, prior, bufs, was, activated) && n < |bs| && n != passed
    requires now == prior[|bs| + n := WithActivations(prior[|bs| + n], bs[n])] && bufs' == bufs[n := []]
    ensures HandedOver(bs, passed, n + 1, before, now, bufs', was, activated)
  {
    ReachNext(before, prior, bs, passed, n);
    BufsNext(bs, n, bufs);
  }

  lemma {:induction false} OwnDone(before: seq<Lane>, now: seq<Lane>, bs: seq<seq<nat>>, n: nat, bufs: seq<seq<nat>>, bufs': seq<seq<nat>>, was: seq<nat>, activated: seq<nat>)
    requires HandedOver(bs, n, n, before, now, bufs, was, activated) && n < |bs| && bufs' == bufs[n := []]
    ensures bufs[n] == bs[n] && HandedOver(bs, n, n + 1, before, now, bufs', was, activated + bufs[n])
  {
    ReachNext(before, now, bs, n, n);
    BufsNext(bs, n, bufs);
  }

  lemma {:induction false} LaneIs(before: seq<Lane>, now: seq<Lane>, bs: seq<seq<nat>>, passed: nat, q: nat)
    requires |before| == |now| == 2 * |bs| && q < |bs| && BucketsActivated(before, now, bs, passed, |bs|)
    ensures now[|bs| + q] == if q == passed then before[|bs| + q] else WithActivations(before[|bs| + q], bs[q])
  {
  }

  lemma {:induction false} BucketsActivate(s: Stripe, before: seq<Lane>, now: seq<Lane>, ids: seq<nat>, worker: nat, direct: bool,
                                           was: seq<nat>, activated: seq<nat>, id: nat)
    requires s.Valid() && |before| == |now| == 2 * s.p && worker < s.p
    requires BucketsActivated(before, now, Buckets(s, ids), if direct then worker else s.p, s.p)
    requires activated == if direct then was + Bucket(s, ids, worker) else was
    ensures Activations(s, now, worker, activated, id) == Activations(s, before, worker, was, id) + Times(ids, id)
  {
    IdToLocToId(s, id);
    var q := s.Part(id);
    LaneIs(before, now, Buckets(s, ids), if direct then worker else s.p, q);
    if direct && q == worker {
      OwnTimes(s, ids, was, id);
    } else {
      LaneTimes(s, ids, before[s.p + q], id);
    }
  }

  lemma {:induction false} OwnTimes(s: Stripe, ids: seq<nat>, was: seq<nat>, id: nat)
    requires s.Valid()
    ensures Times(was + Bucket(s, ids, s.Part(id)), s.Off(id)) == Times(was, s.Off(id)) + Times(ids, id)
  {
    TimesAppend(was, Bucket(s, ids, s.Part(id)), s.Off(id));
    BucketTimes(s, ids, id);
  }

  lemma {:induction false} LaneTimes(s: Stripe, ids: seq<nat>, lane: Lane, id: nat)
    requires s.Valid()
    ensures
      var x := Pair(ACTIVATION, s.Off(id));
      Times(WithActivations(lane, Bucket(s, ids, s.Part(id))).sent, x) == Times(lane.sent, x) + Times(ids, id)
  {
    TimesAppend(lane.sent, ToAll(ACTIVATION, Bucket(s, ids, s.Part(id))), Pair(ACTIVATION, s.Off(id)));
    BucketSent(s, ids, ACTIVATION, id, ACTIVATION);
  }

  lemma {:induction false} OneMoreActivated(s: Stripe, before: seq<Lane>, now: seq<Lane>, worker: nat, was: seq<nat>, activated: seq<nat>, v: nat, id: nat)
    requires s.Valid() && |before| == |now| == 2 * s.p && s.Part(v) < s.p
    requires forall q :: 0 <= q < 2 * s.p && q != s.p + s.Part(v) ==> now[q] == before[q]
    requires
      var q := s.p + s.Part(v);
      || (activated == was && now[q] == WithActivations(before[q], [s.Off(v)]))
      || (s.Part(v) == worker && activated == was + [s.Off(v)] && now[q] == before[q])
    ensures Activations(s, now, worker, activated, id) == Activations(s, before, worker, was, id) + if id == v then 1 else 0
  {
    IdToLocToId(s, id);
    assert ToAll(ACTIVATION, [s.Off(v)]) == [Pair(ACTIVATION, s.Off(v))];
    if s.Part(id) == s.Part(v) {
      TimesAppend(before[s.p + s.Part(v)].sent, [Pair(ACTIVATION, s.Off(v))], Pair(ACTIVATION, s.Off(id)));
      TimesAppend(was, [s.Off(v)], s.Off(id));
      if s.Off(id) == s.Off(v) { OneLocation(s, id, v); }
    }
  }

  // ----- the vertex program

  // Between calls no multicast is open.  The activation senders are open, except those that a
  // flush message has gone past.
  ghost predicate InOrder(lanes: seq<Lane>, p: nat, flushed: set<nat>)
    requires |lanes| == 2 * p
  {
    forall k :: 0 <= k < 2 * p ==>
      && (lanes[k].open <==> k >= p && k - p !in flushed)
      && (lanes[k].open ==> lanes[k].body == ACTIVATION)
  }

  lemma {:induction false} FlushedOrder(lanes: seq<Lane>, p: nat, flushed: set<nat>, q: nat)
    requires |lanes| == 2 * p && InOrder(lanes, p, flushed) && q < p
    ensures
      var now := lanes[p + q := lanes[p + q].Closed()][q := lanes[q].Closed()];
      InOrder(now, p, flushed + {q}) && KeepSent(lanes, now)
  {
  }

  lemma {:induction false} AddedOrder(lanes: seq<Lane>, p: nat, flushed: set<nat>, q: nat, ids: seq<nat>)
    requires |lanes| == 2 * p && InOrder(lanes, p, flushed) && q < p && lanes[p + q].open
    ensures lanes[p + q].Added(ids) == WithActivations(lanes[p + q], ids)
    ensures InOrder(lanes[p + q := WithActivations(lanes[p + q], ids)], p, flushed)
  {
  }

  // Few destinations get a message each, many share a multicast.
  predicate HasRoom(s: Stripe, n: nat, b: Body, size: nat) {
    if n < s.p * 2 then n > 0 ==> Postable(b, size) else Sendable(b, size)
  }

  class VertexProgram {
    const s: Stripe
    const worker: nat
    const bank: SenderBank
    const vidBufs: array<seq<nat>>
    var activated: seq<nat>              // activated in the worker's own partition
    ghost var flushed: set<nat>          // partitions sent a flush message since the last flush_msgs

    ghost predicate Shape()
      reads bank
    {
      && Rows(s, bank.lanes, bank.sent) && |bank.multis| == |bank.singles| == 2 * s.p
      && worker < s.p && vidBufs.Length == s.p && bank.size > HEADER
      && this !in bank.Foot() && vidBufs !in bank.Foot() && bank !in bank.Foot()
    }

    ghost predicate Ready()
      reads this, bank, bank.Foot()
    {
      Shape() && bank.State() == Sound && InOrder(bank.lanes, s.p, flushed)
    }

    ghost predicate Valid()
      reads this, vidBufs, bank, bank.Foot()
    {
      Ready() && forall q :: 0 <= q < s.p ==> vidBufs[q] == []
    }

    constructor (s: Stripe, worker: nat, bank: SenderBank, vidBufs: array<seq<nat>>)
      requires Rows(s, bank.lanes, bank.sent) && |bank.multis| == |bank.singles| == 2 * s.p && bank.State() == Sound
      requires worker < s.p && vidBufs.Length == s.p && bank.size > HEADER && vidBufs !in bank.Foot() && bank !in bank.Foot()
      requires InOrder(bank.lanes, s.p, {}) && forall q :: 0 <= q < s.p ==> vidBufs[q] == []
      ensures Valid() && this.s == s && this.worker == worker && this.bank == bank && this.vidBufs == vidBufs && flushed == {} && activated == []
    {
      this.s, this.worker, this.bank, this.vidBufs, activated, flushed := s, worker, bank, vidBufs, [], {};
    }

    // init_messaging: new senders, those of activations opened.
    static method Create(s: Stripe, worker: nat, size: nat) returns (v: VertexProgram)
      requires s.Valid() && worker < s.p && size > HEADER
      ensures v.Valid() && v.s == s && v.worker == worker && v.flushed == {} && v.activated == [] && v.bank.size == size
      ensures fresh(v) && fresh(v.vidBufs) && fresh(v.bank) && fresh(v.bank.Foot())
      ensures forall id, b :: Delivered(s, v.bank.lanes, v.bank.sent, id, b) == 0
      ensures forall id :: Activations(s, v.bank.lanes, worker, v.activated, id) == 0
    {
      var vidBufs := new seq<nat>[s.p](_ => []);
      var bank := NewBank(2 * s.p, size);
      OpenActivations(bank, s.p);
      v := new VertexProgram(s, worker, bank, vidBufs);
      NothingSent(s, bank.lanes, bank.sent, worker);
    }

    static method OpenActivations(senders: SenderBank, p: nat)
      requires senders.State() == Sound && |senders.multis| == |senders.lanes| == 2 * p && senders.size > HEADER
      requires forall k :: 0 <= k < 2 * p ==> senders.lanes[k] == Lane([], false, EMPTY)
      modifies senders, senders.Foot()
      ensures senders.State() == Sound && senders.sent == old(senders.sent) && |senders.lanes| == 2 * p
      ensures forall k :: 0 <= k < 2 * p ==> senders.lanes[k] == if k < p then Lane([], false, EMPTY) else Lane([], true, ACTIVATION)
    {
      for q := 0 to p
        invariant senders.State() == Sound && senders.sent == old(senders.sent) && |senders.lanes| == 2 * p
        invariant forall k :: 0 <= k < 2 * p ==>
          senders.lanes[k] == if k < p + q && k >= p then Lane([], true, ACTIVATION) else Lane([], false, EMPTY)
      {
        senders.Do(p + q, Open(ACTIVATION));
      }
    }

    // How often body b has been sent to vertex id, and how often it has been activated.
    ghost function Sent(id: nat, b: Body): nat
      requires Rows(s, bank.lanes, bank.sent)
      reads bank
    {
      Delivered(s, bank.lanes, bank.sent, id, b)
    }

    ghost function Activated(id: nat): nat
      requires Rows(s, bank.lanes, bank.sent)
      reads this, bank
    {
      Activations(s, bank.lanes, worker, activated, id)
    }

    // A message to one vertex; a flush message makes all others to its partition go first.
    method SendMsg(dest: nat, b: Body, flush: bool)
      requires Valid() && Postable(b, bank.size) && !b.activation
      modifies this`flushed, bank, bank.Foot()
      ensures Valid() && flushed == if flush then old(flushed) + {s.Part(dest)} else old(flushed)
      ensures forall id, body :: Sent(id, body) == old(Sent(id, body)) + if id == dest && body == b then 1 else 0
      ensures forall id :: Activated(id) == old(Activated(id))
    {
      IdToLocToId(s, dest);
      var q, off := s.Part(dest), s.Off(dest);
      ghost var lanes, sent := bank.lanes, bank.sent;
      if flush {
        FlushPartition(q);
        bank.Send(s.p + q, b, off);
        bank.FlushSingle(s.p + q);
      } else {
        bank.Send(q, b, off);
      }
      ghost var row := if flush then s.p + q else q;
      forall id, body ensures Sent(id, body) == Delivered(s, lanes, sent, id, body) + if id == dest && body == b then 1 else 0 {
        OneMoreSent(s, lanes, sent, dest, row, b, id, body);
        SameSent(s, lanes, bank.lanes, bank.sent, id, body);
      }
      forall id ensures Activated(id) == Activations(s, lanes, worker, activated, id) { IdToLocToId(s, id); }
    }

    method HandInAll(q: nat)
      requires Shape() && bank.State() == Sound && q < s.p
      modifies bank, bank.Foot()
      ensures Shape() && bank.State() == Sound && bank.sent == old(bank.sent)
      ensures bank.lanes == old(bank.lanes)[s.p + q := old(bank.lanes[s.p + q]).Closed()][q := old(bank.lanes[q]).Closed()]
    {
      bank.Do(s.p + q, HandIn);
      bank.Do(q, HandIn);
      bank.FlushSingle(q);
    }

    // Hands in all that waits for one partition, and so closes its activation sender.
    method FlushPartition(q: nat)
      requires Ready() && q < s.p
      modifies this`flushed, bank, bank.Foot()
      ensures Ready() && flushed == old(flushed) + {q} && bank.sent == old(bank.sent) && KeepSent(old(bank.lanes), bank.lanes)
    {
      FlushedOrder(bank.lanes, s.p, flushed, q);
      HandInAll(q);
      NoteFlushed(flushed + {q});
    }

    ghost method NoteFlushed(now: set<nat>)
      requires Shape() && bank.State() == Sound && InOrder(bank.lanes, s.p, now)
      modifies this`flushed
      ensures Ready() && flushed == now
    {
      flushed := now;
    }

    // Few destinations: one message each.
    method SendEach(ids: seq<nat>, b: Body)
      requires Valid() && Postable(b, bank.size) && !b.activation
      modifies this`flushed, bank, bank.Foot()
      ensures Valid() && flushed == old(flushed)
      ensures forall id, body :: Sent(id, body) == old(Sent(id, body)) + if body == b then Times(ids, id) else 0
      ensures forall id :: Activated(id) == old(Activated(id))
    {
      ghost var lanes, sent, done := bank.lanes, bank.sent, flushed;
      assert forall id :: Times(ids[..0], id) == 0;
      for i := 0 to |ids|
        invariant Valid() && flushed == done && EachSent(lanes, sent, ids[..i], b)
      {
        SendOneOf(lanes, sent, ids, i, b);
      }
      assert ids[..|ids|] == ids;
    }

    // Since the lanes were so, the body has been sent to the listed vertices, and nothing else.
    ghost predicate EachSent(lanes: seq<Lane>, sent: seq<seq<Pair>>, ids: seq<nat>, b: Body)
      requires Rows(s, bank.lanes, bank.sent) && Rows(s, lanes, sent)
      reads this, bank
    {
      && (forall id, body :: Sent(id, body) == Delivered(s, lanes, sent, id, body) + if body == b then Times(ids, id) else 0)
      && forall id :: Activated(id) == Activations(s, lanes, worker, activated, id)
    }

    method SendOneOf(ghost lanes: seq<Lane>, ghost sent: seq<seq<Pair>>, ids: seq<nat>, i: nat, b: Body)
      requires Valid() && Rows(s, lanes, sent) && i < |ids| && EachSent(lanes, sent, ids[..i], b) && Postable(b, bank.size) && !b.activation
      modifies this`flushed, bank, bank.Foot()
      ensures Valid() && flushed == old(flushed) && EachSent(lanes, sent, ids[..i + 1], b)
    {
      assert ids[..i + 1] == ids[..i] + [ids[i]];
      SendMsg(ids[i], b, false);
    }

    // One multicast: init, add_dests, end_multicast.  The sender is closed before and after.
    method Multicast(i: nat, b: Body, ids: seq<nat>)
      requires Shape() && bank.State() == Sound && i < s.p && !bank.lanes[i].open && Sendable(b, bank.size)
      modifies bank, bank.Foot()
      ensures Shape() && bank.State() == Sound && bank.sent == old(bank.sent)
      ensures bank.lanes == old(bank.lanes)[i := Lane(old(bank.lanes[i]).sent + ToAll(b, ids), false, EMPTY)]
    {
      bank.Do(i, Open(b));
      bank.Do(i, AddAll(ids));
      bank.Do(i, Close);
    }

    // Hands one bucket over and empties it.
    method SendBucket(i: nat, b: Body)
      requires Shape() && bank.State() == Sound && i < s.p && !bank.lanes[i].open && Sendable(b, bank.size)
      modifies vidBufs, bank, bank.Foot()
      ensures Shape() && bank.State() == Sound && bank.sent == old(bank.sent) && vidBufs[..] == old(vidBufs[..])[i := []]
      ensures |bank.lanes| == |old(bank.lanes)| && forall k :: 0 <= k < 2 * s.p ==>
        if k == i then !bank.lanes[k].open && bank.lanes[k].sent == old(bank.lanes[k]).sent + ToAll(b, old(vidBufs[i]))
        else bank.lanes[k] == old(bank.lanes[k])
    {
      var ids := vidBufs[i];
      vidBufs[i] := [];
      if ids != [] {
        Multicast(i, b, ids);
      } else {
        assert bank.lanes[i].sent + ToAll(b, ids) == bank.lanes[i].sent;
      }
    }

    // Many destinations: one multicast a partition.
    method SendBuckets(ids: seq<nat>, b: Body)
      requires Valid() && Sendable(b, bank.size)
      modifies vidBufs, bank, bank.Foot()
      ensures Valid() && bank.sent == old(bank.sent) && BucketsSent(old(bank.lanes), bank.lanes, b, Buckets(s, ids), s.p)
    {
      FillBuckets(ids);
      SendAll(Buckets(s, ids), b);
    }

    method SendAll(ghost bs: seq<seq<nat>>, b: Body)
      requires Ready() && |bs| == s.p && BufsAfter(bs, 0, vidBufs[..]) && Sendable(b, bank.size)
      modifies vidBufs, bank, bank.Foot()
      ensures Valid() && bank.sent == old(bank.sent) && BucketsSent(old(bank.lanes), bank.lanes, b, bs, s.p)
    {
      ghost var lanes := bank.lanes;
      for i := 0 to s.p
        invariant Sending(bs, b, i, lanes) && bank.sent == old(bank.sent)
      {
        SendNext(bs, b, i, lanes);
      }
      BucketsOrder(lanes, bank.lanes, b, bs, flushed);
    }

    method FillBuckets(ids: seq<nat>)
      requires Valid()
      modifies vidBufs
      ensures Ready() && BufsAfter(Buckets(s, ids), 0, vidBufs[..])
    {
      MapAll(s, ids, vidBufs);
    }

    // The first i buckets have been handed over.
    ghost predicate Sending(bs: seq<seq<nat>>, b: Body, i: nat, lanes: seq<Lane>)
      requires i <= s.p
      reads this, vidBufs, bank, bank.Foot()
    {
      && Shape() && bank.State() == Sound && |bs| == s.p && |lanes| == 2 * s.p && (forall q :: 0 <= q < s.p ==> !lanes[q].open)
      && BufsAfter(bs, i, vidBufs[..]) && BucketsSent(lanes, bank.lanes, b, bs, i)
    }

    method SendNext(ghost bs: seq<seq<nat>>, b: Body, i: nat, ghost lanes: seq<Lane>)
      requires i < s.p && Sending(bs, b, i, lanes) && Sendable(b, bank.size)
      modifies vidBufs, bank, bank.Foot()
      ensures Sending(bs, b, i + 1, lanes) && bank.sent == old(bank.sent)
    {
      BufsNext(bs, i, vidBufs[..]);
      assert vidBufs[i] == vidBufs[..][i];
      ghost var was := bank.lanes;
      SendBucket(i, b);
      SentNext(lanes, was, bank.lanes, b, bs, i);
    }

    // Whichever path is taken, every listed vertex gets the body as often as it is listed.
    method MulticastMsg(ids: seq<nat>, b: Body)
      requires Valid() && HasRoom(s, |ids|, b, bank.size) && !b.activation
      modifies this`flushed, vidBufs, bank, bank.Foot()
      ensures Valid() && flushed == old(flushed)
      ensures forall id, body :: Sent(id, body) == old(Sent(id, body)) + if body == b then Times(ids, id) else 0
      ensures forall id :: Activated(id) == old(Activated(id))
    {
      if |ids| == 0 {
        return;
      }
      if |ids| < s.p * 2 {
        SendEach(ids, b);
        return;
      }
      ghost var lanes := bank.lanes;
      SendBuckets(ids, b);
      forall id, body ensures Sent(id, body) == Delivered(s, lanes, bank.sent, id, body) + if body == b then Times(ids, id) else 0 {
        BucketsDelivered(s, lanes, bank.lanes, bank.sent, b, ids, id, body);
      }
      forall id ensures Activated(id) == Activations(s, lanes, worker, activated, id) { IdToLocToId(s, id); }
    }

    // Whether vertex v can be activated: its sender is open, or it is not needed.
    ghost predicate CanActivate(v: nat, direct: bool)
      requires Rows(s, bank.lanes, bank.sent)
      reads bank
    {
      IdToLocToId(s, v);
      (direct && s.Part(v) == worker) || bank.lanes[s.p + s.Part(v)].open
    }

    // That is so exactly if no flush message has gone to the partition since flush_msgs.
    lemma {:induction false} CanActivateIff(v: nat, direct: bool)
      requires Valid()
      ensures CanActivate(v, direct) <==> (direct && s.Part(v) == worker) || s.Part(v) !in flushed
    {
      IdToLocToId(s, v);
    }

    method AddActivation(q: nat, off: nat)
      requires Ready() && q < s.p && bank.lanes[s.p + q].open
      modifies bank, bank.Foot()
      ensures Ready() && bank.sent == old(bank.sent)
      ensures bank.lanes == old(bank.lanes)[s.p + q := WithActivations(old(bank.lanes[s.p + q]), [off])]
    {
      AddedOrder(bank.lanes, s.p, flushed, q, [off]);
      bank.Do(s.p + q, Add(off));
    }

    // Activation by location.  Given an edge list, a worker activates its own vertices
    // directly; given an array of ids, it goes through the sender for all of them.
    method ActivateOne(v: nat, direct: bool)
      requires Valid() && CanActivate(v, direct)
      modifies this`activated, bank, bank.Foot()
      ensures Valid() && flushed == old(flushed) && bank.sent == old(bank.sent)
      ensures forall q :: 0 <= q < s.p ==> bank.lanes[q] == old(bank.lanes[q])
      ensures forall id :: Activated(id) == old(Activated(id)) + if id == v then 1 else 0
    {
      IdToLocToId(s, v);
      var q, off := s.Part(v), s.Off(v);
      ghost var lanes, was := bank.lanes, activated;
      if direct && q == worker {
        activated := activated + [off];
      } else {
        AddActivation(q, off);
      }
      forall id ensures Activated(id) == Activations(s, lanes, worker, was, id) + if id == v then 1 else 0 {
        OneMoreActivated(s, lanes, bank.lanes, worker, was, activated, v, id);
      }
    }

    method ActivateEach(ids: seq<nat>, direct: bool)
      requires Valid() && forall i :: 0 <= i < |ids| ==> CanActivate(ids[i], direct)
      modifies this`activated, bank, bank.Foot()
      ensures Valid() && flushed == old(flushed) && bank.sent == old(bank.sent)
      ensures forall q :: 0 <= q < s.p ==> bank.lanes[q] == old(bank.lanes[q])
      ensures forall id :: Activated(id) == old(Activated(id)) + Times(ids, id)
    {
      assert forall id :: Times(ids[..0], id) == 0;
      forall i | 0 <= i < |ids| ensures (direct && s.Part(ids[i]) == worker) || s.Part(ids[i]) !in flushed { CanActivateIff(ids[i], direct); }
      for i := 0 to |ids|
        invariant Valid() && flushed == old(flushed) && bank.sent == old(bank.sent)
        invariant forall q :: 0 <= q < s.p ==> bank.lanes[q] == old(bank.lanes[q])
        invariant forall id :: Activated(id) == old(Activated(id)) + Times(ids[..i], id)
      {
        assert ids[..i + 1] == ids[..i] + [ids[i]];
        CanActivateIff(ids[i], direct);
        ActivateOne(ids[i], direct);
      }
      assert ids[..|ids|] == ids;
    }

    method AddActivations(i: nat, ids: seq<nat>)
      requires Shape() && bank.State() == Sound && i < s.p
      requires ids != [] ==> bank.lanes[s.p + i].open && bank.lanes[s.p + i].body == ACTIVATION
      modifies bank, bank.Foot()
      ensures Shape() && bank.State() == Sound && bank.sent == old(bank.sent)
      ensures bank.lanes == old(bank.lanes)[s.p + i := WithActivations(old(bank.lanes[s.p + i]), ids)]
    {
      if ids != [] {
        bank.Do(s.p + i, AddAll(ids));
      } else {
        assert WithActivations(bank.lanes[s.p + i], ids) == bank.lanes[s.p + i];
      }
    }

    // The worker's own bucket is activated directly.
    method OwnBucket()
      requires Shape() && bank.State() == Sound
      modifies this`activated, vidBufs
      ensures Shape() && bank.State() == Sound && vidBufs[..] == old(vidBufs[..])[worker := []]
      ensures activated == old(activated) + old(vidBufs[worker])
    {
      activated := activated + vidBufs[worker];
      vidBufs[worker] := [];
    }

    // Another bucket goes to its sender.
    method OtherBucket(i: nat)
      requires Shape() && bank.State() == Sound && i < s.p
      requires vidBufs[i] != [] ==> bank.lanes[s.p + i].open && bank.lanes[s.p + i].body == ACTIVATION
      modifies vidBufs, bank, bank.Foot()
      ensures Shape() && bank.State() == Sound && bank.sent == old(bank.sent) && vidBufs[..] == old(vidBufs[..])[i := []]
      ensures bank.lanes == old(bank.lanes)[s.p + i := WithActivations(old(bank.lanes[s.p + i]), old(vidBufs[i]))]
    {
      var ids := vidBufs[i];
      vidBufs[i] := [];
      AddActivations(i, ids);
    }

    // The buckets of the partitions that cannot be reached are empty.
    lemma {:induction false} BucketsReach(ids: seq<nat>, direct: bool)
      requires Valid() && forall i :: 0 <= i < |ids| ==> CanActivate(ids[i], direct)
      ensures Reachable(bank.lanes, Buckets(s, ids), if direct then worker else s.p)
    {
      forall q | 0 <= q < s.p && Bucket(s, ids, q) != [] && !(direct && q == worker)
        ensures bank.lanes[s.p + q].open && bank.lanes[s.p + q].body == ACTIVATION
      {
        var i := InBucket(s, ids, q);
        assert CanActivate(ids[i], direct);
      }
    }

    ghost predicate Activating(bs: seq<seq<nat>>, passed: nat, i: nat, lanes: seq<Lane>, was: seq<nat>)
      reads this, vidBufs, bank, bank.Foot()
    {
      Shape() && bank.State() == Sound && |bs| == s.p && HandedOver(bs, passed, i, lanes, bank.lanes, vidBufs[..], was, activated)
    }

    method OwnNext(ghost bs: seq<seq<nat>>, ghost lanes: seq<Lane>, ghost was: seq<nat>)
      requires worker < s.p && Activating(bs, worker, worker, lanes, was)
      modifies this`activated, vidBufs
      ensures Activating(bs, worker, worker + 1, lanes, was)
    {
      ghost var bufs, before := vidBufs[..], activated;
      assert vidBufs[worker] == bufs[worker];
      OwnBucket();
      OwnDone(lanes, bank.lanes, bs, worker, bufs, vidBufs[..], was, before);
    }

    method OtherNext(ghost bs: seq<seq<nat>>, ghost passed: nat, i: nat, ghost lanes: seq<Lane>, ghost was: seq<nat>)
      requires i < s.p && Activating(bs, passed, i, lanes, was) && i != passed && Reachable(lanes, bs, passed)
      modifies vidBufs, bank, bank.Foot()
      ensures Activating(bs, passed, i + 1, lanes, was) && bank.sent == old(bank.sent)
    {
      ghost var now, bufs := bank.lanes, vidBufs[..];
      BucketReady(lanes, now, bs, passed, i, bufs, was, activated);
      assert vidBufs[i] == bufs[i];
      OtherBucket(i);
      BucketDone(lanes, now, bank.lanes, bs, passed, i, bufs, vidBufs[..], was, activated);
    }

    method ActivateBuckets(ids: seq<nat>, direct: bool)
      requires Valid() && forall i :: 0 <= i < |ids| ==> CanActivate(ids[i], direct)
      modifies this`activated, vidBufs, bank, bank.Foot()
      ensures Valid() && flushed == old(flushed) && bank.sent == old(bank.sent)
      ensures BucketsActivated(old(bank.lanes), bank.lanes, Buckets(s, ids), if direct then worker else s.p, s.p)
      ensures activated == if direct then old(activated) + Bucket(s, ids, worker) else old(activated)
    {
      BucketsReach(ids, direct);
      FillBuckets(ids);
      ActivateAll(Buckets(s, ids), direct);
    }

    method ActivateAll(ghost bs: seq<seq<nat>>, direct: bool)
      requires Ready() && |bs| == s.p && BufsAfter(bs, 0, vidBufs[..]) && Reachable(bank.lanes, bs, if direct then worker else s.p)
      modifies this`activated, vidBufs, bank, bank.Foot()
      ensures Valid() && flushed == old(flushed) && bank.sent == old(bank.sent)
      ensures BucketsActivated(old(bank.lanes), bank.lanes, bs, if direct then worker else s.p, s.p)
      ensures activated == if direct then old(activated) + bs[worker] else old(activated)
    {
      ghost var lanes, was := bank.lanes, activated;
      ghost var passed := if direct then worker else s.p;
      for i := 0 to s.p
        invariant Activating(bs, passed, i, lanes, was) && bank.sent == old(bank.sent) && flushed == old(flushed)
      {
        if direct && i == worker {
          OwnNext(bs, lanes, was);
        } else {
          OtherNext(bs, passed, i, lanes, was);
        }
      }
      ActivatedOrder(lanes, bank.lanes, bs, passed, flushed);
    }

    // Whichever path is taken, exactly the listed vertices are activated.
    method ActivateVertices(ids: seq<nat>, direct: bool)
      requires Valid() && forall i :: 0 <= i < |ids| ==> CanActivate(ids[i], direct)
      modifies this`activated, vidBufs, bank, bank.Foot()
      ensures Valid() && flushed == old(flushed)
      ensures forall id :: Activated(id) == old(Activated(id)) + Times(ids, id)
      ensures forall id, body :: Sent(id, body) == old(Sent(id, body))
    {
      ghost var lanes, was := bank.lanes, activated;
      if |ids| == 0 {
        return;
      }
      if |ids| <= s.p * 2 {
        ActivateEach(ids, direct);
      } else {
        ActivateBuckets(ids, direct);
        forall id ensures Activated(id) == Activations(s, lanes, worker, was, id) + Times(ids, id) {
          BucketsActivate(s, lanes, bank.lanes, ids, worker, direct, was, activated, id);
        }
      }
      forall id, body ensures Sent(id, body) == Delivered(s, lanes, bank.sent, id, body) { IdToLocToId(s, id); }
    }

    // Hands in the multicasts and activations of one partition and opens the activation
    // sender again.
    method FlushRow(q: nat)
      requires Shape() && bank.State() == Sound && q < s.p
      modifies bank, bank.Foot()
      ensures Shape() && bank.State() == Sound && bank.sent == old(bank.sent)
      ensures bank.lanes == old(bank.lanes)[s.p + q := old(bank.lanes[s.p + q]).Closed()][q := old(bank.lanes[q]).Closed()]
                                           [s.p + q := old(bank.lanes[s.p + q]).Closed().Opened(ACTIVATION)]
    {
      HandInAll(q);
      bank.Do(s.p + q, Open(ACTIVATION));
    }

    // flush_msgs: everything is handed in, and all activation senders are open again.
    method FlushMsgs()
      requires Valid()
      modifies this`flushed, bank, bank.Foot()
      ensures Valid() && flushed == {}
      ensures forall id, body :: Sent(id, body) == old(Sent(id, body))
      ensures forall id :: Activated(id) == old(Activated(id))
    {
      ghost var lanes := bank.lanes;
      for q := 0 to s.p
        invariant Shape() && bank.State() == Sound && bank.sent == old(bank.sent)
        invariant KeepSent(lanes, bank.lanes) && Reopened(bank.lanes, s.p, q)
      {
        RowFlushed(lanes, bank.lanes, s.p, q);
        FlushRow(q);
      }
      NoteFlushed({});
      forall id, body ensures Sent(id, body) == Delivered(s, lanes, bank.sent, id, body) {
        SameSent(s, lanes, bank.lanes, bank.sent, id, body);
      }
      forall id ensures Activated(id) == Activations(s, lanes, worker, activated, id) { IdToLocToId(s, id); }
    }
  }

  ghost predicate Reopened(lanes: seq<Lane>, p: nat, n: nat)
    requires |lanes| == 2 * p && n <= p
  {
    && (forall k :: 0 <= k < p ==> !lanes[k].open)
    && (forall k :: p <= k < p + n ==> lanes[k].open && lanes[k].body == ACTIVATION)
  }

  lemma {:induction false} RowFlushed(before: seq<Lane>, lanes: seq<Lane>, p: nat, q: nat)
    requires |before| == |lanes| == 2 * p && q < p && KeepSent(before, lanes) && Reopened(lanes, p, q)
    ensures
      var now := lanes[p + q := lanes[p + q].Closed()][q := lanes[q].Closed()][p + q := lanes[p + q].Closed().Opened(ACTIVATION)];
      KeepSent(before, now) && Reopened(now, p, q + 1)
  {
  }

  lemma {:induction false} InBucket(s: Stripe, ids: seq<nat>, q: nat) returns (i: nat)
    requires s.Valid() && Bucket(s, ids, q) != []
    ensures i < |ids| && s.Part(ids[i]) == q
  {
    var n := |ids| - 1;
    if s.Part(ids[n]) == q {
      i := n;
    } else {
      i := InBucket(s, ids[..n], q);
    }
  }

  lemma {:induction false} ActivatedOrder(before: seq<Lane>, now: seq<Lane>, bs: seq<seq<nat>>, passed: nat, flushed: set<nat>)
    requires |before| == |now| == 2 * |bs| && InOrder(before, |bs|, flushed) && BucketsActivated(before, now, bs, passed, |bs|)
    ensures InOrder(now, |bs|, flushed)
  {
  }

  lemma {:induction false} BucketsOrder(before: seq<Lane>, now: seq<Lane>, b: Body, bs: seq<seq<nat>>, flushed: set<nat>)
    requires |before| == |now| == 2 * |bs| && InOrder(before, |bs|, flushed) && BucketsSent(before, now, b, bs, |bs|)
    ensures InOrder(now, |bs|, flushed)
  {
  }

  // ----- whole histories of calls

  datatype Call = Message(dest: nat, b: Body, flush: bool) | ToMany(ids: seq<nat>, b: Body) | Activation(ids: seq<nat>, direct: bool) | FlushAll

  // The partitions sent a flush message since the last flush_msgs, after n calls.
  function FlushedAfter(s: Stripe, calls: seq<Call>, n: nat): set<nat>
    requires s.Valid() && n <= |calls|
  {
    if n == 0 then {}
    else
      match calls[n - 1]
      case Message(dest, _, flush) => FlushedAfter(s, calls, n - 1) + if flush then {s.Part(dest)} else {}
      case FlushAll => {}
      case _ => FlushedAfter(s, calls, n - 1)
  }

  // The messages have room in a buffer, and no activation is for a partition that has been
  // sent a flush message since the last flush_msgs.
  predicate Proper(s: Stripe, worker: nat, size: nat, calls: seq<Call>)
    requires s.Valid()
  {
    forall n :: 0 <= n < |calls| ==>
      match calls[n]
      case Message(_, b, _) => Postable(b, size) && !b.activation
      case ToMany(ids, b) => HasRoom(s, |ids|, b, size) && !b.activation
      case Activation(ids, direct) =>
        forall i :: 0 <= i < |ids| ==> (direct && s.Part(ids[i]) == worker) || s.Part(ids[i]) !in FlushedAfter(s, calls, n)
      case FlushAll => true
  }

  // How often one call sends body b to vertex id, and how often it activates the vertex.
  function Sends(call: Call, id: nat, body: Body): nat {
    match call
    case Message(dest, b, _) => if id == dest && body == b then 1 else 0
    case ToMany(ids, b) => if body == b then Times(ids, id) else 0
    case _ => 0
  }

  function Activates(call: Call, id: nat): nat {
    match call
    case Activation(ids, _) => Times(ids, id)
    case _ => 0
  }

  function SentIn(calls: seq<Call>, n: nat, id: nat, body: Body): nat
    requires n <= |calls|
  {
    if n == 0 then 0 else SentIn(calls, n - 1, id, body) + Sends(calls[n - 1], id, body)
  }

  function ActivatedIn(calls: seq<Call>, n: nat, id: nat): nat
    requires n <= |calls|
  {
    if n == 0 then 0 else ActivatedIn(calls, n - 1, id) + Activates(calls[n - 1], id)
  }

  method MakeCall(v: VertexProgram, call: Call)
    requires v.Valid()
    requires call.Message? ==> Postable(call.b, v.bank.size) && !call.b.activation
    requires call.ToMany? ==> HasRoom(v.s, |call.ids|, call.b, v.bank.size) && !call.b.activation
    requires call.Activation? ==> forall i :: 0 <= i < |call.ids| ==> (call.direct && v.s.Part(call.ids[i]) == v.worker) || v.s.Part(call.ids[i]) !in v.flushed
    modifies v`flushed, v`activated, v.vidBufs, v.bank, v.bank.Foot()
    ensures v.Valid()
    ensures v.flushed ==
      match call
      case Message(dest, _, flush) => old(v.flushed) + (if flush then {v.s.Part(dest)} else {})
      case FlushAll => {}
      case _ => old(v.flushed)
    ensures forall id, body :: v.Sent(id, body) == old(v.Sent(id, body)) + Sends(call, id, body)
    ensures forall id :: v.Activated(id) == old(v.Activated(id)) + Activates(call, id)
  {
    match call
    case Message(dest, b, flush) => v.SendMsg(dest, b, flush);
    case ToMany(ids, b) => v.MulticastMsg(ids, b);
    case Activation(ids, direct) =>
      forall i | 0 <= i < |ids| ensures v.CanActivate(ids[i], direct) { v.CanActivateIff(ids[i], direct); }
      v.ActivateVertices(ids, direct);
    case FlushAll => v.FlushMsgs();
  }

  // After any history, every vertex has been sent each body, and activated, as often as the
  // calls say, and can be activated exactly if no flush message has gone to its partition since
  // the last flush_msgs (or if the worker activates it directly).
  method Calls(v: VertexProgram, calls: seq<Call>)
    requires v.Valid() && v.flushed == {} && Proper(v.s, v.worker, v.bank.size, calls)
    modifies v`flushed, v`activated, v.vidBufs, v.bank, v.bank.Foot()
    ensures v.Valid() && v.flushed == FlushedAfter(v.s, calls, |calls|)
    ensures forall id, body :: v.Sent(id, body) == old(v.Sent(id, body)) + SentIn(calls, |calls|, id, body)
    ensures forall id :: v.Activated(id) == old(v.Activated(id)) + ActivatedIn(calls, |calls|, id)
    ensures forall x, direct :: v.CanActivate(x, direct) <==> (direct && v.s.Part(x) == v.worker) || v.s.Part(x) !in FlushedAfter(v.s, calls, |calls|)
  {
    for n := 0 to |calls|
      invariant v.Valid() && v.flushed == FlushedAfter(v.s, calls, n)
      invariant forall id, body :: v.Sent(id, body) == old(v.Sent(id, body)) + SentIn(calls, n, id, body)
      invariant forall id :: v.Activated(id) == old(v.Activated(id)) + ActivatedIn(calls, n, id)
    {
      MakeCall(v, calls[n]);
    }
    forall x, direct ensures v.CanActivate(x, direct) <==> (direct && v.s.Part(x) == v.worker) || v.s.Part(x) !in v.flushed {
      v.CanActivateIff(x, direct);
    }
  }

  // A flush message and then an activation, not direct, in the same partition: its sender is
  // closed.
  method FlushThenActivate(s: Stripe, worker: nat, size: nat, dest: nat, b: Body, x: nat) returns (v: VertexProgram)
    requires s.Valid() && worker < s.p && size > HEADER && Postable(b, size) && !b.activation && s.Part(x) == s.Part(dest)
    ensures v.Valid() && !v.CanActivate(x, false) && v.Sent(dest, b) == 1
  {
    v := VertexProgram.Create(s, worker, size);
    v.SendMsg(dest, b, true);
    v.CanActivateIff(x, false);
  }
}
