/**
 The processing of one message buffer by the owner of its destinations.  The code looks
 at the first message of a batch to decide how to treat the whole batch.
 */
module MessageDispatch {
  import opened MessagePacking
  import opened MessageSenders

  const VMSG_BUF_SIZE: nat := 128

  // What processing does: vertices run on messages, messages put aside because their
  // vertex is stolen, vertices activated for the next level.
  datatype Effect = Effect(run: seq<Pair>, kept: seq<Pair>, activated: set<nat>)

  const NOTHING: Effect := Effect([], [], {})

  function Then(e: Effect, f: Effect): Effect {
    Effect(e.run + f.run, e.kept + f.kept, e.activated + f.activated)
  }

  predicate MustWait(p: Pair, check: bool, stolen: set<nat>) {
    check && p.dest in stolen
  }

  // What one pair deserves, whatever kind of packet it came in.
  function EffectOf(p: Pair, check: bool, stolen: set<nat>): Effect {
    var on := if p.body.activate then {p.dest} else {};
    if p.body.activation then Effect([], [], on)
    else if MustWait(p, check, stolen) then Effect([], [p], on)
    else Effect([p], [], on)
  }

  function Effects(ps: seq<Pair>, check: bool, stolen: set<nat>): Effect {
    if ps == [] then NOTHING
    else Then(Effects(ps[..|ps| - 1], check, stolen), EffectOf(ps[|ps| - 1], check, stolen))
  }

  lemma {:induction false} ThenAssoc(e: Effect, f: Effect, g: Effect)
    ensures Then(Then(e, f), g) == Then(e, Then(f, g)) && Then(e, NOTHING) == e && Then(NOTHING, e) == e
  {
    assert (e.run + f.run) + g.run == e.run + (f.run + g.run);
    assert (e.kept + f.kept) + g.kept == e.kept + (f.kept + g.kept);
    assert e.run + [] == e.run && e.kept + [] == e.kept && [] + e.run == e.run && [] + e.kept == e.kept;
  }

  lemma {:induction false} EffectsAppend(a: seq<Pair>, b: seq<Pair>, check: bool, stolen: set<nat>)
    ensures Effects(a + b, check, stolen) == Then(Effects(a, check, stolen), Effects(b, check, stolen))
  {
    if b == [] {
      assert a + b == a;
      ThenAssoc(Effects(a, check, stolen), NOTHING, NOTHING);
    } else {
      var n := |b| - 1;
      assert (a + b)[..|a + b| - 1] == a + b[..n];
      EffectsAppend(a, b[..n], check, stolen);
      ThenAssoc(Effects(a, check, stolen), Effects(b[..n], check, stolen), EffectOf(b[n], check, stolen));
    }
  }

  lemma {:induction false} EffectsSnoc(a: seq<Pair>, p: Pair, check: bool, stolen: set<nat>)
    ensures Effects(a + [p], check, stolen) == Then(Effects(a, check, stolen), EffectOf(p, check, stolen))
  {
    assert (a + [p])[..|a|] == a;
  }

  // Every pair of a message is run or put aside, exactly as often as it occurs.
  lemma {:induction false} RunOrKept(ps: seq<Pair>, check: bool, stolen: set<nat>, p: Pair)
    ensures
      var e := Effects(ps, check, stolen);
      multiset(e.run)[p] + multiset(e.kept)[p] == if p.body.activation then 0 else multiset(ps)[p]
    ensures p in Effects(ps, check, stolen).kept ==> MustWait(p, check, stolen)
    ensures p in Effects(ps, check, stolen).run ==> !MustWait(p, check, stolen)
  {
    if ps != [] {
      var n := |ps| - 1;
      RunOrKept(ps[..n], check, stolen, p);
      TimesLast(ps, p);
      OneMore(Effects(ps[..n], check, stolen), ps[n], check, stolen, p);
    }
  }

  lemma {:induction false} TimesLast(ps: seq<Pair>, p: Pair)
    requires ps != []
    ensures multiset(ps)[p] == multiset(ps[..|ps| - 1])[p] + if ps[|ps| - 1] == p then 1 else 0
  {
    assert ps == ps[..|ps| - 1] + [ps[|ps| - 1]];
  }

  lemma {:induction false} OneMore(e: Effect, q: Pair, check: bool, stolen: set<nat>, p: Pair)
    ensures
      var f := Then(e, EffectOf(q, check, stolen));
      && multiset(f.run)[p] + multiset(f.kept)[p] ==
         multiset(e.run)[p] + multiset(e.kept)[p] + (if q == p && !p.body.activation then 1 else 0)
      && (p in f.kept ==> p in e.kept || MustWait(p, check, stolen))
      && (p in f.run ==> p in e.run || !MustWait(p, check, stolen))
  {
  }

  // Buffers hold messages of one kind; only multicasts are the system's activations.
  predicate Homogeneous(ps: seq<Packet>) {
    AllMulticast(ps) || AllSingle(ps)
  }

  // A packet read from its bytes as a point-to-point message, without a look at the flag
  // that tells what it is.
  function ReadAsSingle(p: Packet): Pair {
    var cells := Encode(p);
    assert cells[0..|cells|] == cells;
    HeaderAt(p, cells, 0);
    var q := SingleAt(cells, 0);
    Pair(q.body, q.dest)
  }

  // The destinations of a multicast become part of the body, their number the destination.
  function Misread(p: Packet): Pair {
    match p
    case Single(b, dest) => Pair(b, dest)
    case Multicast(b, dests) => Pair(b.(words := b.words + dests), |dests|)
  }

  lemma {:induction false} ReadingOf(p: Packet)
    ensures ReadAsSingle(p) == Misread(p)
  {
    var cells := Encode(p);
    assert cells[0..|cells|] == cells;
    match p
    case Single(b, dest) => RoundTripSingle(b, dest, cells, 0);
    case Multicast(b, dests) => MulticastAsSingle(b, dests, cells, 0);
  }

  // What is done with a message read so.
  function SingleEffect(p: Pair, check: bool, stolen: set<nat>): Effect {
    Effect(if MustWait(p, check, stolen) then [] else [p], if MustWait(p, check, stolen) then [p] else [],
           if p.body.activate then {p.dest} else {})
  }

  // The first n packets of a batch, all read so.
  function AsSingles(v: seq<Packet>, n: nat, check: bool, stolen: set<nat>): Effect
    requires n <= |v|
  {
    if n == 0 then NOTHING else Then(AsSingles(v, n - 1, check, stolen), SingleEffect(ReadAsSingle(v[n - 1]), check, stolen))
  }

  // A batch whose first message is point-to-point: the loops look at no other flag.
  method ProcessSingles(v: seq<Packet>, check: bool, stolen: set<nat>) returns (e: Effect)
    ensures e == AsSingles(v, |v|, check, stolen)
  {
    e := NOTHING;
    for i := 0 to |v|
      invariant e == AsSingles(v, i, check, stolen)
    {
      var p := ReadAsSingle(v[i]);
      var f := NOTHING;
      if check && p.dest in stolen {
        f := f.(kept := [p]);
      } else {
        f := f.(run := [p]);
      }
      if p.body.activate {
        f := f.(activated := {p.dest});
      }
      e := Then(e, f);
    }
  }

  // For point-to-point messages that is right.
  lemma {:induction false} SinglesRight(v: seq<Packet>, n: nat, check: bool, stolen: set<nat>)
    requires AllSingle(v) && n <= |v|
    ensures AsSingles(v, n, check, stolen) == Effects(Pairs(v[..n]), check, stolen)
  {
    if n > 0 {
      SinglesRight(v, n - 1, check, stolen);
      SingleMore(v[..n - 1], v[n - 1], check, stolen);
      Snoc(v, n);
    }
  }

  lemma {:induction false} SingleMore(front: seq<Packet>, p: Packet, check: bool, stolen: set<nat>)
    requires p.Single? && !p.body.activation
    ensures Effects(Pairs(front + [p]), check, stolen) == Then(Effects(Pairs(front), check, stolen), SingleEffect(ReadAsSingle(p), check, stolen))
  {
    ReadingOf(p);
    PairsMore(front, p);
    EffectsSnoc(Pairs(front), Pair(p.body, p.dest), check, stolen);
  }

  // The messages run and put aside.
  function Handled(e: Effect): multiset<Pair> {
    multiset(e.run) + multiset(e.kept)
  }

  // The length of the message a multicast is read as.
  function ReadLength(p: Packet): nat {
    |p.body.words| + if p.Multicast? then |p.dests| else 0
  }

  predicate NoMulticast(v: seq<Packet>) {
    forall i :: 0 <= i < |v| ==> v[i].Single?
  }

  // The messages handled are those sent if and only if the batch holds no multicast: the
  // longest multicast is read as a message longer than any that a multicast of the batch sends.
  lemma {:induction false} SinglesRightIff(v: seq<Packet>, check: bool, stolen: set<nat>)
    ensures Handled(AsSingles(v, |v|, check, stolen)) == multiset(Pairs(v)) <==> NoMulticast(v)
    ensures AllSingle(v) ==> AsSingles(v, |v|, check, stolen) == Effects(Pairs(v), check, stolen)
  {
    assert v[..|v|] == v;
    HandledReads(v, |v|, check, stolen);
    if NoMulticast(v) {
      AllRead(v);
    } else {
      var i := LongestMulticast(v);
      MoreRead(v, i, Misread(v[i]));
    }
    if AllSingle(v) { SinglesRight(v, |v|, check, stolen); }
  }

  // The messages a batch is read as.
  function Misreads(v: seq<Packet>): (r: seq<Pair>)
    ensures |r| == |v| && forall i :: 0 <= i < |v| ==> r[i] == Misread(v[i])
  {
    seq(|v|, i requires 0 <= i < |v| => Misread(v[i]))
  }

  lemma {:induction false} HandledReads(v: seq<Packet>, n: nat, check: bool, stolen: set<nat>)
    requires n <= |v|
    ensures Handled(AsSingles(v, n, check, stolen)) == multiset(Misreads(v[..n]))
  {
    if n > 0 {
      HandledReads(v, n - 1, check, stolen);
      ReadingOf(v[n - 1]);
      Snoc(v, n);
      MisreadsMore(v[..n - 1], v[n - 1]);
      HandledMore(AsSingles(v, n - 1, check, stolen), Misread(v[n - 1]), check, stolen);
    }
  }

  lemma {:induction false} MisreadsMore(front: seq<Packet>, p: Packet)
    ensures multiset(Misreads(front + [p])) == multiset(Misreads(front)) + multiset{Misread(p)}
  {
    assert Misreads(front + [p]) == Misreads(front) + [Misread(p)];
  }

  lemma {:induction false} HandledMore(e: Effect, p: Pair, check: bool, stolen: set<nat>)
    ensures Handled(Then(e, SingleEffect(p, check, stolen))) == Handled(e) + multiset{p}
  {
  }

  lemma {:induction false} AllRead(v: seq<Packet>)
    requires NoMulticast(v)
    ensures Misreads(v) == Pairs(v)
  {
    if v != [] {
      var front, p := v[..|v| - 1], v[|v| - 1];
      AllRead(front);
      assert v == front + [p] && Misreads(v) == Misreads(front) + [Misread(p)];
    }
  }

  lemma {:induction false} LongestMulticast(v: seq<Packet>) returns (i: nat)
    requires exists k :: 0 <= k < |v| && v[k].Multicast?
    ensures i < |v| && v[i].Multicast? && forall k :: 0 <= k < |v| && v[k].Multicast? ==> ReadLength(v[k]) <= ReadLength(v[i])
  {
    var n := |v| - 1;
    if exists k :: 0 <= k < n && v[k].Multicast? {
      var j: nat :| j < n && v[j].Multicast?;
      assert v[..n][j].Multicast?;
      i := LongestMulticast(v[..n]);
      assert forall k :: 0 <= k < n ==> v[..n][k] == v[k];
      if v[n].Multicast? && ReadLength(v[n]) > ReadLength(v[i]) { i := n; }
    } else {
      i := n;
    }
  }

  // How much more often q is read than it was sent.
  function Surplus(v: seq<Packet>, q: Pair): int {
    var read: int, sent: int := multiset(Misreads(v))[q], multiset(Pairs(v))[q];
    read - sent
  }

  // No multicast of the batch sends so long a message, so those read are more than those sent.
  lemma {:induction false} MoreRead(v: seq<Packet>, i: nat, q: Pair)
    requires forall k :: 0 <= k < |v| && v[k].Multicast? ==> ReadLength(v[k]) <= |q.body.words|
    requires i < |v| ==> v[i].Multicast? && Misread(v[i]) == q
    ensures Surplus(v, q) >= if i < |v| then 1 else 0
  {
    if v == [] {
      NothingRead(q);
    } else {
      var front, p := v[..|v| - 1], v[|v| - 1];
      MoreRead(front, i, q);
      OneRead(v, front, p, q);
    }
  }

  lemma {:induction false} NothingRead(q: Pair)
    ensures Surplus([], q) == 0
  {
    assert Misreads([]) == [];
  }

  lemma {:induction false} OneRead(v: seq<Packet>, front: seq<Packet>, p: Packet, q: Pair)
    requires v == front + [p] && (p.Multicast? ==> ReadLength(p) <= |q.body.words|)
    ensures Surplus(v, q) == Surplus(front, q) + if p.Multicast? && Misread(p) == q then 1 else 0
  {
    MisreadsMore(front, p);
    PairsMore(front, p);
    PairsCount(Pairs(front), PairsOf(p), q);
    if p.Multicast? { NotToAll(p.body, p.dests, q); }
  }

  lemma {:induction false} PairsCount(a: seq<Pair>, b: seq<Pair>, q: Pair)
    ensures multiset(a + b)[q] == multiset(a)[q] + multiset(b)[q]
  {
  }

  // A message with a body as long as the body and the destinations together is not among
  // those sent.
  lemma {:induction false} NotToAll(b: Body, dests: seq<nat>, q: Pair)
    requires |q.body.words| >= |b.words| + |dests|
    ensures q !in ToAll(b, dests) && multiset(ToAll(b, dests))[q] == 0
  {
    forall i | 0 <= i < |dests| ensures ToAll(b, dests)[i] != q {
      assert |q.body.words| > |b.words|;
    }
  }

  // The shortest batch with a multicast after a point-to-point message.
  lemma {:induction false} MixedBatchGoesWrong(first: Packet, b: Body, dests: seq<nat>, check: bool, stolen: set<nat>)
    requires first.Single?
    ensures
      var v := [first, Multicast(b, dests)];
      Handled(AsSingles(v, 2, check, stolen)) != multiset(Pairs(v))
  {
    var v := [first, Multicast(b, dests)];
    SinglesRightIff(v, check, stolen);
    assert v[1].Multicast?;
  }

  function Elements(dests: seq<nat>): set<nat> {
    set d | d in dests
  }

  // A multicast treated as a whole, without looking at the destinations one by one.
  function Whole(b: Body, dests: seq<nat>): Effect {
    Effect(if b.activation then [] else ToAll(b, dests), [], if b.activate then Elements(dests) else {})
  }

  lemma {:induction false} WholeMore(b: Body, dests: seq<nat>, d: nat, check: bool, stolen: set<nat>)
    requires b.activation || !check
    ensures Whole(b, dests + [d]) == Then(Whole(b, dests), EffectOf(Pair(b, d), check, stolen))
  {
    ToAllMore(b, dests, [d]);
    assert ToAll(b, [d]) == [Pair(b, d)];
    assert Elements(dests + [d]) == Elements(dests) + {d};
  }

  lemma {:induction false} NoneActivated(b: Body, check: bool, stolen: set<nat>)
    ensures Effects(ToAll(b, []), check, stolen) == Whole(b, [])
  {
    assert ToAll(b, []) == [];
    assert Elements([]) == {};
  }

  lemma {:induction false} Snoc<T>(s: seq<T>, n: nat)
    requires 0 < n <= |s|
    ensures s[..n] == s[..n - 1] + [s[n - 1]]
  {
  }

  lemma {:induction false} AllActivated(b: Body, dests: seq<nat>, n: nat, check: bool, stolen: set<nat>)
    requires (b.activation || !check) && n <= |dests|
    ensures Effects(ToAll(b, dests[..n]), check, stolen) == Whole(b, dests[..n])
  {
    if n == 0 {
      NoneActivated(b, check, stolen);
      assert dests[..n] == [];
    } else {
      AllActivated(b, dests, n - 1, check, stolen);
      AllActivatedMore(b, dests[..n - 1], dests[n - 1], check, stolen);
      Snoc(dests, n);
    }
  }

  lemma {:induction false} AllActivatedMore(b: Body, rest: seq<nat>, d: nat, check: bool, stolen: set<nat>)
    requires b.activation || !check
    requires Effects(ToAll(b, rest), check, stolen) == Whole(b, rest)
    ensures Effects(ToAll(b, rest + [d]), check, stolen) == Whole(b, rest + [d])
  {
    ToAllMore(b, rest, [d]);
    assert ToAll(b, [d]) == [Pair(b, d)];
    EffectsSnoc(ToAll(b, rest), Pair(b, d), check, stolen);
    WholeMore(b, rest, d, check, stolen);
  }

  method ProcessMulticast(p: Packet, check: bool, stolen: set<nat>) returns (e: Effect)
    requires p.Multicast?
    ensures e == Effects(PairsOf(p), check, stolen)
  {
    var b, dests := p.body, p.dests;
    if b.activation || !check {
      AllActivated(b, dests, |dests|, check, stolen);
      assert dests[..|dests|] == dests;
      return Whole(b, dests);
    }
    e := NOTHING;
    for i := 0 to |dests|
      invariant e == Effects(ToAll(b, dests[..i]), check, stolen)
    {
      assert dests[..i + 1] == dests[..i] + [dests[i]];
      ToAllMore(b, dests[..i], [dests[i]]);
      var q := Pair(b, dests[i]);
      assert ToAll(b, [dests[i]]) == [q];
      EffectsSnoc(ToAll(b, dests[..i]), q, check, stolen);
      var f := NOTHING;
      if check && dests[i] in stolen {
        f := f.(kept := [q]);
      } else {
        f := f.(run := [q]);
      }
      if b.activate {
        f := f.(activated := {dests[i]});
      }
      e := Then(e, f);
    }
    assert dests[..|dests|] == dests;
  }

  method ProcessBatch(v: seq<Packet>, check: bool, stolen: set<nat>) returns (e: Effect)
    requires v != [] && Homogeneous(v)
    ensures e == Effects(Pairs(v), check, stolen)
  {
    if v[0].Single? {
      e := ProcessSingles(v, check, stolen);
      SinglesRight(v, |v|, check, stolen);
      assert v[..|v|] == v;
      return;
    }
    e := NOTHING;
    for i := 0 to |v|
      invariant e == Effects(Pairs(v[..i]), check, stolen)
    {
      Snoc(v, i + 1);
      PacketMore(v[..i], v[i], check, stolen);
      var f := ProcessMulticast(v[i], check, stolen);
      e := Then(e, f);
    }
    assert v[..|v|] == v;
  }

  lemma {:induction false} PacketMore(front: seq<Packet>, p: Packet, check: bool, stolen: set<nat>)
    ensures Effects(Pairs(front + [p]), check, stolen) == Then(Effects(Pairs(front), check, stolen), Effects(PairsOf(p), check, stolen))
  {
    PairsMore(front, p);
    EffectsAppend(Pairs(front), PairsOf(p), check, stolen);
  }

  lemma {:induction false} PairsAppend(a: seq<Packet>, b: seq<Packet>)
    ensures Pairs(a + b) == Pairs(a) + Pairs(b)
  {
    if b == [] {
      assert a + b == a;
    } else {
      var front, last := b[..|b| - 1], b[|b| - 1];
      PairsAppend(a, front);
      PairsMore(a + front, last);
      PairsMore(front, last);
      Snoc(b, |b|);
      assert b[..|b|] == b;
      Moved(a, front, [last]);
      Moved(Pairs(a), Pairs(front), PairsOf(last));
    }
  }

  // Processing a buffer batch by batch, as the code does, treats every pair as it
  // deserves, given that the buffer is homogeneous.
  method ProcessMsg(msg: Message, check: bool, stolen: set<nat>) returns (e: Effect)
    requires msg.Valid() && Homogeneous(msg.packets)
    modifies msg
    ensures e == Effects(Pairs(old(msg.packets)), check, stolen) && msg.packets == []
  {
    e := NOTHING;
    ghost var all, done: seq<Packet> := msg.packets, [];
    while msg.numObjs != 0
      invariant msg.Valid() && Homogeneous(msg.packets) && all == done + msg.packets && Processed(done, check, stolen, e)
      decreases msg.numObjs
    {
      e, done := ProcessSome(msg, check, stolen, all, done, e);
    }
    assert done + [] == done;
  }

  ghost predicate Processed(done: seq<Packet>, check: bool, stolen: set<nat>, e: Effect) {
    e == Effects(Pairs(done), check, stolen)
  }

  method ProcessSome(msg: Message, check: bool, stolen: set<nat>, ghost all: seq<Packet>, ghost done: seq<Packet>, before: Effect)
    returns (e: Effect, ghost more: seq<Packet>)
    requires msg.Valid() && msg.numObjs > 0 && Homogeneous(msg.packets) && all == done + msg.packets && Processed(done, check, stolen, before)
    modifies msg
    ensures msg.Valid() && Homogeneous(msg.packets) && all == more + msg.packets && Processed(more, check, stolen, e)
    ensures msg.numObjs < old(msg.numObjs)
  {
    ghost var rest := msg.packets;
    var v := msg.GetNext(VMSG_BUF_SIZE);
    BatchHomogeneous(rest, v, msg.packets);
    Moved(done, v, msg.packets);
    e := ProcessNext(v, check, stolen, done, before);
    more := done + v;
  }

  // One batch more.
  method ProcessNext(v: seq<Packet>, check: bool, stolen: set<nat>, ghost done: seq<Packet>, before: Effect) returns (e: Effect)
    requires v != [] && Homogeneous(v) && Processed(done, check, stolen, before)
    ensures Processed(done + v, check, stolen, e)
  {
    var f := ProcessBatch(v, check, stolen);
    PairsAppend(done, v);
    EffectsAppend(Pairs(done), Pairs(v), check, stolen);
    e := Then(before, f);
  }

  lemma {:induction false} Moved<T>(a: seq<T>, b: seq<T>, c: seq<T>)
    ensures a + (b + c) == (a + b) + c
  {
  }

  lemma {:induction false} BatchHomogeneous(all: seq<Packet>, v: seq<Packet>, rest: seq<Packet>)
    requires Homogeneous(all) && all == v + rest
    ensures Homogeneous(v) && Homogeneous(rest)
  {
    assert forall i :: 0 <= i < |v| ==> v[i] == all[i];
    assert forall i :: 0 <= i < |rest| ==> rest[i] == all[|v| + i];
  }

  // A multicast to a stolen vertex is put aside as a point-to-point message with the
  // same body: the bytes of the body with a new header.
  function Converted(cells: seq<Cell>, off: nat, bodySize: nat, dest: nat): seq<Cell>
    requires off + HEADER <= |cells| && HEADER <= bodySize && off + bodySize <= |cells| && cells[off].Head?
  {
    [Head(false, cells[off].activate, false, bodySize), Data(dest)] + cells[off + HEADER..off + bodySize]
  }

  lemma {:induction false} ConversionKeepsBody(b: Body, dests: seq<nat>, dest: nat)
    requires !b.activation
    ensures Converted(Encode(Multicast(b, dests)), 0, HEADER + |b.words|, dest) == Encode(Single(b, dest))
  {
    var e := Encode(Multicast(b, dests));
    assert e[HEADER..HEADER + |b.words|] == Cells(b.words);
  }

  // ----- a receiver's queue

  ghost predicate OneKind(queue: seq<Sealed>) {
    SinglesOnly(queue) || MulticastsOnly(queue)
  }

  // The buffers in r come from the queues, in the order of each, in whatever order the
  // senders flushed.
  ghost predicate Interleaved(r: seq<Sealed>, queues: seq<seq<Sealed>>)
    decreases |r|
  {
    if r == [] then forall k :: 0 <= k < |queues| ==> queues[k] == []
    else exists k: nat :: k < |queues| && TakesLast(r, queues[k]) && Interleaved(r[..|r| - 1], Without(queues, k))
  }

  predicate TakesLast(r: seq<Sealed>, queue: seq<Sealed>) {
    r != [] && queue != [] && queue[|queue| - 1] == r[|r| - 1]
  }

  function Without(queues: seq<seq<Sealed>>, k: nat): seq<seq<Sealed>>
    requires k < |queues|
  {
    queues[k := if queues[k] == [] then [] else queues[k][..|queues[k]| - 1]]
  }

  // How often p is in the buffers of a queue.
  function QueueTimes(queue: seq<Sealed>, p: Pair): nat {
    if queue == [] then 0
    else QueueTimes(queue[..|queue| - 1], p) + multiset(Pairs(queue[|queue| - 1].Packets()))[p]
  }

  lemma {:induction false} QueueTimesIs(queue: seq<Sealed>, p: Pair)
    ensures QueueTimes(queue, p) == multiset(QueuePairs(queue))[p]
  {
    if queue != [] { QueueTimesIs(queue[..|queue| - 1], p); }
  }

  function Total(counts: seq<nat>): nat {
    if counts == [] then 0 else Total(counts[..|counts| - 1]) + counts[|counts| - 1]
  }

  lemma {:induction false} TotalUpdate(counts: seq<nat>, k: nat, x: nat)
    requires k < |counts|
    ensures Total(counts[k := x]) + counts[k] == Total(counts) + x
  {
    var n := |counts| - 1;
    if k < n {
      TotalUpdate(counts[..n], k, x);
      assert counts[k := x][..n] == counts[..n][k := x];
    } else {
      assert counts[k := x][..n] == counts[..n];
    }
  }

  lemma {:induction false} TotalZero(counts: seq<nat>)
    requires forall i :: 0 <= i < |counts| ==> counts[i] == 0
    ensures Total(counts) == 0
  {
    if counts != [] { TotalZero(counts[..|counts| - 1]); }
  }

  function Counts(queues: seq<seq<Sealed>>, p: Pair): (r: seq<nat>)
    ensures |r| == |queues| && forall i :: 0 <= i < |queues| ==> r[i] == QueueTimes(queues[i], p)
  {
    seq(|queues|, i requires 0 <= i < |queues| => QueueTimes(queues[i], p))
  }

  // How often p is in all queues together.
  function QueuedTimes(queues: seq<seq<Sealed>>, p: Pair): nat {
    Total(Counts(queues, p))
  }

  lemma {:induction false} CountsWithout(queues: seq<seq<Sealed>>, k: nat, p: Pair)
    requires k < |queues| && queues[k] != []
    ensures Counts(Without(queues, k), p) == Counts(queues, p)[k := QueueTimes(queues[k][..|queues[k]| - 1], p)]
  {
    var q, front := Without(queues, k), queues[k][..|queues[k]| - 1];
    assert q[k] == front && forall i :: 0 <= i < |queues| && i != k ==> q[i] == queues[i];
    SameCounts(Counts(q, p), Counts(queues, p)[k := QueueTimes(front, p)]);
  }

  lemma {:induction false} SameCounts(a: seq<nat>, b: seq<nat>)
    requires |a| == |b| && forall i :: 0 <= i < |a| ==> a[i] == b[i]
    ensures a == b
  {
  }

  // The receiver finds every pair as often as the senders have put it into their buffers.
  lemma {:induction false} InterleavedTimes(r: seq<Sealed>, queues: seq<seq<Sealed>>, p: Pair)
    requires Interleaved(r, queues)
    ensures QueueTimes(r, p) == QueuedTimes(queues, p)
    decreases |r|
  {
    if r == [] {
      assert forall i :: 0 <= i < |queues| ==> Counts(queues, p)[i] == QueueTimes([], p);
      TotalZero(Counts(queues, p));
    } else {
      var k: nat :| k < |queues| && TakesLast(r, queues[k]) && Interleaved(r[..|r| - 1], Without(queues, k));
      InterleavedTimes(r[..|r| - 1], Without(queues, k), p);
      CountsWithout(queues, k, p);
      TotalUpdate(Counts(queues, p), k, QueueTimes(queues[k][..|queues[k]| - 1], p));
    }
  }

  lemma {:induction false} OneKindFront(queue: seq<Sealed>)
    requires OneKind(queue) && queue != []
    ensures OneKind(queue[..|queue| - 1]) && queue[|queue| - 1].Whole() && Homogeneous(queue[|queue| - 1].Packets())
  {
    var front := queue[..|queue| - 1];
    assert forall i :: 0 <= i < |front| ==> front[i] == queue[i];
    assert SinglesOnly(queue) ==> SingleBuffer(queue[|queue| - 1]);
    assert MulticastsOnly(queue) ==> MulticastBuffer(queue[|queue| - 1]);
  }

  // Senders each keep to one kind of messages, so whatever the receiver's queue looks like,
  // each of its buffers is homogeneous.
  lemma {:induction false} InterleavedHomogeneous(r: seq<Sealed>, queues: seq<seq<Sealed>>, i: nat)
    requires Interleaved(r, queues) && (forall k :: 0 <= k < |queues| ==> OneKind(queues[k])) && i < |r|
    ensures Readable(r[i])
    decreases |r|
  {
    var k: nat :| k < |queues| && TakesLast(r, queues[k]) && Interleaved(r[..|r| - 1], Without(queues, k));
    OneKindFront(queues[k]);
    if i < |r| - 1 {
      InterleavedHomogeneous(r[..|r| - 1], Without(queues, k), i);
    }
  }

  // The receiver takes buffer after buffer from its queue, which any number of senders and
  // the buffer of messages put aside have filled: every pair gets what it deserves.
  method ProcessQueue(r: seq<Sealed>, ghost queues: seq<seq<Sealed>>, check: bool, stolen: set<nat>) returns (e: Effect)
    requires Interleaved(r, queues) && forall k :: 0 <= k < |queues| ==> OneKind(queues[k])
    ensures e == Effects(QueuePairs(r), check, stolen)
  {
    forall i | 0 <= i < |r| ensures Readable(r[i]) { InterleavedHomogeneous(r, queues, i); }
    e := ProcessBuffers(r, check, stolen);
  }

  ghost predicate Readable(s: Sealed) {
    s.Whole() && Homogeneous(s.Packets())
  }

  method ProcessBuffers(r: seq<Sealed>, check: bool, stolen: set<nat>) returns (e: Effect)
    requires forall i :: 0 <= i < |r| ==> Readable(r[i])
    ensures QueueDone(r, check, stolen, e)
  {
    e := NOTHING;
    for i := 0 to |r|
      invariant QueueDone(r[..i], check, stolen, e)
    {
      var f := ProcessSealed(r[i], check, stolen);
      QueueDoneMore(r[..i], r[i], check, stolen, e, f);
      Snoc(r, i + 1);
      e := Then(e, f);
    }
    assert r[..|r|] == r;
  }

  ghost predicate QueueDone(queue: seq<Sealed>, check: bool, stolen: set<nat>, e: Effect) {
    e == Effects(QueuePairs(queue), check, stolen)
  }

  lemma {:induction false} QueueDoneMore(queue: seq<Sealed>, s: Sealed, check: bool, stolen: set<nat>, e: Effect, f: Effect)
    requires QueueDone(queue, check, stolen, e) && f == Effects(Pairs(s.Packets()), check, stolen)
    ensures QueueDone(queue + [s], check, stolen, Then(e, f))
  {
    QueueMore(queue, s);
    EffectsAppend(QueuePairs(queue), Pairs(s.Packets()), check, stolen);
  }

  method ProcessSealed(s: Sealed, check: bool, stolen: set<nat>) returns (e: Effect)
    requires Readable(s)
    ensures e == Effects(Pairs(s.Packets()), check, stolen)
  {
    var msg := new Message.Open(s, s.Packets());
    e := ProcessMsg(msg, check, stolen);
  }

  // So every pair put into a sender's buffer is run or put aside exactly as often, and put
  // aside only because its vertex is stolen.
  lemma {:induction false} EachQueuedOnce(r: seq<Sealed>, queues: seq<seq<Sealed>>, check: bool, stolen: set<nat>, p: Pair)
    requires Interleaved(r, queues)
    ensures
      var e := Effects(QueuePairs(r), check, stolen);
      && multiset(e.run)[p] + multiset(e.kept)[p] == (if p.body.activation then 0 else QueuedTimes(queues, p))
      && (p in e.kept ==> MustWait(p, check, stolen)) && (p in e.run ==> !MustWait(p, check, stolen))
  {
    InterleavedTimes(r, queues, p);
    QueueTimesIs(r, p);
    RunOrKept(QueuePairs(r), check, stolen, p);
  }
}
