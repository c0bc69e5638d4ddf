/**
 The two kinds of senders.  Whatever buffers overflow and whatever multicasts come out
 empty, a reader of the buffers handed over and of the current one gets exactly the
 pairs given to the sender, in order.
 */
module MessageSenders {
  import opened MessagePacking

  // Point-to-point messages; they are never the system's own activations.
  predicate AllSingle(ps: seq<Packet>) {
    forall i :: 0 <= i < |ps| ==> ps[i].Single? && !ps[i].body.activation
  }

  predicate AllMulticast(ps: seq<Packet>) {
    forall i :: 0 <= i < |ps| ==> ps[i].Multicast?
  }

  ghost predicate SingleBuffer(s: Sealed) {
    s.Whole() && AllSingle(s.Packets())
  }

  ghost predicate MulticastBuffer(s: Sealed) {
    s.Whole() && AllMulticast(s.Packets())
  }

  // Every buffer in the queue holds packets of one kind only.
  ghost predicate SinglesOnly(queue: seq<Sealed>) {
    forall i :: 0 <= i < |queue| ==> SingleBuffer(queue[i])
  }

  ghost predicate MulticastsOnly(queue: seq<Sealed>) {
    forall i :: 0 <= i < |queue| ==> MulticastBuffer(queue[i])
  }

  // What has been sent is what the queue and the current buffer hold.
  ghost predicate Accounted(sent: seq<Pair>, queue: seq<Sealed>, current: seq<Packet>) {
    sent == QueuePairs(queue) + Pairs(current)
  }

  lemma {:induction false} AccountedFlush(sent: seq<Pair>, queue: seq<Sealed>, current: seq<Packet>, s: Sealed)
    requires Accounted(sent, queue, current) && s.Whole() && s.Packets() == current
    ensures Accounted(sent, queue + [s], [])
  {
    QueueMore(queue, s);
  }

  lemma {:induction false} AccountedAdd(sent: seq<Pair>, queue: seq<Sealed>, current: seq<Packet>, p: Packet)
    requires Accounted(sent, queue, current)
    ensures Accounted(sent + PairsOf(p), queue, current + [p])
  {
    PairsMore(current, p);
    Assoc(QueuePairs(queue), Pairs(current), PairsOf(p));
  }

  lemma {:induction false} AccountedEmpty(sent: seq<Pair>, queue: seq<Sealed>, current: seq<Packet>, b: Body)
    requires Accounted(sent, queue, current)
    ensures Accounted(sent, queue, current + [Multicast(b, [])])
  {
    AccountedAdd(sent, queue, current, Multicast(b, []));
    assert sent + PairsOf(Multicast(b, [])) == sent;
  }

  lemma {:induction false} AccountedGrow(sent: seq<Pair>, queue: seq<Sealed>, current: seq<Packet>, ids: seq<nat>)
    requires Accounted(sent, queue, current) && current != [] && current[|current| - 1].Multicast?
    ensures Accounted(sent + ToAll(current[|current| - 1].body, ids), queue, Grown(current, ids))
  {
    GrownPairs(current, ids);
    var more := ToAll(current[|current| - 1].body, ids);
    Assoc(QueuePairs(queue), Pairs(current), more);
  }

  // Taking out a multicast without destinations takes out no pair.
  lemma {:induction false} AccountedRemove(sent: seq<Pair>, queue: seq<Sealed>, current: seq<Packet>)
    requires Accounted(sent, queue, current) && current != [] && PairsOf(current[|current| - 1]) == []
    ensures Accounted(sent, queue, current[..|current| - 1])
  {
  }

  // The state of a point-to-point sender, apart from its buffer's memory.
  ghost predicate SinglesKept(sent: seq<Pair>, queue: seq<Sealed>, current: seq<Packet>) {
    AllSingle(current) && SinglesOnly(queue) && Accounted(sent, queue, current)
  }

  lemma {:induction false} SinglesAdd(sent: seq<Pair>, queue: seq<Sealed>, current: seq<Packet>, body: Body, dest: nat)
    requires SinglesKept(sent, queue, current) && !body.activation
    ensures SinglesKept(sent + [Pair(body, dest)], queue, current + [Single(body, dest)])
  {
    AccountedAdd(sent, queue, current, Single(body, dest));
  }

  lemma {:induction false} SinglesFlush(sent: seq<Pair>, queue: seq<Sealed>, current: seq<Packet>, s: Sealed)
    requires SinglesKept(sent, queue, current) && s.Whole() && s.Packets() == current
    ensures SinglesKept(sent, queue + [s], [])
  {
    AccountedFlush(sent, queue, current, s);
  }

  // The state of a multicast sender, apart from its buffer's memory.
  ghost predicate MulticastsKept(sent: seq<Pair>, queue: seq<Sealed>, current: seq<Packet>) {
    AllMulticast(current) && MulticastsOnly(queue) && Accounted(sent, queue, current)
  }

  lemma {:induction false} MulticastsEmit(sent: seq<Pair>, queue: seq<Sealed>, current: seq<Packet>, b: Body)
    requires MulticastsKept(sent, queue, current)
    ensures MulticastsKept(sent, queue, current + [Multicast(b, [])])
  {
    AccountedEmpty(sent, queue, current, b);
  }

  lemma {:induction false} MulticastsFlush(sent: seq<Pair>, queue: seq<Sealed>, current: seq<Packet>, s: Sealed)
    requires MulticastsKept(sent, queue, current) && s.Whole() && s.Packets() == current
    ensures MulticastsKept(sent, queue + [s], [])
  {
    AccountedFlush(sent, queue, current, s);
  }

  lemma {:induction false} MulticastsGrow(sent: seq<Pair>, queue: seq<Sealed>, current: seq<Packet>, ids: seq<nat>)
    requires MulticastsKept(sent, queue, current) && current != [] && current[|current| - 1].Multicast?
    ensures MulticastsKept(sent + ToAll(current[|current| - 1].body, ids), queue, Grown(current, ids))
  {
    AccountedGrow(sent, queue, current, ids);
  }

  lemma {:induction false} MulticastsRemove(sent: seq<Pair>, queue: seq<Sealed>, current: seq<Packet>)
    requires MulticastsKept(sent, queue, current) && current != [] && PairsOf(current[|current| - 1]) == []
    ensures MulticastsKept(sent, queue, current[..|current| - 1])
  {
    AccountedRemove(sent, queue, current);
  }

  /**
   Point-to-point messages.  The buffer of messages to stolen vertices works the same
   way: a message goes to the last buffer, or to a new one when it does not fit.
   */
  class SimpleSender {
    const size: nat
    const buf: Message
    var queue: seq<Sealed>
    ghost var sent: seq<Pair>

    ghost predicate Valid()
      reads this, buf, buf.mem
    {
      && buf.Valid() && buf.getOff == 0 && buf.mem.Length == size
      && SinglesKept(sent, queue, buf.packets)
    }

    constructor (size: nat)
      ensures Valid() && sent == [] && queue == [] && this.size == size && buf.packets == [] && fresh(buf) && fresh(buf.mem)
    {
      this.size := size;
      buf := new Message(size);
      queue, sent := [], [];
    }

    method Flush()
      requires Valid()
      modifies this`queue, buf
      ensures Valid() && buf.packets == []
    {
      if buf.numObjs == 0 {
        return;
      }
      HandOver();
    }

    method HandOver()
      requires Valid()
      modifies this`queue, buf
      ensures Valid() && buf.packets == [] && buf.addOff == 0
    {
      var s := buf.Seal();
      SinglesFlush(sent, queue, buf.packets, s);
      queue := queue + [s];
      buf.Reset();
    }

    method SendCached(body: Body, dest: nat)
      requires Valid() && HEADER + |body.words| <= size && !body.activation
      modifies this, buf, buf.mem
      ensures Valid() && sent == old(sent) + [Pair(body, dest)]
    {
      var ok := Put(body, dest);
      if !ok {
        Flush();
        assert buf.addOff == 0;
        ok := Put(body, dest);
      }
    }

    method Put(body: Body, dest: nat) returns (ok: bool)
      requires Valid() && !body.activation
      modifies this`sent, buf, buf.mem
      ensures Valid() && ok == (old(buf.RemainingSize()) >= HEADER + |body.words|)
      ensures sent == if ok then old(sent) + [Pair(body, dest)] else old(sent)
    {
      SinglesAdd(sent, queue, buf.packets, body, dest);
      var off := buf.Add(Single(body, dest));
      ok := off >= 0;
      if ok {
        Count(sent + [Pair(body, dest)]);
      }
    }

    method Count(ghost all: seq<Pair>)
      requires buf.Valid() && buf.getOff == 0 && buf.mem.Length == size && SinglesKept(all, queue, buf.packets)
      modifies this`sent
      ensures Valid() && sent == all
    {
      sent := all;
    }
  }

  // The last packet, at mmsg, is a multicast of b to numDests destinations so far.
  ghost predicate LastIsOpen(ps: seq<Packet>, addOff: nat, mmsg: nat, destBegin: nat, numDests: nat, template: seq<Cell>, b: Body) {
    && ps != [] && mmsg + Size(ps[|ps| - 1]) == addOff
    && ps[|ps| - 1] == Multicast(b, LastDests(ps))
    && destBegin == mmsg + HEADER + |b.words| && numDests == |LastDests(ps)|
    && template == Encode(Multicast(b, []))
  }

  lemma {:induction false} JustOpened(ps: seq<Packet>, addOff: nat, off: nat, b: Body)
    requires ps != [] && ps[|ps| - 1] == Multicast(b, []) && off + Size(ps[|ps| - 1]) == addOff
    ensures LastIsOpen(ps, addOff, off, off + HEADER + |b.words|, 0, Encode(Multicast(b, [])), b)
  {
  }

  lemma {:induction false} OpenGrows(ps: seq<Packet>, addOff: nat, mmsg: nat, destBegin: nat, numDests: nat, template: seq<Cell>, b: Body, ids: seq<nat>)
    requires LastIsOpen(ps, addOff, mmsg, destBegin, numDests, template, b)
    ensures LastIsOpen(Grown(ps, ids), addOff + |ids|, mmsg, destBegin, numDests + |ids|, template, b)
  {
    GrownSize(ps, ids);
  }

  /**
   What the client of a multicast sender sees: what has been sent, and whether a multicast
   is open.  A multicast is opened on a closed sender only, and destinations are added to an
   open one only.
   */
  datatype Lane = Lane(sent: seq<Pair>, open: bool, body: Body) {

    function Opened(b: Body): Lane
      requires !open
    {
      Lane(sent, true, b)
    }

    function Added(ids: seq<nat>): Lane
      requires open
    {
      this.(sent := sent + ToAll(body, ids))
    }

    function Closed(): Lane {
      Lane(sent, false, EMPTY)
    }
  }

  const EMPTY: Body := Body(false, false, [])

  /** One message body to many destinations of one partition. */
  class MulticastSender {
    const size: nat
    const buf: Message
    var queue: seq<Sealed>
    var mmsg: int                 // where the open multicast starts, or -1
    var destBegin: nat
    var numDests: nat
    var template: seq<Cell>       // the bytes of the multicast without destinations
    ghost var body: Body
    ghost var sent: seq<Pair>

    ghost predicate Holding()
      reads this`sent, this`queue, buf, buf.mem
    {
      && buf.Valid() && buf.getOff == 0 && buf.mem.Length == size
      && MulticastsKept(sent, queue, buf.packets)
    }

    ghost predicate Valid()
      reads this, buf, buf.mem
    {
      Holding() && (mmsg >= 0 ==> Open())
    }

    ghost function View(): Lane
      reads this`sent, this`mmsg, this`body
    {
      Lane(sent, mmsg >= 0, if mmsg >= 0 then body else EMPTY)
    }

    // The last packet of the buffer is the one destinations are added to.
    ghost predicate Open()
      reads this, buf
    {
      0 <= mmsg && LastIsOpen(buf.packets, buf.addOff, mmsg, destBegin, numDests, template, body)
    }

    constructor (size: nat)
      ensures Valid() && sent == [] && queue == [] && this.size == size && mmsg < 0 && buf.packets == [] && fresh(buf) && fresh(buf.mem)
    {
      this.size := size;
      buf := new Message(size);
      queue, sent := [], [];
      mmsg, destBegin, numDests, template := -1, 0, 0, [];
    }

    method Flush()
      requires Valid()
      modifies this`queue, this`mmsg, this`numDests, buf
      ensures Valid() && buf.packets == [] && View() == old(View()).Closed()
    {
      if buf.numObjs == 0 {
        assert buf.packets == [];
        return;
      }
      mmsg, numDests := -1, 0;
      HandOver();
    }

    method HandOver()
      requires Holding() && mmsg < 0
      modifies this`queue, buf
      ensures Valid() && buf.packets == [] && buf.addOff == 0
    {
      var s := buf.Seal();
      MulticastsFlush(sent, queue, buf.packets, s);
      queue := queue + [s];
      buf.Reset();
    }

    // Puts a multicast without destinations into the buffer and opens it.
    method Emit(b: Body) returns (ok: bool)
      requires Valid() && mmsg < 0
      modifies this`mmsg, this`destBegin, this`numDests, this`template, this`body, buf, buf.mem
      ensures Valid() && ok == (old(buf.RemainingSize()) >= HEADER + |b.words|)
      ensures if ok then mmsg == old(buf.addOff) && body == b && numDests == 0 else mmsg < 0 && buf.packets == old(buf.packets)
      ensures ok ==> buf.addOff == old(buf.addOff) + HEADER + |b.words|
    {
      var off := AddEmpty(b);
      ok := off >= 0;
      if ok {
        JustOpened(buf.packets, buf.addOff, off, b);
        template, body := Encode(Multicast(b, [])), b;
        OpenAt(off, off + HEADER + |b.words|);
      }
    }

    method AddEmpty(b: Body) returns (off: int)
      requires Holding()
      modifies buf, buf.mem
      ensures Holding() && off == if old(buf.RemainingSize()) < HEADER + |b.words| then -1 else old(buf.addOff)
      ensures buf.packets == if off < 0 then old(buf.packets) else old(buf.packets) + [Multicast(b, [])]
      ensures buf.addOff == if off < 0 then old(buf.addOff) else old(buf.addOff) + HEADER + |b.words|
    {
      MulticastsEmit(sent, queue, buf.packets, b);
      off := buf.Add(Multicast(b, []));
    }

    method OpenAt(off: nat, begin: nat)
      requires Holding() && LastIsOpen(buf.packets, buf.addOff, off, begin, 0, template, body)
      modifies this`mmsg, this`destBegin, this`numDests
      ensures Valid() && mmsg == off && numDests == 0
    {
      mmsg, destBegin, numDests := off, begin, 0;
    }

    method Init(b: Body)
      requires Valid() && mmsg < 0 && HEADER + |b.words| <= size && HEADER + |b.words| <= MMSG_BUF_SIZE
      modifies this, buf, buf.mem
      ensures Valid() && numDests == 0 && View() == old(View()).Opened(b)
    {
      var ok := Emit(b);
      if !ok {
        Flush();
        assert buf.addOff == 0;
        ok := Emit(b);
      }
    }

    // The buffer is full: hand it over and start the next one with the template.
    method Reopen()
      requires Valid() && mmsg >= 0
      modifies this`queue, this`mmsg, this`destBegin, this`numDests, this`template, this`body, buf, buf.mem
      ensures Valid() && mmsg == 0 && body == old(body) && numDests == 0
      ensures buf.RemainingSize() == size - (HEADER + |body.words|)
    {
      ghost var b := body;
      BodyFits();
      RoundTrip(Multicast(body, []), template, 0);
      var p := Decode(template, 0);
      Flush();
      assert buf.addOff == 0;
      var ok := Emit(p.body);
    }

    // The template found room once, so it does in an empty buffer.
    lemma {:induction false} BodyFits()
      requires Valid() && mmsg >= 0
      ensures HEADER + |body.words| <= size
    {
    }

    // inc_msg_size for one destination, and once more in a new buffer when that fails; the
    // second result, which the source does not look at, is false exactly if the template
    // fills the new buffer.
    method MakeRoom() returns (room: bool)
      requires Valid() && mmsg >= 0
      modifies this`queue, this`mmsg, this`destBegin, this`numDests, this`template, this`body, buf, buf.mem
      ensures Valid() && mmsg >= 0 && body == old(body) && room == (buf.RemainingSize() > 0)
      ensures room <==> old(buf.RemainingSize()) > 0 || HEADER + |body.words| < size
      ensures old(buf.RemainingSize()) > 0 ==> buf.addOff == old(buf.addOff)
      ensures !room ==> numDests == 0 && destBegin == size
    {
      if buf.RemainingSize() < 1 {
        Reopen();
      }
      room := buf.RemainingSize() >= 1;
    }

    // Adds destinations that fit into the buffer to the open multicast.
    method Append(ids: seq<nat>)
      requires Valid() && mmsg >= 0 && |ids| <= buf.RemainingSize()
      modifies this`numDests, this`sent, buf, buf.mem
      ensures Valid() && mmsg >= 0 && sent == old(sent) + ToAll(body, ids) && numDests == old(numDests) + |ids|
      ensures buf.RemainingSize() == old(buf.RemainingSize()) - |ids|
    {
      MulticastsGrow(sent, queue, buf.packets, ids);
      OpenGrows(buf.packets, buf.addOff, mmsg, destBegin, numDests, template, body, ids);
      buf.AddDests(mmsg, destBegin, ids);
      Count(numDests + |ids|, sent + ToAll(body, ids));
    }

    method Count(num: nat, ghost all: seq<Pair>)
      requires buf.Valid() && buf.getOff == 0 && buf.mem.Length == size && MulticastsKept(all, queue, buf.packets)
      requires mmsg >= 0 && LastIsOpen(buf.packets, buf.addOff, mmsg, destBegin, num, template, body)
      modifies this`numDests, this`sent
      ensures Valid() && sent == all && numDests == num
    {
      numDests, sent := num, all;
    }

    // One destination more.  Without room for it the source writes it all the same, to the
    // place where the next destination goes, which is then the end of the buffer.
    method AddDest(id: nat) returns (room: bool)
      requires Valid() && mmsg >= 0
      modifies this, buf, buf.mem
      ensures Valid() && View() == if room then old(View()).Added([id]) else old(View())
      ensures room <==> old(buf.RemainingSize()) > 0 || HEADER + |body.words| < size
      ensures !room ==> destBegin + numDests == buf.mem.Length
    {
      room := MakeRoom();
      if room {
        Append([id]);
      }
    }

    // Without room for a single destination in a new buffer the source fails its assertion.
    method AddDests(ids: seq<nat>) returns (room: bool)
      requires Valid() && mmsg >= 0
      modifies this, buf, buf.mem
      ensures Valid() && mmsg >= 0 && body == old(body)
      ensures room <==> |ids| <= old(buf.RemainingSize()) || HEADER + |body.words| < size
      ensures room ==> View() == old(View()).Added(ids)
    {
      ghost var start, left := sent, buf.RemainingSize();
      var done := 0;
      assert ids[0..0] == [];
      while done < |ids|
        invariant done <= |ids| && Valid() && mmsg >= 0 && body == old(body)
        invariant SentUpTo(start, body, ids, done, sent)
        invariant HEADER + |body.words| >= size && |ids| <= left ==> |ids| - done <= buf.RemainingSize()
        invariant HEADER + |body.words| >= size && |ids| > left ==> |ids| - done > buf.RemainingSize()
      {
        room, done := AppendSome(ids, done, start);
        if !room {
          return;
        }
      }
      room := true;
      assert ids[0..done] == ids;
    }

    // Adds as many of the destinations as fit, after starting a new buffer if none does.
    method AppendSome(ids: seq<nat>, done: nat, ghost start: seq<Pair>) returns (room: bool, next: nat)
      requires Valid() && mmsg >= 0 && done < |ids|
      requires SentUpTo(start, body, ids, done, sent)
      modifies this, buf, buf.mem
      ensures Valid() && mmsg >= 0 && body == old(body) && done <= next <= |ids| && (room ==> done < next)
      ensures SentUpTo(start, body, ids, next, sent)
      ensures room <==> old(buf.RemainingSize()) > 0 || HEADER + |body.words| < size
      ensures old(buf.RemainingSize()) > 0 ==> buf.RemainingSize() == old(buf.RemainingSize()) - (next - done)
      ensures next < |ids| ==> buf.RemainingSize() == 0
    {
      room := MakeRoom();
      next := done;
      if room {
        var num := |ids| - done;
        var allowed := if buf.RemainingSize() < num then buf.RemainingSize() else num;
        next := done + allowed;
        AppendSlice(ids, done, next, start);
      }
    }

    method AppendSlice(ids: seq<nat>, done: nat, next: nat, ghost start: seq<Pair>)
      requires Valid() && mmsg >= 0 && done <= next <= |ids| && next - done <= buf.RemainingSize()
      requires SentUpTo(start, body, ids, done, sent)
      modifies this`numDests, this`sent, buf, buf.mem
      ensures Valid() && mmsg >= 0 && SentUpTo(start, body, ids, next, sent)
      ensures buf.RemainingSize() == old(buf.RemainingSize()) - (next - done)
    {
      SplitIds(body, ids, done, next - done, sent, start);
      Append(ids[done..next]);
    }

    method EndMulticast()
      requires Valid() && mmsg >= 0
      modifies this`mmsg, this`numDests, buf
      ensures Valid() && View() == old(View()).Closed()
      ensures buf.packets == if old(numDests) == 0 then old(buf.packets)[..|old(buf.packets)| - 1] else old(buf.packets)
    {
      if numDests == 0 {
        RemoveEmpty();
      }
      mmsg, numDests := -1, 0;
    }

    method RemoveEmpty()
      requires Holding() && mmsg >= 0 && Open() && numDests == 0
      modifies buf
      ensures Holding() && buf.packets == old(buf.packets)[..|old(buf.packets)| - 1]
    {
      MulticastsRemove(sent, queue, buf.packets);
      buf.RemoveLast(|template|);
    }
  }

  function LastDests(ps: seq<Packet>): seq<nat>
    requires ps != []
  {
    if ps[|ps| - 1].Multicast? then ps[|ps| - 1].dests else []
  }

  ghost predicate SentUpTo(start: seq<Pair>, b: Body, ids: seq<nat>, done: nat, sent: seq<Pair>)
    requires done <= |ids|
  {
    sent == start + ToAll(b, ids[0..done])
  }

  lemma {:induction false} SplitIds(b: Body, ids: seq<nat>, done: nat, more: nat, before: seq<Pair>, start: seq<Pair>)
    requires done + more <= |ids| && SentUpTo(start, b, ids, done, before)
    ensures SentUpTo(start, b, ids, done + more, before + ToAll(b, ids[done..done + more]))
  {
    SliceTogether(ids, 0, done, done + more);
    ToAllMore(b, ids[0..done], ids[done..done + more]);
    Assoc(start, ToAll(b, ids[0..done]), ToAll(b, ids[done..done + more]));
  }

  lemma {:induction false} Assoc<T>(a: seq<T>, b: seq<T>, c: seq<T>)
    ensures (a + b) + c == a + (b + c)
  {
  }

  // ----- a sender as its client sees it

  datatype LaneOp = Open(b: Body) | Add(id: nat) | AddAll(ids: seq<nat>) | Close | HandIn

  // Bodies that leave room for a destination in an empty buffer.
  predicate Sendable(b: Body, size: nat) {
    HEADER + |b.words| < size && HEADER + |b.words| <= MMSG_BUF_SIZE
  }

  // Bodies that fit into an empty buffer as a message to one vertex.
  predicate Postable(b: Body, size: nat) {
    HEADER + |b.words| <= size
  }

  predicate Allowed(op: LaneOp, lane: Lane, size: nat) {
    match op
    case Open(b) => !lane.open && Sendable(b, size)
    case Add(_) => lane.open && Sendable(lane.body, size)
    case AddAll(_) => lane.open && Sendable(lane.body, size)
    case Close => lane.open
    case HandIn => true
  }

  function After(op: LaneOp, lane: Lane, size: nat): Lane
    requires Allowed(op, lane, size)
  {
    match op
    case Open(b) => lane.Opened(b)
    case Add(id) => lane.Added([id])
    case AddAll(ids) => lane.Added(ids)
    case Close => lane.Closed()
    case HandIn => lane.Closed()
  }

  // The lane after n operations, or None as soon as one of them is not allowed.
  datatype Option<T> = None | Some(value: T)

  function LaneAfter(ops: seq<LaneOp>, n: nat, lane: Lane, size: nat): Option<Lane>
    requires n <= |ops|
  {
    if n == 0 then Some(lane)
    else
      var before := LaneAfter(ops, n - 1, lane, size);
      if before.Some? && Allowed(ops[n - 1], before.value, size) then Some(After(ops[n - 1], before.value, size)) else None
  }

  lemma {:induction false} EarlierSome(ops: seq<LaneOp>, i: nat, n: nat, lane: Lane, size: nat)
    requires i <= n <= |ops| && LaneAfter(ops, n, lane, size).Some?
    ensures LaneAfter(ops, i, lane, size).Some?
    decreases n
  {
    if i < n { EarlierSome(ops, i, n - 1, lane, size); }
  }

  lemma {:induction false} NextAllowed(ops: seq<LaneOp>, i: nat, lane: Lane, size: nat)
    requires i < |ops| && LaneAfter(ops, |ops|, lane, size).Some?
    ensures
      var now := LaneAfter(ops, i, lane, size);
      now.Some? && Allowed(ops[i], now.value, size) && LaneAfter(ops, i + 1, lane, size) == Some(After(ops[i], now.value, size))
  {
    EarlierSome(ops, i + 1, |ops|, lane, size);
  }

  method Perform(s: MulticastSender, op: LaneOp)
    requires s.Valid() && Allowed(op, s.View(), s.size)
    modifies s, s.buf, s.buf.mem
    ensures s.Valid() && s.View() == After(op, old(s.View()), s.size)
  {
    match op
    case Open(b) => s.Init(b);
    case Add(id) => var room := s.AddDest(id);
    case AddAll(ids) => var room := s.AddDests(ids);
    case Close => s.EndMulticast();
    case HandIn => s.Flush();
  }

  // Whatever a client does that the lane allows, the sender does it, and shows what the lane
  // shows.
  method Follow(s: MulticastSender, ops: seq<LaneOp>)
    requires s.Valid() && LaneAfter(ops, |ops|, s.View(), s.size).Some?
    modifies s, s.buf, s.buf.mem
    ensures s.Valid() && LaneAfter(ops, |ops|, old(s.View()), s.size) == Some(s.View())
  {
    FollowAll(s, ops, s.View());
  }

  method FollowAll(s: MulticastSender, ops: seq<LaneOp>, ghost lane: Lane)
    requires s.Valid() && Shows(ops, 0, lane, s.View(), s.size)
    modifies s, s.buf, s.buf.mem
    ensures s.Valid() && Shows(ops, |ops|, lane, s.View(), s.size)
  {
    for i := 0 to |ops|
      invariant s.Valid() && Shows(ops, i, lane, s.View(), s.size)
    {
      FollowOne(s, ops, i, lane);
    }
  }

  ghost predicate Shows(ops: seq<LaneOp>, n: nat, lane: Lane, view: Lane, size: nat)
    requires n <= |ops|
  {
    LaneAfter(ops, |ops|, lane, size).Some? && LaneAfter(ops, n, lane, size) == Some(view)
  }

  method FollowOne(s: MulticastSender, ops: seq<LaneOp>, i: nat, ghost lane: Lane)
    requires s.Valid() && i < |ops| && Shows(ops, i, lane, s.View(), s.size)
    modifies s, s.buf, s.buf.mem
    ensures s.Valid() && Shows(ops, i + 1, lane, s.View(), s.size)
  {
    NextAllowed(ops, i, lane, s.size);
    Perform(s, ops[i]);
  }
}
