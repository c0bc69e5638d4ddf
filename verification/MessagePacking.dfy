/**
 Messages of varying length packed into buffers of a fixed size.  Memory is counted in
 words of four bytes, the unit all message sizes are multiples of; a header takes two.
 */
module MessagePacking {

  const HEADER: nat := 2
  const MMSG_BUF_SIZE: nat := 1024

  datatype Cell =
    | Head(multicast: bool, activate: bool, activation: bool, size: nat)
    | Data(v: nat)

  // What is delivered to each destination.
  datatype Body = Body(activate: bool, activation: bool, words: seq<nat>)

  datatype Packet =
    | Single(body: Body, dest: nat)
    | Multicast(body: Body, dests: seq<nat>)

  datatype Pair = Pair(body: Body, dest: nat)

  function Cells(words: seq<nat>): (r: seq<Cell>)
    ensures |r| == |words| && forall i :: 0 <= i < |words| ==> r[i] == Data(words[i])
  {
    seq(|words|, i requires 0 <= i < |words| => Data(words[i]))
  }

  function Size(p: Packet): nat {
    HEADER + |p.body.words| + if p.Multicast? then |p.dests| else 0
  }

  function Encode(p: Packet): (r: seq<Cell>)
    ensures |r| == Size(p)
  {
    match p
    case Single(b, dest) =>
      [Head(false, b.activate, b.activation, HEADER + |b.words|), Data(dest)] + Cells(b.words)
    case Multicast(b, dests) =>
      [Head(true, b.activate, b.activation, HEADER + |b.words| + |dests|), Data(|dests|)] + Cells(b.words) + Cells(dests)
  }

  function Blocks(ps: seq<Packet>): (r: seq<seq<Cell>>)
    ensures |r| == |ps| && forall i :: 0 <= i < |ps| ==> r[i] == Encode(ps[i])
  {
    seq(|ps|, i requires 0 <= i < |ps| => Encode(ps[i]))
  }

  function Concat<T>(bs: seq<seq<T>>): seq<T> {
    if bs == [] then [] else Concat(bs[..|bs| - 1]) + bs[|bs| - 1]
  }

  // The packets one behind the other.
  function Layout(ps: seq<Packet>): seq<Cell> {
    Concat(Blocks(ps))
  }

  // ----- what a reader makes of the bytes

  function Values(cells: seq<Cell>): (r: seq<nat>)
    ensures |r| == |cells|
  {
    seq(|cells|, i requires 0 <= i < |cells| => if cells[i].Data? then cells[i].v else 0)
  }

  // The size of the packet at off, at least a header and within the bytes.
  function SizeAt(cells: seq<Cell>, off: nat): (r: nat)
    requires off < |cells|
    ensures HEADER <= r
  {
    if cells[off].Head? && cells[off].size >= HEADER then cells[off].size else HEADER
  }

  // The second word of a packet: a destination, or the number of destinations.
  function SecondWord(cells: seq<Cell>, off: nat): nat
    requires off + HEADER <= |cells|
  {
    if cells[off + 1].Data? then cells[off + 1].v else 0
  }

  function BodyAt(cells: seq<Cell>, off: nat, size: nat): Body
    requires HEADER <= size && off + size <= |cells|
  {
    Body(cells[off].Head? && cells[off].activate, cells[off].Head? && cells[off].activation,
         Values(cells[off + HEADER..off + size]))
  }

  // The bytes taken as a point-to-point message, whatever the flag in the header says.
  function SingleAt(cells: seq<Cell>, off: nat): Packet
    requires off + HEADER <= |cells| && off + SizeAt(cells, off) <= |cells|
  {
    Single(BodyAt(cells, off, SizeAt(cells, off)), SecondWord(cells, off))
  }

  // The bytes taken as a multicast: the destinations are at the end.
  function MulticastAt(cells: seq<Cell>, off: nat): Packet
    requires off + HEADER <= |cells| && off + SizeAt(cells, off) <= |cells|
  {
    var size, num := SizeAt(cells, off), SecondWord(cells, off);
    var split := if HEADER + num <= size then size - num else size;
    Multicast(BodyAt(cells, off, split), Values(cells[off + split..off + size]))
  }

  function Decode(cells: seq<Cell>, off: nat): Packet
    requires off + HEADER <= |cells| && off + SizeAt(cells, off) <= |cells|
  {
    if cells[off].Head? && cells[off].multicast then MulticastAt(cells, off) else SingleAt(cells, off)
  }

  function Parse(cells: seq<Cell>, off: nat, n: nat): seq<Packet>
    decreases n
  {
    if n == 0 || off + HEADER > |cells| || off + SizeAt(cells, off) > |cells| then []
    else [Decode(cells, off)] + Parse(cells, off + SizeAt(cells, off), n - 1)
  }

  // Slices of a sequence that holds a + b from off on.
  lemma {:induction false} SliceApart<T>(c: seq<T>, off: nat, a: seq<T>, b: seq<T>)
    requires off + |a| + |b| <= |c| && c[off..off + |a| + |b|] == a + b
    ensures c[off..off + |a|] == a && c[off + |a|..off + |a| + |b|] == b
  {
    assert c[off..off + |a|] == c[off..off + |a| + |b|][..|a|];
    assert c[off + |a|..off + |a| + |b|] == c[off..off + |a| + |b|][|a|..];
  }

  lemma {:induction false} SliceTogether<T>(c: seq<T>, lo: nat, mid: nat, hi: nat)
    requires lo <= mid <= hi <= |c|
    ensures c[lo..hi] == c[lo..mid] + c[mid..hi]
  {
  }

  lemma {:induction false} ValuesCells(words: seq<nat>)
    ensures Values(Cells(words)) == words
  {
  }

  // The first two words of a packet.
  lemma {:induction false} HeaderAt(p: Packet, cells: seq<Cell>, off: nat)
    requires off + Size(p) <= |cells| && cells[off..off + Size(p)] == Encode(p)
    ensures cells[off] == Encode(p)[0] && cells[off + 1] == Encode(p)[1] && SizeAt(cells, off) == Size(p)
  {
    var e := cells[off..off + Size(p)];
    assert e[0] == cells[off] && e[1] == cells[off + 1];
  }

  lemma {:induction false} RoundTripSingle(b: Body, dest: nat, cells: seq<Cell>, off: nat)
    requires off + HEADER + |b.words| <= |cells| && cells[off..off + (HEADER + |b.words|)] == Encode(Single(b, dest))
    ensures SizeAt(cells, off) == HEADER + |b.words| && Decode(cells, off) == Single(b, dest)
  {
    var p := Single(b, dest);
    HeaderAt(p, cells, off);
    ValuesCells(b.words);
    assert Encode(p) == Encode(p)[..HEADER] + Cells(b.words);
    SliceApart(cells, off, Encode(p)[..HEADER], Cells(b.words));
  }

  // Where the words and the destinations of a multicast are.
  lemma {:induction false} MulticastSlices(b: Body, dests: seq<nat>, cells: seq<Cell>, off: nat)
    requires off + Size(Multicast(b, dests)) <= |cells|
    requires cells[off..off + Size(Multicast(b, dests))] == Encode(Multicast(b, dests))
    ensures
      var split, size := HEADER + |b.words|, HEADER + |b.words| + |dests|;
      && cells[off + HEADER..off + size] == Cells(b.words) + Cells(dests)
      && cells[off + HEADER..off + split] == Cells(b.words) && cells[off + split..off + size] == Cells(dests)
  {
    var p := Multicast(b, dests);
    var head, rest := Encode(p)[..HEADER], Cells(b.words) + Cells(dests);
    assert Encode(p) == head + rest;
    SliceApart(cells, off, head, rest);
    SliceApart(cells, off + HEADER, Cells(b.words), Cells(dests));
  }

  lemma {:induction false} RoundTripMulticast(b: Body, dests: seq<nat>, cells: seq<Cell>, off: nat)
    requires off + Size(Multicast(b, dests)) <= |cells|
    requires cells[off..off + Size(Multicast(b, dests))] == Encode(Multicast(b, dests))
    ensures SizeAt(cells, off) == Size(Multicast(b, dests)) && Decode(cells, off) == Multicast(b, dests)
  {
    HeaderAt(Multicast(b, dests), cells, off);
    MulticastSlices(b, dests, cells, off);
    ValuesCells(b.words);
    ValuesCells(dests);
  }

  // A packet can be read back wherever it has been written.
  lemma {:induction false} RoundTrip(p: Packet, cells: seq<Cell>, off: nat)
    requires off + Size(p) <= |cells| && cells[off..off + Size(p)] == Encode(p)
    ensures SizeAt(cells, off) == Size(p) && Decode(cells, off) == p
  {
    match p
    case Single(b, dest) => RoundTripSingle(b, dest, cells, off);
    case Multicast(b, dests) => RoundTripMulticast(b, dests, cells, off);
  }

  lemma {:induction false} ValuesTogether(a: seq<nat>, b: seq<nat>)
    ensures Values(Cells(a) + Cells(b)) == a + b
  {
  }

  // A multicast taken as a point-to-point message: its destinations count as words of the
  // body, and the number of them as the destination.
  lemma {:induction false} MulticastAsSingle(b: Body, dests: seq<nat>, cells: seq<Cell>, off: nat)
    requires off + Size(Multicast(b, dests)) <= |cells|
    requires cells[off..off + Size(Multicast(b, dests))] == Encode(Multicast(b, dests))
    ensures SizeAt(cells, off) == Size(Multicast(b, dests))
    ensures SingleAt(cells, off) == Single(b.(words := b.words + dests), |dests|)
  {
    HeaderAt(Multicast(b, dests), cells, off);
    MulticastSlices(b, dests, cells, off);
    ValuesTogether(b.words, dests);
  }

  lemma {:induction false} ConcatCons<T>(bs: seq<seq<T>>)
    requires bs != []
    ensures Concat(bs) == bs[0] + Concat(bs[1..])
  {
    if |bs| > 1 {
      var n := |bs| - 1;
      ConcatCons(bs[..n]);
      assert bs[..n][1..] == bs[1..][..n - 1];
    }
  }

  lemma {:induction false} LastBlock<T>(bs: seq<seq<T>>, c: seq<T>, lo: nat, hi: nat)
    requires bs != [] && lo <= hi <= |c| && c[lo..hi] == Concat(bs)
    ensures |bs[|bs| - 1]| <= hi - lo
    ensures c[lo..hi - |bs[|bs| - 1]|] == Concat(bs[..|bs| - 1]) && c[hi - |bs[|bs| - 1]|..hi] == bs[|bs| - 1]
  {
    SliceApart(c, lo, Concat(bs[..|bs| - 1]), bs[|bs| - 1]);
  }

  lemma {:induction false} FirstBlock<T>(bs: seq<seq<T>>, c: seq<T>, lo: nat, hi: nat)
    requires bs != [] && lo <= hi <= |c| && c[lo..hi] == Concat(bs)
    ensures |bs[0]| <= hi - lo && c[lo..lo + |bs[0]|] == bs[0] && c[lo + |bs[0]|..hi] == Concat(bs[1..])
  {
    ConcatCons(bs);
    SliceApart(c, lo, bs[0], Concat(bs[1..]));
  }

  lemma {:induction false} SwapLast<T>(bs: seq<seq<T>>, gs: seq<seq<T>>, c: seq<T>, c': seq<T>, lo: nat, off: nat, hi: nat, hi': nat)
    requires bs != [] && lo <= hi <= |c| && c[lo..hi] == Concat(bs) && |gs| == |bs| && gs[..|bs| - 1] == bs[..|bs| - 1]
    requires lo <= off <= hi' <= |c'| && |c'| == |c| && off == hi - |bs[|bs| - 1]|
    requires (forall i :: lo <= i < off ==> c'[i] == c[i]) && c'[off..hi'] == gs[|bs| - 1]
    ensures c'[lo..hi'] == Concat(gs)
  {
    LastBlock(bs, c, lo, hi);
    assert c'[lo..off] == c[lo..off];
    SliceTogether(c', lo, off, hi');
  }

  lemma {:induction false} BlocksSplit(ps: seq<Packet>)
    requires ps != []
    ensures Blocks(ps)[1..] == Blocks(ps[1..]) && Blocks(ps)[..|ps| - 1] == Blocks(ps[..|ps| - 1])
  {
  }

  lemma {:induction false} FirstPacket(ps: seq<Packet>, cells: seq<Cell>, lo: nat, hi: nat)
    requires ps != [] && lo <= hi <= |cells| && cells[lo..hi] == Layout(ps)
    ensures lo + HEADER <= hi && lo + SizeAt(cells, lo) <= hi
    ensures Decode(cells, lo) == ps[0] && cells[lo + SizeAt(cells, lo)..hi] == Layout(ps[1..])
  {
    FirstBlock(Blocks(ps), cells, lo, hi);
    BlocksSplit(ps);
    RoundTrip(ps[0], cells, lo);
  }

  lemma {:induction false} ParseNext(p: Packet, cells: seq<Cell>, lo: nat, next: nat, n: nat)
    requires lo + HEADER <= |cells| && next == lo + SizeAt(cells, lo) <= |cells| && Decode(cells, lo) == p
    ensures Parse(cells, lo, n + 1) == [p] + Parse(cells, next, n)
  {
  }

  lemma {:induction false} HeadTail<T>(s: seq<T>)
    requires s != []
    ensures s == [s[0]] + s[1..]
  {
  }

  lemma {:induction false} ParseStep(ps: seq<Packet>, cells: seq<Cell>, lo: nat, next: nat)
    requires ps != [] && lo + HEADER <= |cells| && next == lo + SizeAt(cells, lo) <= |cells|
    requires Decode(cells, lo) == ps[0] && Parse(cells, next, |ps| - 1) == ps[1..]
    ensures Parse(cells, lo, |ps|) == ps
  {
    ParseNext(ps[0], cells, lo, next, |ps| - 1);
    HeadTail(ps);
  }

  lemma {:induction false} ParseNone(cells: seq<Cell>, lo: nat)
    ensures Parse(cells, lo, 0) == []
  {
  }

  // Reading back everything that has been written.
  lemma {:induction false} ParseLayout(ps: seq<Packet>, cells: seq<Cell>, lo: nat, hi: nat)
    requires lo <= hi <= |cells| && cells[lo..hi] == Layout(ps)
    ensures Parse(cells, lo, |ps|) == ps
    decreases |ps|
  {
    if |ps| == 0 {
      ParseNone(cells, lo);
    } else {
      FirstPacket(ps, cells, lo, hi);
      var next := lo + SizeAt(cells, lo);
      ParseLayout(ps[1..], cells, next, hi);
      ParseStep(ps, cells, lo, next);
    }
  }

  // ----- the destinations of a sequence of packets, in order

  function PairsOf(p: Packet): seq<Pair> {
    match p
    case Single(b, dest) => [Pair(b, dest)]
    case Multicast(b, dests) => ToAll(b, dests)
  }

  function ToAll(b: Body, dests: seq<nat>): (r: seq<Pair>)
    ensures |r| == |dests| && forall i :: 0 <= i < |dests| ==> r[i] == Pair(b, dests[i])
  {
    seq(|dests|, i requires 0 <= i < |dests| => Pair(b, dests[i]))
  }

  function Pairs(ps: seq<Packet>): seq<Pair> {
    if ps == [] then [] else Pairs(ps[..|ps| - 1]) + PairsOf(ps[|ps| - 1])
  }

  // A buffer handed over to the destination's queue.
  datatype Sealed = Sealed(cells: seq<Cell>, numObjs: nat) {
    function Packets(): seq<Packet> {
      Parse(cells, 0, numObjs)
    }

    // The buffer holds nothing but its packets.
    ghost predicate Whole() {
      cells == Layout(Packets()) && numObjs == |Packets()|
    }
  }

  function QueuePairs(queue: seq<Sealed>): seq<Pair> {
    if queue == [] then []
    else QueuePairs(queue[..|queue| - 1]) + Pairs(queue[|queue| - 1].Packets())
  }

  lemma {:induction false} QueueMore(queue: seq<Sealed>, s: Sealed)
    ensures QueuePairs(queue + [s]) == QueuePairs(queue) + Pairs(s.Packets())
  {
    assert (queue + [s])[..|queue|] == queue;
  }

  lemma {:induction false} PairsMore(ps: seq<Packet>, p: Packet)
    ensures Pairs(ps + [p]) == Pairs(ps) + PairsOf(p)
  {
    assert (ps + [p])[..|ps|] == ps;
  }

  lemma {:induction false} LayoutMore(ps: seq<Packet>, p: Packet)
    ensures Layout(ps + [p]) == Layout(ps) + Encode(p)
  {
    var bs := Blocks(ps + [p]);
    assert bs[..|ps|] == Blocks(ps);
    assert bs[|ps|] == Encode(p);
  }

  // The last packet with more destinations.
  function Grown(ps: seq<Packet>, ids: seq<nat>): seq<Packet>
    requires ps != [] && ps[|ps| - 1].Multicast?
  {
    var last := ps[|ps| - 1];
    ps[..|ps| - 1] + [Multicast(last.body, last.dests + ids)]
  }

  lemma {:induction false} GrownPairs(ps: seq<Packet>, ids: seq<nat>)
    requires ps != [] && ps[|ps| - 1].Multicast?
    ensures Pairs(Grown(ps, ids)) == Pairs(ps) + ToAll(ps[|ps| - 1].body, ids)
  {
    var n := |ps| - 1;
    PairsMore(ps[..n], Multicast(ps[n].body, ps[n].dests + ids));
    ToAllMore(ps[n].body, ps[n].dests, ids);
  }

  lemma {:induction false} ToAllMore(b: Body, dests: seq<nat>, ids: seq<nat>)
    ensures ToAll(b, dests + ids) == ToAll(b, dests) + ToAll(b, ids)
  {
  }

  /** The buffer of a sender or of a reader. */
  class Message {
    const mem: array<Cell>
    var getOff: nat
    var addOff: nat
    var numObjs: nat
    ghost var packets: seq<Packet>      // what is in the buffer and has not been read

    // The sizes of the packets sum up to the offset at which the next one is added.
    ghost predicate Valid()
      reads this, mem
    {
      && getOff <= addOff <= mem.Length
      && mem[getOff..addOff] == Layout(packets)
      && numObjs == |packets|
    }

    constructor (size: nat)
      ensures Valid() && packets == [] && mem.Length == size && addOff == getOff == 0 && fresh(mem)
    {
      mem := new Cell[size](_ => Data(0));
      getOff, addOff, numObjs := 0, 0, 0;
      packets := [];
    }

    // The reader's copy of a buffer taken from the queue.
    constructor Open(s: Sealed, ghost ps: seq<Packet>)
      requires s.cells == Layout(ps) && s.numObjs == |ps|
      ensures Valid() && packets == ps && fresh(mem)
    {
      mem := new Cell[|s.cells|](i requires 0 <= i < |s.cells| => s.cells[i]);
      getOff, addOff, numObjs := 0, |s.cells|, s.numObjs;
      packets := ps;
      new;
      assert mem[..] == s.cells;
    }

    function RemainingSize(): int
      reads this
    {
      mem.Length - addOff
    }

    // Adds a packet, or returns -1 when it does not fit.
    method Add(p: Packet) returns (off: int)
      requires Valid()
      modifies this`addOff, this`numObjs, this`packets, mem
      ensures Valid()
      ensures off == if old(RemainingSize()) < Size(p) then -1 else old(addOff)
      ensures packets == if off < 0 then old(packets) else old(packets) + [p]
      ensures addOff == if off < 0 then old(addOff) else old(addOff) + Size(p)
    {
      if mem.Length - addOff < Size(p) {
        return -1;
      }
      off := addOff;
      var cells := Encode(p);
      LayoutMore(packets, p);
      Write(cells);
      numObjs, packets := numObjs + 1, packets + [p];
    }

    // Copies cells behind what has been added so far.
    method Write(cells: seq<Cell>)
      requires getOff <= addOff && addOff + |cells| <= mem.Length
      modifies this`addOff, mem
      ensures addOff == old(addOff) + |cells| && mem[getOff..addOff] == old(mem[getOff..addOff]) + cells
    {
      forall i | 0 <= i < |cells| {
        mem[addOff + i] := cells[i];
      }
      addOff := addOff + |cells|;
    }

    // Where the last packet starts.
    ghost predicate LastAt(off: nat)
      requires Valid()
      reads this, mem
    {
      packets != [] && off + Size(packets[|packets| - 1]) == addOff
    }

    lemma {:induction false} LastHead(off: nat)
      requires Valid() && LastAt(off)
      ensures getOff <= off && mem[getOff..off] == Layout(packets[..|packets| - 1])
      ensures mem[off..addOff] == Encode(packets[|packets| - 1])
    {
      LastBlock(Blocks(packets), mem[..], getOff, addOff);
      BlocksSplit(packets);
    }

    // inc_msg_size followed by multicast_dest_list::add_dests on the last packet.
    method AddDests(mmsg: nat, destBegin: nat, ids: seq<nat>)
      requires Valid() && LastAt(mmsg) && packets[|packets| - 1].Multicast?
      requires destBegin == mmsg + HEADER + |packets[|packets| - 1].body.words|
      requires |ids| <= RemainingSize()
      modifies this`addOff, this`packets, mem
      ensures Valid() && LastAt(mmsg) && packets == Grown(old(packets), ids) && addOff == old(addOff) + |ids|
    {
      ghost var before, ps := mem[..], packets;
      LastMulticast(ps, before, getOff, mmsg, addOff);
      WriteDests(mmsg, destBegin, ids);
      GrownInPlace(ps, ids, before, mem[..], getOff, mmsg, addOff);
      Grow(addOff + |ids|, Grown(ps, ids));
    }

    method Grow(end: nat, ghost ps: seq<Packet>)
      requires getOff <= end <= mem.Length && mem[getOff..end] == Layout(ps) && numObjs == |ps|
      modifies this`addOff, this`packets
      ensures Valid() && packets == ps && addOff == end
    {
      addOff, packets := end, ps;
    }

    // Copies the ids behind the destinations there are, and updates count and size in place.
    method WriteDests(mmsg: nat, destBegin: nat, ids: seq<nat>)
      requires mmsg + HEADER <= destBegin && mmsg + 1 < mem.Length && mem[mmsg].Head? && mem[mmsg + 1].Data?
      requires destBegin + mem[mmsg + 1].v + |ids| <= mem.Length
      modifies mem
      ensures Written(old(mem[..]), mem[..], mmsg, destBegin + old(mem[mmsg + 1].v), ids)
    {
      var count, head := mem[mmsg + 1].v, mem[mmsg];
      forall i | 0 <= i < |ids| {
        mem[destBegin + count + i] := Data(ids[i]);
      }
      mem[mmsg + 1] := Data(count + |ids|);
      mem[mmsg] := head.(size := head.size + |ids|);
    }

    // Takes the last packet, of the given size, out again.
    method RemoveLast(size: nat)
      requires Valid() && packets != [] && size == Size(packets[|packets| - 1])
      modifies this`addOff, this`numObjs, this`packets
      ensures Valid() && packets == old(packets)[..|old(packets)| - 1] && addOff == old(addOff) - size
    {
      LastHead(addOff - size);
      numObjs := numObjs - 1;
      addOff := addOff - size;
      packets := packets[..|packets| - 1];
    }

    // The packet to be read next, and its size.
    method Peek() returns (p: Packet, size: nat)
      requires Valid() && numObjs > 0
      ensures p == packets[0] && getOff + size <= addOff && mem[getOff + size..addOff] == Layout(packets[1..])
    {
      var cells := mem[..];
      Slice(cells, mem, getOff, addOff);
      FirstPacket(packets, cells, getOff, addOff);
      p, size := Decode(cells, getOff), SizeAt(cells, getOff);
      Slice(cells, mem, getOff + size, addOff);
    }

    // Reads one packet: deserialize, then step over its size.
    method ReadOne() returns (p: Packet)
      requires Valid() && numObjs > 0
      modifies this`getOff, this`numObjs, this`packets
      ensures Valid() && p == old(packets)[0] && packets == old(packets)[1..] && numObjs == old(numObjs) - 1
    {
      var size;
      p, size := Peek();
      getOff, numObjs, packets := getOff + size, numObjs - 1, packets[1..];
    }

    // Reads up to num packets.
    method GetNext(num: nat) returns (r: seq<Packet>)
      requires Valid()
      modifies this`getOff, this`numObjs, this`packets
      ensures Valid() && |r| == (if num < |old(packets)| then num else |old(packets)|)
      ensures old(packets) == r + packets
    {
      r := [];
      while numObjs > 0 && |r| < num
        invariant Valid() && |r| <= num && old(packets) == r + packets
        decreases numObjs
      {
        ghost var all, rest := r + packets, packets;
        var p := ReadOne();
        ReadMore(r, rest);
        r := r + [p];
      }
    }

    // A new buffer takes the place of one that has been handed over.
    method Reset()
      modifies this`getOff, this`addOff, this`numObjs, this`packets
      ensures Valid() && packets == [] && addOff == getOff == 0
    {
      getOff, addOff, numObjs, packets := 0, 0, 0, [];
    }

    // Seals the buffer for the queue.
    method Seal() returns (s: Sealed)
      requires Valid() && getOff == 0
      ensures s == Sealed(mem[..addOff], numObjs)
      ensures s.Whole() && s.Packets() == packets
    {
      s := Sealed(mem[..addOff], numObjs);
      ParseLayout(packets, s.cells, 0, |s.cells|);
    }
  }

  lemma {:induction false} Slice(cells: seq<Cell>, mem: array<Cell>, lo: nat, hi: nat)
    requires cells == mem[..] && lo <= hi <= mem.Length
    ensures cells[lo..hi] == mem[lo..hi]
  {
  }

  lemma {:induction false} ReadMore(r: seq<Packet>, rest: seq<Packet>)
    requires rest != []
    ensures r + rest == (r + [rest[0]]) + rest[1..]
  {
  }

  // The cells of a multicast after more destinations have been written behind it.
  lemma {:induction false} GrownCells(p: Packet, ids: seq<nat>, before: seq<Cell>, after: seq<Cell>, off: nat)
    requires p.Multicast? && |before| == |after| && off + Size(p) + |ids| <= |before|
    requires before[off..off + Size(p)] == Encode(p)
    requires after[off] == Encode(p)[0].(size := Size(p) + |ids|) && after[off + 1] == Data(|p.dests| + |ids|)
    requires forall i :: off + HEADER <= i < off + Size(p) ==> after[i] == before[i]
    requires forall i :: 0 <= i < |ids| ==> after[off + Size(p) + i] == Data(ids[i])
    ensures after[off..off + Size(p) + |ids|] == Encode(Multicast(p.body, p.dests + ids))
  {
    var e, g := Encode(p), Encode(Multicast(p.body, p.dests + ids));
    var slice := after[off..off + |e| + |ids|];
    assert |slice| == |g|;
    forall i | 0 <= i < |g| ensures slice[i] == g[i] {
      if HEADER <= i < |e| {
        assert before[off..off + |e|][i] == before[off + i];
      } else if i >= |e| {
        assert after[off + |e| + (i - |e|)] == Data(ids[i - |e|]);
      }
    }
  }

  lemma {:induction false} GrownBlocks(ps: seq<Packet>, ids: seq<nat>, b: seq<Cell>)
    requires ps != [] && ps[|ps| - 1].Multicast?
    requires b == Encode(Multicast(ps[|ps| - 1].body, ps[|ps| - 1].dests + ids))
    ensures |Grown(ps, ids)| == |ps| && Blocks(Grown(ps, ids))[..|ps| - 1] == Blocks(ps)[..|ps| - 1]
    ensures Blocks(Grown(ps, ids))[|ps| - 1] == b
  {
  }

  // The last packet, a multicast, as it lies in the cells.
  lemma {:induction false} LastMulticast(ps: seq<Packet>, cells: seq<Cell>, lo: nat, off: nat, hi: nat)
    requires ps != [] && ps[|ps| - 1].Multicast? && lo <= hi <= |cells| && cells[lo..hi] == Layout(ps)
    requires off + Size(ps[|ps| - 1]) == hi
    ensures
      var last := ps[|ps| - 1];
      && lo <= off && off + HEADER + |last.body.words| + |last.dests| == hi
      && cells[off].Head? && cells[off + 1] == Data(|last.dests|)
      && cells[off..hi] == Encode(last) && cells[off] == Encode(last)[0]
  {
    var last := ps[|ps| - 1];
    LastEncoded(ps, cells, lo, off, hi);
    HeaderAt(last, cells, off);
    assert Encode(last)[0].Head? && Encode(last)[1] == Data(|last.dests|);
  }

  lemma {:induction false} LastEncoded(ps: seq<Packet>, cells: seq<Cell>, lo: nat, off: nat, hi: nat)
    requires ps != [] && lo <= hi <= |cells| && cells[lo..hi] == Layout(ps) && off + Size(ps[|ps| - 1]) == hi
    ensures lo <= off && cells[off..hi] == Encode(ps[|ps| - 1])
  {
    LastBlock(Blocks(ps), cells, lo, hi);
  }

  // Ids written from `end` on, and the header at off adjusted.
  ghost predicate Written(before: seq<Cell>, after: seq<Cell>, off: nat, end: nat, ids: seq<nat>) {
    && |before| == |after| && off + HEADER <= end && end + |ids| <= |before| && before[off].Head? && before[off + 1].Data?
    && (forall i :: 0 <= i < off || off + HEADER <= i < end ==> after[i] == before[i])
    && after[off] == before[off].(size := before[off].size + |ids|) && after[off + 1] == Data(before[off + 1].v + |ids|)
    && forall i :: 0 <= i < |ids| ==> after[end + i] == Data(ids[i])
  }

  // Writing ids behind it and adjusting its header makes it the grown packet.
  lemma {:induction false} GrownInPlace(ps: seq<Packet>, ids: seq<nat>, before: seq<Cell>, after: seq<Cell>, lo: nat, off: nat, hi: nat)
    requires ps != [] && ps[|ps| - 1].Multicast? && Written(before, after, off, hi, ids)
    requires lo <= hi && before[lo..hi] == Layout(ps) && off + Size(ps[|ps| - 1]) == hi
    ensures after[lo..hi + |ids|] == Layout(Grown(ps, ids))
    ensures off + Size(Grown(ps, ids)[|ps| - 1]) == hi + |ids|
  {
    var b := after[off..hi + |ids|];
    GrownBlock(ps, ids, before, after, lo, off, hi, b);
    LastLength(ps);
    GrownSize(ps, ids);
    GrownLayout(ps, ids, before, after, lo, off, hi, b);
  }

  lemma {:induction false} GrownSize(ps: seq<Packet>, ids: seq<nat>)
    requires ps != [] && ps[|ps| - 1].Multicast?
    ensures |Grown(ps, ids)| == |ps| && Size(Grown(ps, ids)[|ps| - 1]) == Size(ps[|ps| - 1]) + |ids|
  {
  }

  lemma {:induction false} GrownLayout(ps: seq<Packet>, ids: seq<nat>, before: seq<Cell>, after: seq<Cell>, lo: nat, off: nat, hi: nat, b: seq<Cell>)
    requires ps != [] && ps[|ps| - 1].Multicast? && |before| == |after|
    requires lo <= hi && hi + |ids| <= |before| && before[lo..hi] == Layout(ps) && lo <= off && off + |Blocks(ps)[|ps| - 1]| == hi
    requires (forall i :: lo <= i < off ==> after[i] == before[i]) && b == after[off..hi + |ids|]
    requires |Grown(ps, ids)| == |ps| && Blocks(Grown(ps, ids))[..|ps| - 1] == Blocks(ps)[..|ps| - 1]
    requires Blocks(Grown(ps, ids))[|ps| - 1] == b
    ensures after[lo..hi + |ids|] == Layout(Grown(ps, ids))
  {
    SwapLast(Blocks(ps), Blocks(Grown(ps, ids)), before, after, lo, off, hi, hi + |ids|);
  }

  lemma {:induction false} LastLength(ps: seq<Packet>)
    requires ps != []
    ensures |Blocks(ps)[|ps| - 1]| == Size(ps[|ps| - 1])
  {
  }

  lemma {:induction false} GrownBlock(ps: seq<Packet>, ids: seq<nat>, before: seq<Cell>, after: seq<Cell>, lo: nat, off: nat, hi: nat, b: seq<Cell>)
    requires ps != [] && ps[|ps| - 1].Multicast? && Written(before, after, off, hi, ids)
    requires lo <= hi && before[lo..hi] == Layout(ps) && off + Size(ps[|ps| - 1]) == hi
    requires b == after[off..hi + |ids|]
    ensures lo <= off && |Grown(ps, ids)| == |ps| && Blocks(Grown(ps, ids))[..|ps| - 1] == Blocks(ps)[..|ps| - 1]
    ensures Blocks(Grown(ps, ids))[|ps| - 1] == b
  {
    LastMulticast(ps, before, lo, off, hi);
    GrownCells(ps[|ps| - 1], ids, before, after, off);
    GrownBlocks(ps, ids, b);
  }
}
