/**
 The answers to the I/O requests of vertices that asked for their own adjacency lists: the
 arrays of bytes are taken apart into the lists, and each vertex runs on its own.
 */
module SelfCompute {
  import opened SelfRequests

  // An adjacency list in the file starts with its header, which has the id of the vertex and
  // the size of the list; nothing is assumed of the rest.
  datatype Cell = Head(id: nat, size: Size) | Body(value: nat)

  ghost predicate Starts(file: seq<Cell>, p: Part, id: nat)
    requires id < |p.sizes|
  {
    p.At(id) < |file| && file[p.At(id)] == Head(id, p.sizes[id])
  }

  ghost predicate Holds(file: seq<Cell>, p: Part) {
    && p.At(|p.sizes|) <= |file|
    && forall id: nat :: id < |p.sizes| ==> Starts(file, p, id)
  }

  // The bytes of one vertex.
  ghost function Own(file: seq<Cell>, p: Part, id: nat): seq<Cell> {
    if id < |p.sizes| && p.At(id) <= p.At(id + 1) <= |file| then file[p.At(id)..p.At(id + 1)] else []
  }

  // A vertex that ran, with the adjacency lists it ran on.
  datatype Ran = Ran(id: nat, lists: seq<seq<Cell>>)

  ghost function OwnRun(file: seq<Cell>, ps: seq<Part>, id: nat): Ran
    requires 1 <= |ps| <= 2
  {
    if |ps| == 1 then Ran(id, [Own(file, ps[0], id)]) else Ran(id, [Own(file, ps[0], id), Own(file, ps[1], id)])
  }

  // An array that arrived: the bytes of one span.
  datatype Arr = Arr(off: nat, bytes: seq<Cell>)

  ghost predicate From(a: Arr, s: Span, file: seq<Cell>) {
    s.lo <= s.hi <= |file| && a.off == s.lo && a.bytes == file[s.lo..s.hi]
  }

  // The list at an offset of an array, as its header tells.
  predicate Parses(a: Arr, off: nat) {
    off < |a.bytes| && a.bytes[off].Head? && off + a.bytes[off].size <= |a.bytes|
  }

  function Parse(a: Arr, off: nat): seq<Cell>
    requires Parses(a, off)
  {
    a.bytes[off..off + a.bytes[off].size]
  }

  lemma {:induction false} SliceOfSlice<T>(s: seq<T>, lo: nat, hi: nat, i: nat, j: nat)
    requires lo <= hi <= |s| && i <= j <= hi - lo
    ensures s[lo..hi][i..j] == s[lo + i..lo + j]
  {
    var t := s[lo..hi];
    assert |t[i..j]| == |s[lo + i..lo + j]|;
    forall k | 0 <= k < j - i ensures t[i..j][k] == s[lo + i..lo + j][k] {
      assert t[i..j][k] == t[i + k] == s[lo + i + k];
    }
  }

  // At this offset of the array, the vertex finds its own bytes, and behind them begins the
  // next vertex.
  ghost predicate Finds(a: Arr, off: nat, p: Part, file: seq<Cell>, id: nat) {
    && id < |p.sizes| && Parses(a, off) && a.bytes[off].id == id
    && Parse(a, off) == Own(file, p, id) && |Own(file, p, id)| > 0
    && a.off + off + |Own(file, p, id)| == p.At(id + 1)
  }

  lemma {:induction false} FindsOwn(a: Arr, off: nat, s: Span, file: seq<Cell>, p: Part, id: nat)
    requires Holds(file, p) && From(a, s, file) && id < |p.sizes|
    requires a.off + off == p.At(id) && p.At(id + 1) <= s.hi
    ensures Finds(a, off, p, file, id)
  {
    assert Starts(file, p, id);
    var size := p.sizes[id];
    assert p.At(id + 1) == p.At(id) + size;
    assert a.bytes[off] == file[s.lo + off] == Head(id, p.sizes[id]);
    SliceOfSlice(file, s.lo, s.hi, off, off + size);
  }

  // ----- which vertices a list of ranges stands for

  function Ids(r: Range): seq<nat>
    requires r.first <= r.last
    decreases r.last
  {
    if r.first == r.last then [] else Ids(Range(r.first, r.last - 1)) + [r.last - 1]
  }

  predicate Ordered(rs: seq<Range>) {
    forall i :: 0 <= i < |rs| ==> rs[i].first <= rs[i].last
  }

  // The vertices of the first n ranges.
  function IdsUpTo(rs: seq<Range>, n: nat): seq<nat>
    requires Ordered(rs) && n <= |rs|
  {
    if n == 0 then [] else IdsUpTo(rs, n - 1) + Ids(rs[n - 1])
  }

  function IdsOf(rs: seq<Range>): seq<nat>
    requires Ordered(rs)
  {
    IdsUpTo(rs, |rs|)
  }

  lemma {:induction false} IdsPrefix(a: seq<Range>, c: seq<Range>, n: nat)
    requires Ordered(a) && Ordered(c) && n <= |a| && n <= |c| && forall i :: 0 <= i < n ==> a[i] == c[i]
    ensures IdsUpTo(a, n) == IdsUpTo(c, n)
  {
    if n > 0 { IdsPrefix(a, c, n - 1); }
  }

  lemma {:induction false} OrderedAppend(a: seq<Range>, b: seq<Range>)
    requires Ordered(a) && Ordered(b)
    ensures Ordered(a + b)
  {
  }

  lemma {:induction false} IdsAppend(a: seq<Range>, b: seq<Range>, c: seq<Range>, k: nat)
    requires Ordered(a) && Ordered(b) && Ordered(c) && k <= |b| && |c| == |a| + |b|
    requires (forall i :: 0 <= i < |a| ==> c[i] == a[i]) && forall i: nat :: i < |b| ==> c[|a| + i] == b[i]
    ensures IdsUpTo(c, |a| + k) == IdsOf(a) + IdsUpTo(b, k)
  {
    if k == 0 {
      IdsPrefix(a, c, |a|);
    } else {
      IdsAppend(a, b, c, k - 1);
      Assoc(IdsOf(a), IdsUpTo(b, k - 1), Ids(b[k - 1]));
      assert c[|a| + (k - 1)] == b[k - 1];
    }
  }

  lemma {:induction false} IdsIn(r: Range, id: nat)
    requires r.first <= r.last
    ensures id in Ids(r) <==> r.first <= id < r.last
    decreases r.last
  {
    if r.first < r.last { IdsIn(Range(r.first, r.last - 1), id); }
  }

  // Proper ranges list every vertex they cover, and in strictly increasing order.
  lemma {:induction false} IdsOfIn(rs: seq<Range>, n: nat, id: nat)
    requires Ordered(rs) && n <= |rs|
    ensures id in IdsUpTo(rs, n) <==> Covers(rs[..n], id)
  {
    if n > 0 {
      IdsOfIn(rs, n - 1, id);
      IdsIn(rs[n - 1], id);
      CoversSnoc(rs[..n - 1], rs[n - 1], id);
      assert rs[..n - 1] + [rs[n - 1]] == rs[..n];
    }
  }

  ghost predicate Increasing(v: seq<nat>) {
    forall i, j :: 0 <= i < j < |v| ==> v[i] < v[j]
  }

  lemma {:induction false} IdsIncreasing(r: Range)
    requires r.first <= r.last
    ensures Increasing(Ids(r)) && forall i :: 0 <= i < |Ids(r)| ==> r.first <= Ids(r)[i] < r.last
    decreases r.last
  {
    if r.first < r.last { IdsIncreasing(Range(r.first, r.last - 1)); }
  }

  lemma {:induction false} IdsOfIncreasing(rs: seq<Range>, n: nat)
    requires Proper(rs) && n <= |rs|
    ensures Increasing(IdsUpTo(rs, n))
    ensures n > 0 ==> forall i :: 0 <= i < |IdsUpTo(rs, n)| ==> IdsUpTo(rs, n)[i] < rs[n - 1].last
  {
    if n > 0 {
      IdsOfIncreasing(rs, n - 1);
      IdsIncreasing(rs[n - 1]);
    }
  }

  // ----- running the vertices

  // Exactly these vertices ran, in this order, each on its own bytes.
  ghost predicate RanOwn(run: seq<Ran>, ids: seq<nat>, file: seq<Cell>, ps: seq<Part>)
    requires 1 <= |ps| <= 2
  {
    |run| == |ids| && forall i :: 0 <= i < |ids| ==> run[i] == OwnRun(file, ps, ids[i])
  }

  lemma {:induction false} RanMore(run: seq<Ran>, ids: seq<nat>, more: seq<Ran>, others: seq<nat>, file: seq<Cell>, ps: seq<Part>)
    requires 1 <= |ps| <= 2 && RanOwn(run, ids, file, ps) && RanOwn(more, others, file, ps)
    ensures RanOwn(run + more, ids + others, file, ps)
  {
  }

  lemma {:induction false} RanOne(run: seq<Ran>, r: Range, id: nat, file: seq<Cell>, ps: seq<Part>, one: Ran)
    requires 1 <= |ps| <= 2 && r.first <= id && RanOwn(run, Ids(Range(r.first, id)), file, ps) && one == OwnRun(file, ps, id)
    ensures RanOwn(run + [one], Ids(Range(r.first, id + 1)), file, ps)
  {
    RanMore(run, Ids(Range(r.first, id)), [one], [id], file, ps);
  }

  // The array that arrived for one part of a request.
  ghost predicate Ready(a: Arr, s: Span, rs: seq<Range>, file: seq<Cell>, p: Part, gap: nat) {
    Holds(file, p) && From(a, s, file) && PlannedOn(rs, s, p, gap)
  }

  lemma {:induction false} ReadyFinds(a: Arr, off: nat, s: Span, rs: seq<Range>, file: seq<Cell>, p: Part, gap: nat, i: nat, id: nat)
    requires Ready(a, s, rs, file, p, gap) && i < |rs| && rs[i].first <= id < rs[i].last
    requires id < |p.sizes| ==> a.off + off == p.At(id)
    ensures Finds(a, off, p, file, id)
  {
    RangeCovered(rs, s, p, gap, i);
    AtGrows(p, id + 1, rs[i].last);
    FindsOwn(a, off, s, file, p, id);
  }

  lemma {:induction false} ReadyStarts(a: Arr, s: Span, rs: seq<Range>, file: seq<Cell>, p: Part, gap: nat, i: nat)
    requires Ready(a, s, rs, file, p, gap) && i < |rs|
    ensures rs[i].first < rs[i].last <= |p.sizes| && a.off <= p.At(rs[i].first)
  {
    RangeCovered(rs, s, p, gap, i);
  }

  // run_on_array: the lists of one range, one after the other.
  method RunRange(rs: seq<Range>, i: nat, a: Arr, p: Part, ghost s: Span, ghost file: seq<Cell>, ghost gap: nat)
    returns (run: seq<Ran>)
    requires Ready(a, s, rs, file, p, gap) && i < |rs|
    ensures rs[i].first <= rs[i].last && RanOwn(run, Ids(rs[i]), file, [p])
  {
    ReadyStarts(a, s, rs, file, p, gap, i);
    var r := rs[i];
    var off: nat, id := p.At(r.first) - a.off, r.first;
    run := [];
    while id < r.last
      invariant r.first <= id <= r.last && a.off + off == p.At(id)
      invariant RanOwn(run, Ids(Range(r.first, id)), file, [p])
    {
      ReadyFinds(a, off, s, rs, file, p, gap, i, id);
      var list := Parse(a, off);
      RanOne(run, r, id, file, [p], Ran(a.bytes[off].id, [list]));
      run := run + [Ran(a.bytes[off].id, [list])];
      off, id := off + |list|, id + 1;
    }
  }

  // run_on_arrays: in-list and out-list side by side.
  method RunRangeBoth(rs: seq<Range>, i: nat, a: Arr, b: Arr, p: Part, q: Part, ghost s: Span, ghost t: Span,
                      ghost file: seq<Cell>, ghost gap: nat)
    returns (run: seq<Ran>)
    requires Ready(a, s, rs, file, p, gap) && Ready(b, t, rs, file, q, gap) && i < |rs|
    ensures rs[i].first <= rs[i].last && RanOwn(run, Ids(rs[i]), file, [p, q])
  {
    ReadyStarts(a, s, rs, file, p, gap, i);
    ReadyStarts(b, t, rs, file, q, gap, i);
    var r := rs[i];
    var inOff: nat, outOff: nat, id := p.At(r.first) - a.off, q.At(r.first) - b.off, r.first;
    run := [];
    while id < r.last
      invariant r.first <= id <= r.last && a.off + inOff == p.At(id) && b.off + outOff == q.At(id)
      invariant RanOwn(run, Ids(Range(r.first, id)), file, [p, q])
    {
      ReadyFinds(a, inOff, s, rs, file, p, gap, i, id);
      ReadyFinds(b, outOff, t, rs, file, q, gap, i, id);
      var ins, outs := Parse(a, inOff), Parse(b, outOff);
      RanOne(run, r, id, file, [p, q], Ran(a.bytes[inOff].id, [ins, outs]));
      run := run + [Ran(a.bytes[inOff].id, [ins, outs])];
      inOff, outOff, id := inOff + |ins|, outOff + |outs|, id + 1;
    }
  }

  // All ranges of a request for one kind of edges.
  method RunArray(rs: seq<Range>, a: Arr, p: Part, ghost s: Span, ghost file: seq<Cell>, ghost gap: nat)
    returns (run: seq<Ran>)
    requires Ready(a, s, rs, file, p, gap)
    ensures Ordered(rs) && RanOwn(run, IdsOf(rs), file, [p])
  {
    run := [];
    for i := 0 to |rs|
      invariant Ordered(rs) && RanOwn(run, IdsUpTo(rs, i), file, [p])
    {
      var more := RunRange(rs, i, a, p, s, file, gap);
      RanMore(run, IdsUpTo(rs, i), more, Ids(rs[i]), file, [p]);
      run := run + more;
    }
  }

  // All ranges of a request for both kinds of edges.
  method RunArrays(rs: seq<Range>, a: Arr, b: Arr, p: Part, q: Part, ghost s: Span, ghost t: Span,
                   ghost file: seq<Cell>, ghost gap: nat)
    returns (run: seq<Ran>)
    requires Ready(a, s, rs, file, p, gap) && Ready(b, t, rs, file, q, gap)
    ensures Ordered(rs) && RanOwn(run, IdsOf(rs), file, [p, q])
  {
    run := [];
    for i := 0 to |rs|
      invariant Ordered(rs) && RanOwn(run, IdsUpTo(rs, i), file, [p, q])
    {
      var more := RunRangeBoth(rs, i, a, b, p, q, s, t, file, gap);
      RanMore(run, IdsUpTo(rs, i), more, Ids(rs[i]), file, [p, q]);
      run := run + more;
    }
  }

  // ----- the requests of one compute and their answers

  // A file that holds the parts; the out-part follows the in-part.
  ghost predicate Stored(file: seq<Cell>, ps: seq<Part>, n: nat) {
    && Parts(ps, n) && (forall k :: 0 <= k < |ps| ==> Holds(file, ps[k]))
    && (|ps| == 2 ==> ps[0].At(n) <= ps[1].base)
  }

  lemma {:induction false} IsReady(io: Io, ps: seq<Part>, n: nat, file: seq<Cell>, gap: nat, a: Arr, k: nat)
    requires Stored(file, ps, n) && Planned(io, ps, gap) && k < |ps| && From(a, io.spans[k], file)
    ensures Ready(a, io.spans[k], io.ranges, file, ps[k], gap)
  {
  }

  // The offset of an array tells its part.
  lemma {:induction false} Sides(io: Io, ps: seq<Part>, n: nat, file: seq<Cell>, gap: nat)
    requires Stored(file, ps, n) && Planned(io, ps, gap) && |ps| == 2
    ensures io.spans[0].lo < ps[1].base <= io.spans[1].lo
  {
    assert PlannedOn(io.ranges, io.spans[0], ps[0], gap) && PlannedOn(io.ranges, io.spans[1], ps[1], gap);
    AtGrows(ps[0], io.ranges[0].first, n);
    AtGrows(ps[1], 0, io.ranges[0].first);
  }

  // The compute of a request. For both kinds of edges it waits for two arrays, which may
  // arrive in either order, and keeps the first one until then.
  class DirectedCompute {
    const io: Io
    const ps: seq<Part>
    var buffered: seq<Arr>
    var ran: seq<Ran>

    constructor (io: Io, ps: seq<Part>)
      ensures this.io == io && this.ps == ps && buffered == [] && ran == []
    {
      this.io, this.ps, buffered, ran := io, ps, [], [];
    }

    method Run(arr: Arr, ghost k: nat, ghost file: seq<Cell>, ghost n: nat, ghost gap: nat)
      requires Stored(file, ps, n) && Planned(io, ps, gap) && k < |ps| && From(arr, io.spans[k], file)
      requires buffered != [] ==> |ps| == 2 && From(buffered[0], io.spans[1 - k], file)
      modifies this
      ensures |ps| == 2 && old(buffered) == [] ==> buffered == [arr] && ran == old(ran)
      ensures |ps| == 1 || old(buffered) != [] ==> Ordered(io.ranges) && RanOwn(ran, IdsOf(io.ranges), file, ps)
    {
      IsReady(io, ps, n, file, gap, arr, k);
      if |ps| == 1 {
        assert ps == [ps[0]];
        ran := RunArray(io.ranges, arr, ps[0], io.spans[0], file, gap);
      } else if buffered == [] {
        buffered := [arr];
      } else {
        Sides(io, ps, n, file, gap);
        IsReady(io, ps, n, file, gap, buffered[0], 1 - k);
        assert ps == [ps[0], ps[1]];
        if buffered[0].off < ps[1].base {
          ran := RunArrays(io.ranges, buffered[0], arr, ps[0], ps[1], io.spans[0], io.spans[1], file, gap);
        } else {
          ran := RunArrays(io.ranges, arr, buffered[0], ps[0], ps[1], io.spans[0], io.spans[1], file, gap);
        }
      }
    }
  }

  lemma {:induction false} SpansInFile(io: Io, ps: seq<Part>, n: nat, file: seq<Cell>, gap: nat, k: nat)
    requires Stored(file, ps, n) && Planned(io, ps, gap) && k < |ps|
    ensures io.spans[k].lo <= io.spans[k].hi <= |file|
  {
    RangeCovered(io.ranges, io.spans[k], ps[k], gap, 0);
    AtGrows(ps[k], io.ranges[|io.ranges| - 1].last, n);
  }

  // The bytes of one span.
  function Read(file: seq<Cell>, s: Span): Arr
    requires s.lo <= s.hi <= |file|
  {
    Arr(s.lo, file[s.lo..s.hi])
  }

  // Whichever array arrives first, the vertices of the request run on their own lists.
  method Serve(io: Io, ps: seq<Part>, file: seq<Cell>, inFirst: bool, ghost n: nat, ghost gap: nat) returns (run: seq<Ran>)
    requires Stored(file, ps, n) && Planned(io, ps, gap)
    ensures Ordered(io.ranges) && RanOwn(run, IdsOf(io.ranges), file, ps)
  {
    var compute := new DirectedCompute(io, ps);
    SpansInFile(io, ps, n, file, gap, 0);
    if |ps| == 1 {
      compute.Run(Read(file, io.spans[0]), 0, file, n, gap);
    } else {
      SpansInFile(io, ps, n, file, gap, 1);
      var a, b := Read(file, io.spans[0]), Read(file, io.spans[1]);
      if inFirst {
        compute.Run(a, 0, file, n, gap);
        compute.Run(b, 1, file, n, gap);
      } else {
        compute.Run(b, 1, file, n, gap);
        compute.Run(a, 0, file, n, gap);
      }
    }
    run := compute.ran;
  }

  lemma {:induction false} IdsOfNext(ios: seq<Io>, i: nat)
    requires i < |ios| && Ordered(AllRanges(ios, i)) && Ordered(ios[i].ranges)
    ensures Ordered(AllRanges(ios, i + 1))
    ensures IdsOf(AllRanges(ios, i + 1)) == IdsOf(AllRanges(ios, i)) + IdsOf(ios[i].ranges)
  {
    var a, b := AllRanges(ios, i), ios[i].ranges;
    OrderedAppend(a, b);
    assert AllRanges(ios, i + 1) == a + b;
    IdsAppend(a, b, a + b, |b|);
  }

  // All requests, one after the other.
  method ServeAll(ios: seq<Io>, ps: seq<Part>, file: seq<Cell>, inFirst: nat -> bool, ghost n: nat, ghost gap: nat)
    returns (run: seq<Ran>)
    requires Stored(file, ps, n) && AllPlanned(ios, ps, gap)
    ensures Ordered(RangesOf(ios)) && RanOwn(run, IdsOf(RangesOf(ios)), file, ps)
  {
    run := [];
    for i := 0 to |ios|
      invariant Ordered(AllRanges(ios, i)) && RanOwn(run, IdsOf(AllRanges(ios, i)), file, ps)
    {
      var more := Serve(ios[i], ps, file, inFirst(i), n, gap);
      IdsOfNext(ios, i);
      RanMore(run, IdsOf(AllRanges(ios, i)), more, IdsOf(ios[i].ranges), file, ps);
      run := run + more;
    }
  }

  lemma {:induction false} RunOrder(rs: seq<Range>, ids: seq<nat>)
    requires Proper(rs) && forall id :: Covers(rs, id) <==> id in ids
    ensures Ordered(rs) && Increasing(IdsOf(rs)) && forall id :: id in IdsOf(rs) <==> id in ids
  {
    IdsOfIncreasing(rs, |rs|);
    assert rs[..|rs|] == rs;
    forall id: nat ensures id in IdsOf(rs) <==> id in ids { IdsOfIn(rs, |rs|, id); }
  }

  function RunIds(run: seq<Ran>): (r: seq<nat>)
    ensures |r| == |run| && forall i :: 0 <= i < |run| ==> r[i] == run[i].id
  {
    seq(|run|, i requires 0 <= i < |run| => run[i].id)
  }

  // From the requested ids to the vertices run: every requested vertex runs exactly once, on
  // its own bytes of every part, and no other vertex does.
  method RequestAndRun(ids: seq<nat>, ps: seq<Part>, file: seq<Cell>, ghost n: nat, gap: nat, room: nat, inMem: bool, width: nat,
                       inFirst: nat -> bool)
    returns (run: seq<Ran>)
    requires Distinct(ids) && Stored(file, ps, n) && forall i :: 0 <= i < |ids| ==> ids[i] < n
    ensures Increasing(RunIds(run)) && forall id :: id in RunIds(run) <==> id in ids
    ensures forall i :: 0 <= i < |run| ==> run[i] == OwnRun(file, ps, run[i].id)
  {
    var reqs := RequestVertices(ids);
    var ios := ProcessSelfRequests(reqs, ps, n, gap, room, inMem, width);
    run := ServeAll(ios, ps, file, inFirst, n, gap);
    RunOrder(RangesOf(ios), ids);
    assert RunIds(run) == IdsOf(RangesOf(ios));
  }

  // What its own bytes are: they begin with the header of the vertex and have its size.
  lemma {:induction false} OwnBytes(file: seq<Cell>, p: Part, id: nat)
    requires Holds(file, p) && id < |p.sizes|
    ensures p.At(id + 1) <= |file| && Own(file, p, id) == file[p.At(id)..p.At(id + 1)]
    ensures |Own(file, p, id)| == p.sizes[id] && Own(file, p, id)[0] == Head(id, p.sizes[id])
  {
    AtGrows(p, id, id + 1);
    AtGrows(p, id + 1, |p.sizes|);
    assert Starts(file, p, id);
  }
}
