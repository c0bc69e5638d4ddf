/**
 Requests to the vertex index are sorted by vertex and answered in batches: dense ones of
 consecutive vertices, or general ones with gaps and repetitions.
 */
module IndexBatching {
  import opened CompressedIndex

  const MAX_INDEX_COMPUTE_SIZE: nat := 512

  datatype Request = Request(id: nat, compute: nat)

  // A callback: the compute is run on the vertex with this location.
  datatype Served = Served(compute: nat, id: nat, off: nat, size: nat)

  // The degree list behind an index, and where its first vertex lies.
  datatype Graph = Graph(ds: seq<nat>, base: nat)

  // What a lookup of its own would have answered.
  function Answer(r: Request, g: Graph, e: nat): Served
    requires r.id < |g.ds|
  {
    Served(r.compute, r.id, Offset(g.ds, e, g.base, r.id), VSize(g.ds[r.id], e))
  }

  function Answers(rs: seq<Request>, g: Graph, e: nat): (a: seq<Served>)
    requires InGraph(rs, g)
    ensures |a| == |rs| && forall i :: 0 <= i < |rs| ==> a[i] == Answer(rs[i], g, e)
  {
    seq(|rs|, i requires 0 <= i < |rs| => Answer(rs[i], g, e))
  }

  predicate InGraph(rs: seq<Request>, g: Graph) {
    forall i :: 0 <= i < |rs| ==> rs[i].id < |g.ds|
  }

  predicate SortedById(rs: seq<Request>) {
    forall i, j :: 0 <= i < j < |rs| ==> rs[i].id <= rs[j].id
  }

  // compressed_undirected_index_iterator over the vertices from begin to end.
  class IndexIterator {
    const ix: InMemoryIndex
    const begin: nat
    const end: nat
    var idx: nat
    var currOff: nat
    var nextOff: nat
    var hasNext: bool

    ghost predicate Valid(g: Graph)
      reads this
    {
      && ix.Represents(g.ds, g.base) && end <= |g.ds| && hasNext == (idx < end)
      && (hasNext ==> currOff == Offset(g.ds, ix.e, g.base, idx) && nextOff == Offset(g.ds, ix.e, g.base, idx + 1))
      && (idx == end ==> currOff == Offset(g.ds, ix.e, g.base, idx))
    }

    constructor (ix: InMemoryIndex, first: nat, end: nat, ghost g: Graph)
      requires ix.Represents(g.ds, g.base) && first < end <= |g.ds|
      ensures Valid(g) && this.ix == ix && begin == idx == first && this.end == end
    {
      this.ix, this.begin, this.end, this.idx := ix, first, end, first;
      var off := GetVertex(ix, first, g.ds, g.base);
      var n := GetNumEdges(ix, first, g.ds, g.base);
      currOff, nextOff, hasNext := off, off + VSize(n, ix.e), true;
    }

    method MoveNext(ghost g: Graph)
      requires Valid(g) && hasNext
      modifies this
      ensures Valid(g) && idx == old(idx) + 1
    {
      currOff := nextOff;
      idx := idx + 1;
      hasNext := idx < end;
      if hasNext {
        var n := GetNumEdges(ix, idx, g.ds, g.base);
        nextOff := currOff + VSize(n, ix.e);
      }
    }

    method MoveTo(rel: nat, ghost g: Graph) returns (ok: bool)
      requires ix.Represents(g.ds, g.base) && end <= |g.ds|
      modifies this
      ensures ok == hasNext == (begin + rel < end) && idx == begin + rel && (ok ==> Valid(g))
    {
      idx := begin + rel;
      if idx < end {
        var off := GetVertex(ix, idx, g.ds, g.base);
        var n := GetNumEdges(ix, idx, g.ds, g.base);
        currOff, nextOff, hasNext := off, off + VSize(n, ix.e), true;
      } else {
        hasNext := false;
      }
      ok := hasNext;
    }
  }

  function Consecutive(first: nat, computes: seq<nat>): (r: seq<Request>)
    ensures |r| == |computes| && forall i :: 0 <= i < |r| ==> r[i] == Request(first + i, computes[i])
  {
    seq(|computes|, i requires 0 <= i < |computes| => Request(first + i, computes[i]))
  }

  function Paired(ids: seq<nat>, computes: seq<nat>): (r: seq<Request>)
    requires |ids| == |computes|
    ensures |r| == |ids| && forall i :: 0 <= i < |r| ==> r[i] == Request(ids[i], computes[i])
  {
    seq(|ids|, i requires 0 <= i < |ids| => Request(ids[i], computes[i]))
  }

  // The vertices are consecutive, without repetitions and gaps.
  class DenseBatch {
    var first: nat
    var computes: seq<nat>
    var capacity: nat

    // What the batch has been given.
    ghost function Requests(): seq<Request>
      reads this
    {
      Consecutive(first, computes)
    }

    ghost predicate Valid()
      reads this
    {
      0 < |computes| <= capacity
    }

    constructor (r: Request, capacity: nat)
      requires capacity > 0
      ensures Valid() && Requests() == [r] && this.capacity == capacity
    {
      first, computes, this.capacity := r.id, [r.compute], capacity;
    }

    method AddVertex(r: Request) returns (added: bool)
      requires Valid()
      modifies this
      ensures Valid() && Requests() == if added then old(Requests()) + [r] else old(Requests())
    {
      if capacity <= |computes| {
        if capacity >= MAX_INDEX_COMPUTE_SIZE {
          return false;
        }
        capacity := capacity * 2;
      }
      if first + |computes| == r.id {
        computes := computes + [r.compute];
        added := true;
      } else {
        added := false;
      }
    }

    // Walks the index from the first vertex to the last.
    method Run(ix: InMemoryIndex, ghost g: Graph) returns (served: seq<Served>, done: bool)
      requires Valid() && ix.Represents(g.ds, g.base) && InGraph(Requests(), g)
      ensures served == Answers(Requests(), g, ix.e) && done
    {
      assert Requests()[|computes| - 1].id == first + |computes| - 1;
      var it := new IndexIterator(ix, first, first + |computes|, g);
      served := [];
      var vid := first;
      while it.hasNext
        invariant it.Valid(g) && it.ix == ix && it.idx == vid == first + |served| && it.end == first + |computes| && vid <= it.end
        invariant forall i :: 0 <= i < |served| ==> served[i] == Answer(Requests()[i], g, ix.e)
        decreases it.end - it.idx
      {
        served := served + [Served(computes[vid - first], vid, it.currOff, it.nextOff - it.currOff)];
        vid := vid + 1;
        it.MoveNext(g);
      }
      done := |served| == |computes|;
    }
  }

  // Any vertices in increasing order; out of memory they must be on neighbouring pages.
  class GeneralBatch {
    var ids: seq<nat>
    var computes: seq<nat>
    var capacity: nat
    const inMem: bool
    const entrySize: nat

    ghost predicate Valid()
      reads this
    {
      0 < |ids| == |computes| <= capacity && forall i, j :: 0 <= i < j < |ids| ==> ids[i] <= ids[j]
    }

    ghost function Requests(): seq<Request>
      requires |ids| == |computes|
      reads this
    {
      Paired(ids, computes)
    }

    constructor (r: Request, capacity: nat, inMem: bool, entrySize: nat)
      requires capacity > 0
      ensures Valid() && Requests() == [r] && this.capacity == capacity
    {
      ids, computes, this.capacity, this.inMem, this.entrySize := [r.id], [r.compute], capacity, inMem, entrySize;
    }

    function PageOf(id: nat): nat {
      id * entrySize / 4096
    }

    method AddVertex(r: Request) returns (added: bool)
      requires Valid() && ids[|ids| - 1] <= r.id
      modifies this
      ensures Valid() && Requests() == if added then old(Requests()) + [r] else old(Requests())
    {
      if capacity <= |ids| {
        if capacity >= MAX_INDEX_COMPUTE_SIZE {
          return false;
        }
        capacity := capacity * 2;
      }
      var last := PageOf(ids[|ids| - 1]);
      if inMem || last == PageOf(r.id) || last + 1 == PageOf(r.id) {
        ids, computes := ids + [r.id], computes + [r.compute];
        added := true;
      } else {
        added := false;
      }
    }

    // get_start_idx: the first request for startVid or a vertex behind it.
    method StartIdx(startVid: nat) returns (lo: nat)
      requires Valid() && startVid <= ids[|ids| - 1]
      ensures lo < |ids| && (forall k :: 0 <= k < lo ==> ids[k] < startVid) && forall k :: lo <= k < |ids| ==> startVid <= ids[k]
    {
      if startVid == ids[0] {
        return 0;
      }
      lo := 0;
      var hi := |ids| - 1;
      while lo < hi
        invariant lo <= hi < |ids| && startVid <= ids[hi]
        invariant forall k :: 0 <= k < lo ==> ids[k] < startVid
      {
        var mid := (lo + hi) / 2;
        if ids[mid] < startVid { lo := mid + 1; } else { hi := mid; }
      }
    }

    // Jumps to every requested vertex the iterator covers, from startVid to end; gets counts
    // the vertices answered by earlier calls, lo is where the run starts in the batch.
    method RunFrom(ix: InMemoryIndex, startVid: nat, end: nat, gets: nat, ghost g: Graph)
      returns (served: seq<Served>, done: bool, lo: nat)
      requires Valid() && ix.Represents(g.ds, g.base) && InGraph(Requests(), g)
      requires startVid <= ids[|ids| - 1] && startVid < end <= |g.ds|
      ensures lo + |served| <= |ids| && InGraph(Requests()[lo..lo + |served|], g)
      ensures served == Answers(Requests()[lo..lo + |served|], g, ix.e) && done == (gets + |served| == |ids|)
      ensures forall k :: 0 <= k < |ids| ==> (startVid <= ids[k] < end <==> lo <= k < lo + |served|)
    {
      lo := StartIdx(startVid);
      var i := lo;
      var it := new IndexIterator(ix, startVid, end, g);
      served := [];
      while i < |ids|
        invariant lo <= i <= |ids| && |served| == i - lo && it.ix == ix && it.begin == startVid && it.end == end
        invariant forall k :: lo <= k < i ==> ids[k] < end && served[k - lo] == Answer(Requests()[k], g, ix.e)
      {
        var ok := it.MoveTo(ids[i] - startVid, g);
        if !ok {
          break;
        }
        served := served + [Served(computes[i], ids[i], it.currOff, it.nextOff - it.currOff)];
        i := i + 1;
      }
      done := gets + |served| == |ids|;
    }

    // The whole batch at once.
    method Run(ix: InMemoryIndex, ghost g: Graph) returns (served: seq<Served>, done: bool)
      requires Valid() && ix.Represents(g.ds, g.base) && InGraph(Requests(), g)
      ensures served == Answers(Requests(), g, ix.e) && done
    {
      assert Requests()[|ids| - 1].id == ids[|ids| - 1];
      var lo;
      served, done, lo := RunFrom(ix, ids[0], ids[|ids| - 1] + 1, 0, g);
      assert lo == 0 && |served| == |ids| by {
        assert ids[0] <= ids[0] < ids[|ids| - 1] + 1;
        assert ids[0] <= ids[|ids| - 1] < ids[|ids| - 1] + 1;
      }
      assert Requests()[0..|ids|] == Requests();
    }
  }

  // single_index_compute: a batch of one vertex is answered at the start of the iterator.
  method RunSingle(r: Request, ix: InMemoryIndex, ghost g: Graph) returns (served: seq<Served>)
    requires ix.Represents(g.ds, g.base) && InGraph([r], g)
    ensures served == Answers([r], g, ix.e)
  {
    assert [r][0] == r;
    var it := new IndexIterator(ix, r.id, r.id + 1, g);
    served := [Served(r.compute, r.id, it.currOff, it.nextOff - it.currOff)];
  }

  lemma {:induction false} AnswersAppend(a: seq<Request>, b: seq<Request>, g: Graph, e: nat)
    requires InGraph(a, g) && InGraph(b, g)
    ensures InGraph(a + b, g) && Answers(a + b, g, e) == Answers(a, g, e) + Answers(b, g, e)
  {
  }

  // The first n requests have been answered.
  ghost predicate Done(rs: seq<Request>, g: Graph, e: nat, n: nat, served: seq<Served>) {
    n <= |rs| && InGraph(rs[..n], g) && served == Answers(rs[..n], g, e)
  }

  lemma {:induction false} DoneMore(rs: seq<Request>, g: Graph, e: nat, n: nat, m: nat, served: seq<Served>, more: seq<Served>)
    requires InGraph(rs, g) && Done(rs, g, e, n, served) && n <= m <= |rs|
    requires InGraph(rs[n..m], g) && more == Answers(rs[n..m], g, e)
    ensures Done(rs, g, e, m, served + more)
  {
    assert rs[..m] == rs[..n] + rs[n..m];
    AnswersAppend(rs[..n], rs[n..m], g, e);
  }

  lemma {:induction false} SliceIn(rs: seq<Request>, n: nat, m: nat, g: Graph)
    requires InGraph(rs, g) && n <= m <= |rs|
    ensures InGraph(rs[n..m], g)
  {
  }

  lemma {:induction false} SliceMore(rs: seq<Request>, n: nat, i: nat)
    requires n <= i < |rs|
    ensures rs[n..i + 1] == rs[n..i] + [rs[i]] && rs[i..i + 1] == [rs[i]]
  {
  }

  // Answers the batch that holds the requests from n to m.
  method FlushDense(batch: DenseBatch, rs: seq<Request>, ix: InMemoryIndex, ghost g: Graph, ghost n: nat, ghost m: nat, before: seq<Served>)
    returns (served: seq<Served>)
    requires InGraph(rs, g) && ix.Represents(g.ds, g.base) && n <= m <= |rs| && Done(rs, g, ix.e, n, before)
    requires batch.Valid() && batch.Requests() == rs[n..m]
    ensures Done(rs, g, ix.e, m, served)
  {
    SliceIn(rs, n, m, g);
    var more, done;
    if |batch.computes| == 1 {
      assert batch.Requests() == [Request(batch.first, batch.computes[0])];
      more := RunSingle(Request(batch.first, batch.computes[0]), ix, g);
    } else {
      more, done := batch.Run(ix, g);
    }
    DoneMore(rs, g, ix.e, n, m, before, more);
    served := before + more;
  }

  // One request more: into the batch at hand, or into a new one after that has been answered.
  method AddDense(batch: DenseBatch, rs: seq<Request>, ix: InMemoryIndex, capacity: nat, ghost g: Graph, ghost n: nat, i: nat,
                  before: seq<Served>)
    returns (next: DenseBatch, ghost m: nat, served: seq<Served>)
    requires InGraph(rs, g) && ix.Represents(g.ds, g.base) && capacity > 0 && n < i < |rs|
    requires batch.Valid() && batch.Requests() == rs[n..i] && Done(rs, g, ix.e, n, before)
    modifies batch
    ensures next.Valid() && (next == batch || fresh(next)) && m <= i && next.Requests() == rs[m..i + 1] && Done(rs, g, ix.e, m, served)
  {
    SliceMore(rs, n, i);
    var added := batch.AddVertex(rs[i]);
    if added {
      return batch, n, before;
    }
    served := FlushDense(batch, rs, ix, g, n, i, before);
    next := new DenseBatch(rs[i], capacity);
    m := i;
  }

  // Whatever batches come about, each request is answered once, with its own vertex.
  method ProcessDense(rs: seq<Request>, ix: InMemoryIndex, capacity: nat, ghost g: Graph) returns (served: seq<Served>)
    requires rs != [] && InGraph(rs, g) && ix.Represents(g.ds, g.base) && capacity > 0
    ensures served == Answers(rs, g, ix.e)
  {
    served := [];
    var batch := new DenseBatch(rs[0], capacity);
    ghost var n := 0;
    SliceMore(rs, 0, 0);
    for i := 1 to |rs|
      invariant fresh(batch) && batch.Valid() && 0 <= n < i && batch.Requests() == rs[n..i]
      invariant Done(rs, g, ix.e, n, served)
    {
      batch, n, served := AddDense(batch, rs, ix, capacity, g, n, i, served);
    }
    served := FlushDense(batch, rs, ix, g, n, |rs|, served);
    assert rs[..|rs|] == rs;
  }

  method FlushGeneral(batch: GeneralBatch, rs: seq<Request>, ix: InMemoryIndex, ghost g: Graph, ghost n: nat, ghost m: nat, before: seq<Served>)
    returns (served: seq<Served>)
    requires InGraph(rs, g) && ix.Represents(g.ds, g.base) && n <= m <= |rs| && Done(rs, g, ix.e, n, before)
    requires batch.Valid() && batch.Requests() == rs[n..m]
    ensures Done(rs, g, ix.e, m, served)
  {
    SliceIn(rs, n, m, g);
    var more, done;
    if |batch.ids| == 1 {
      assert batch.Requests() == [Request(batch.ids[0], batch.computes[0])];
      more := RunSingle(Request(batch.ids[0], batch.computes[0]), ix, g);
    } else {
      more, done := batch.Run(ix, g);
    }
    DoneMore(rs, g, ix.e, n, m, before, more);
    served := before + more;
  }

  lemma {:induction false} LastId(ids: seq<nat>, computes: seq<nat>, rs: seq<Request>, n: nat, i: nat)
    requires |ids| == |computes| > 0 && n < i < |rs| && Paired(ids, computes) == rs[n..i] && SortedById(rs)
    ensures ids[|ids| - 1] <= rs[i].id
  {
    assert Paired(ids, computes)[|ids| - 1] == rs[n..i][i - n - 1] == rs[i - 1];
  }

  method AddGeneral(batch: GeneralBatch, rs: seq<Request>, ix: InMemoryIndex, capacity: nat, ghost g: Graph, ghost n: nat, i: nat,
                    before: seq<Served>)
    returns (next: GeneralBatch, ghost m: nat, served: seq<Served>)
    requires SortedById(rs) && InGraph(rs, g) && ix.Represents(g.ds, g.base) && capacity > 0 && n < i < |rs|
    requires batch.Valid() && batch.Requests() == rs[n..i] && Done(rs, g, ix.e, n, before)
    modifies batch
    ensures next.Valid() && (next == batch || fresh(next)) && m <= i && next.Requests() == rs[m..i + 1] && Done(rs, g, ix.e, m, served)
  {
    SliceMore(rs, n, i);
    LastId(batch.ids, batch.computes, rs, n, i);
    var added := batch.AddVertex(rs[i]);
    if added {
      return batch, n, before;
    }
    served := FlushGeneral(batch, rs, ix, g, n, i, before);
    next := new GeneralBatch(rs[i], capacity, batch.inMem, batch.entrySize);
    m := i;
  }

  method ProcessGeneral(rs: seq<Request>, ix: InMemoryIndex, capacity: nat, inMem: bool, entrySize: nat, ghost g: Graph)
    returns (served: seq<Served>)
    requires rs != [] && SortedById(rs) && InGraph(rs, g) && ix.Represents(g.ds, g.base) && capacity > 0
    ensures served == Answers(rs, g, ix.e)
  {
    served := [];
    var batch := new GeneralBatch(rs[0], capacity, inMem, entrySize);
    ghost var n := 0;
    SliceMore(rs, 0, 0);
    for i := 1 to |rs|
      invariant fresh(batch) && batch.Valid() && 0 <= n < i && batch.Requests() == rs[n..i]
      invariant Done(rs, g, ix.e, n, served)
    {
      batch, n, served := AddGeneral(batch, rs, ix, capacity, g, n, i, served);
    }
    served := FlushGeneral(batch, rs, ix, g, n, |rs|, served);
    assert rs[..|rs|] == rs;
  }

  // ----- sorting by vertex

  function InsertById(rs: seq<Request>, r: Request): seq<Request> {
    var n := |rs|;
    if n == 0 || rs[n - 1].id <= r.id then rs + [r] else InsertById(rs[..n - 1], r) + [rs[n - 1]]
  }

  function SortById(rs: seq<Request>, n: nat): seq<Request>
    requires n <= |rs|
  {
    if n == 0 then [] else InsertById(SortById(rs, n - 1), rs[n - 1])
  }

  ghost predicate IdsUpTo(rs: seq<Request>, bound: nat) {
    forall i :: 0 <= i < |rs| ==> rs[i].id <= bound
  }

  lemma {:induction false} InsertSorted(rs: seq<Request>, r: Request, bound: nat)
    requires SortedById(rs) && IdsUpTo(rs, bound) && r.id <= bound
    ensures SortedById(InsertById(rs, r)) && IdsUpTo(InsertById(rs, r), bound)
    decreases |rs|
  {
    var n := |rs|;
    if n > 0 && rs[n - 1].id > r.id {
      assert forall i :: 0 <= i < n - 1 ==> rs[..n - 1][i] == rs[i];
      InsertSorted(rs[..n - 1], r, rs[n - 1].id);
    }
  }

  function Mapped(f: Request -> Served, rs: seq<Request>): (r: seq<Served>)
    ensures |r| == |rs| && forall i :: 0 <= i < |rs| ==> r[i] == f(rs[i])
  {
    seq(|rs|, i requires 0 <= i < |rs| => f(rs[i]))
  }

  lemma {:induction false} MappedSnoc(f: Request -> Served, rs: seq<Request>, r: Request)
    ensures multiset(Mapped(f, rs + [r])) == multiset(Mapped(f, rs)) + multiset{f(r)}
  {
    assert Mapped(f, rs + [r]) == Mapped(f, rs) + [f(r)];
  }

  lemma {:induction false} InsertMapped(f: Request -> Served, rs: seq<Request>, r: Request)
    ensures multiset(Mapped(f, InsertById(rs, r))) == multiset(Mapped(f, rs)) + multiset{f(r)}
    decreases |rs|
  {
    var n := |rs|;
    if n == 0 || rs[n - 1].id <= r.id {
      MappedSnoc(f, rs, r);
    } else {
      var front, last := rs[..n - 1], rs[n - 1];
      assert rs == front + [last];
      InsertMapped(f, front, r);
      MappedSnoc(f, InsertById(front, r), last);
      MappedSnoc(f, front, last);
    }
  }

  function MappedUpTo(f: Request -> Served, rs: seq<Request>, n: nat): multiset<Served>
    requires n <= |rs|
  {
    if n == 0 then multiset{} else MappedUpTo(f, rs, n - 1) + multiset{f(rs[n - 1])}
  }

  lemma {:induction false} MappedPrefix(f: Request -> Served, rs: seq<Request>, answers: seq<Served>, n: nat)
    requires n <= |rs| == |answers| && forall i :: 0 <= i < |rs| ==> answers[i] == f(rs[i])
    ensures multiset(answers[..n]) == MappedUpTo(f, rs, n)
  {
    if n > 0 {
      MappedPrefix(f, rs, answers, n - 1);
      assert answers[..n] == answers[..n - 1] + [answers[n - 1]];
    }
  }

  // Sorting loses no request and invents none.
  lemma {:induction false} SortMapped(f: Request -> Served, rs: seq<Request>, n: nat)
    requires n <= |rs|
    ensures multiset(Mapped(f, SortById(rs, n))) == MappedUpTo(f, rs, n)
  {
    if n > 0 {
      SortMapped(f, rs, n - 1);
      InsertMapped(f, SortById(rs, n - 1), rs[n - 1]);
    }
  }

  lemma {:induction false} InsertInGraph(rs: seq<Request>, r: Request, g: Graph)
    requires InGraph(rs, g) && r.id < |g.ds|
    ensures InGraph(InsertById(rs, r), g)
    decreases |rs|
  {
    if |rs| > 0 && rs[|rs| - 1].id > r.id { InsertInGraph(rs[..|rs| - 1], r, g); }
  }

  lemma {:induction false} InsertLength(rs: seq<Request>, r: Request)
    ensures |InsertById(rs, r)| == |rs| + 1
    decreases |rs|
  {
    if |rs| > 0 && rs[|rs| - 1].id > r.id { InsertLength(rs[..|rs| - 1], r); }
  }

  lemma {:induction false} SortSorted(rs: seq<Request>, g: Graph, n: nat)
    requires InGraph(rs, g) && n <= |rs|
    ensures SortedById(SortById(rs, n)) && InGraph(SortById(rs, n), g) && |SortById(rs, n)| == n
  {
    if n > 0 {
      SortSorted(rs, g, n - 1);
      var s, r := SortById(rs, n - 1), rs[n - 1];
      InsertSorted(s, r, |g.ds|);
      InsertInGraph(s, r, g);
      InsertLength(s, r);
    }
  }

  lemma {:induction false} SortKeeps(rs: seq<Request>, g: Graph, e: nat)
    requires InGraph(rs, g) && InGraph(SortById(rs, |rs|), g)
    ensures multiset(Answers(SortById(rs, |rs|), g, e)) == multiset(Answers(rs, g, e))
  {
    var f := (r: Request) => if r.id < |g.ds| then Answer(r, g, e) else Served(0, 0, 0, 0);
    SortMapped(f, rs, |rs|);
    MappedPrefix(f, rs, Mapped(f, rs), |rs|);
    assert Mapped(f, rs)[..|rs|] == Mapped(f, rs);
    assert Mapped(f, rs) == Answers(rs, g, e);
    assert Mapped(f, SortById(rs, |rs|)) == Answers(SortById(rs, |rs|), g, e);
  }

  // Whatever is asked for, in whatever order, and whichever way is taken: one callback for
  // each request, with the answer a lookup of its own would have given.
  method FlushComputes(rs: seq<Request>, ix: InMemoryIndex, capacity: nat, inMem: bool, entrySize: nat, dense: bool, ghost g: Graph)
    returns (served: seq<Served>)
    requires InGraph(rs, g) && ix.Represents(g.ds, g.base) && capacity > 0
    ensures multiset(served) == multiset(Answers(rs, g, ix.e))
  {
    if rs == [] {
      return [];
    }
    SortSorted(rs, g, |rs|);
    SortKeeps(rs, g, ix.e);
    var sorted := SortById(rs, |rs|);
    if dense {
      served := ProcessDense(sorted, ix, capacity, g);
    } else {
      served := ProcessGeneral(sorted, ix, capacity, inMem, entrySize, g);
    }
  }
}
