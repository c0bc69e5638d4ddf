/**
 The compressed vertex index: one offset and 32 degrees of one byte each per entry, with
 the degrees that do not fit into a byte kept aside.  It stands for the plain table of
 offsets, which a degree list determines.
 */
module CompressedIndex {
  import Striping

  const VERTEX_HEADER: nat := 12
  const ID_SIZE: nat := 4
  const ENTRY_SIZE: nat := 32
  const LARGE_VERTEX_SIZE: nat := 255
  const GRAPH_HEADER: nat := 4096

  // ----- the size of a serialized vertex

  function RoundUp(x: nat, a: nat): (r: nat)
    requires a > 0
    ensures x <= r < x + a
  {
    assert x + a - 1 == (x + a - 1) / a * a + (x + a - 1) % a;
    (x + a - 1) / a * a
  }

  // num_edges2vsize: edge data are aligned to their size, the whole to an id.
  function VSize(n: nat, e: nat): nat {
    if e == 0 then VERTEX_HEADER + n * ID_SIZE
    else RoundUp(RoundUp(VERTEX_HEADER + n * ID_SIZE, e) + n * e, ID_SIZE)
  }

  // vsize2num_edges.
  function NumEdges(size: nat, e: nat): nat
    requires size >= VERTEX_HEADER
  {
    (size - VERTEX_HEADER) / (ID_SIZE + e)
  }

  lemma {:induction false} DivExact(n: nat, pad: nat, d: nat)
    requires pad < d
    ensures (n * d + pad) / d == n
  {
    Striping.DivUnique(n * d + pad, n, pad, d);
  }

  // The padding never amounts to another edge.
  lemma {:induction false} SizeUndone(n: nat, e: nat)
    ensures VSize(n, e) >= VERTEX_HEADER && NumEdges(VSize(n, e), e) == n
  {
    var pad := VSize(n, e) - VERTEX_HEADER - n * (ID_SIZE + e);
    assert n * (ID_SIZE + e) == n * ID_SIZE + n * e;
    DivExact(n, pad, ID_SIZE + e);
  }

  // ----- the plain offset table and what the compressed index has to say

  function Offset(ds: seq<nat>, e: nat, base: nat, i: nat): nat
    requires i <= |ds|
  {
    if i == 0 then base else Offset(ds, e, base, i - 1) + VSize(ds[i - 1], e)
  }

  function Byte(d: nat): nat {
    if d < LARGE_VERTEX_SIZE then d else LARGE_VERTEX_SIZE
  }

  datatype Entry = Entry(start: nat, edges: seq<nat>)

  type LargeVertex = (nat, nat)

  function NumEntries(n: nat): nat {
    (n + ENTRY_SIZE - 1) / ENTRY_SIZE
  }

  function Degree(ds: seq<nat>, i: nat): nat {
    if i < |ds| then ds[i] else 0
  }

  function BytesAt(ds: seq<nat>, first: nat): (r: seq<nat>)
    ensures |r| == ENTRY_SIZE && forall j :: 0 <= j < ENTRY_SIZE ==> r[j] == Byte(Degree(ds, first + j))
  {
    seq<nat>(ENTRY_SIZE, j requires 0 <= j < ENTRY_SIZE => Byte(Degree(ds, first + j)))
  }

  function EntryAt(ds: seq<nat>, e: nat, base: nat, k: nat): Entry
    requires k * ENTRY_SIZE <= |ds|
  {
    Entry(Offset(ds, e, base, k * ENTRY_SIZE), BytesAt(ds, k * ENTRY_SIZE))
  }

  function Entries(ds: seq<nat>, e: nat, base: nat): seq<Entry> {
    seq(NumEntries(|ds|), k requires 0 <= k < NumEntries(|ds|) => EntryAt(ds, e, base, k))
  }

  function Large(ds: seq<nat>, n: nat): seq<LargeVertex>
    requires n <= |ds|
  {
    if n == 0 then [] else Large(ds, n - 1) + if ds[n - 1] >= LARGE_VERTEX_SIZE then [(n - 1, ds[n - 1])] else []
  }

  lemma {:induction false} OffsetStable(ds: seq<nat>, d: nat, e: nat, base: nat, i: nat)
    requires i <= |ds|
    ensures Offset(ds + [d], e, base, i) == Offset(ds, e, base, i)
  {
    if i > 0 { OffsetStable(ds, d, e, base, i - 1); }
  }

  lemma {:induction false} LargeStable(ds: seq<nat>, d: nat, n: nat)
    requires n <= |ds|
    ensures Large(ds + [d], n) == Large(ds, n)
  {
    if n > 0 { LargeStable(ds, d, n - 1); }
  }

  // An entry that is full stays what it is.
  lemma {:induction false} EntryStable(ds: seq<nat>, d: nat, e: nat, base: nat, k: nat)
    requires (k + 1) * ENTRY_SIZE <= |ds|
    ensures EntryAt(ds + [d], e, base, k) == EntryAt(ds, e, base, k)
  {
    OffsetStable(ds, d, e, base, k * ENTRY_SIZE);
    assert BytesAt(ds + [d], k * ENTRY_SIZE) == BytesAt(ds, k * ENTRY_SIZE);
  }

  // ----- the constructors of one entry

  // The offsets of the vertices from first on, and the one behind the last.
  ghost predicate OffsetsFrom(offs: seq<nat>, ds: seq<nat>, e: nat, base: nat, first: nat) {
    && offs != [] && first + |offs| - 1 <= |ds|
    && forall i :: 0 <= i < |offs| ==> offs[i] == Offset(ds, e, base, first + i)
  }

  lemma {:induction false} DegreeFromOffsets(offs: seq<nat>, ds: seq<nat>, e: nat, base: nat, first: nat, i: nat)
    requires OffsetsFrom(offs, ds, e, base, first) && i + 1 < |offs|
    ensures offs[i] + VERTEX_HEADER <= offs[i + 1] && NumEdges(offs[i + 1] - offs[i], e) == ds[first + i]
  {
    assert offs[i + 1] == Offset(ds, e, base, first + (i + 1));
    SizeUndone(ds[first + i], e);
  }

  method EntryFromOffsets(offs: seq<nat>, e: nat, ghost ds: seq<nat>, ghost base: nat, ghost k: nat) returns (r: Entry)
    requires OffsetsFrom(offs, ds, e, base, k * ENTRY_SIZE)
    requires |offs| == ENTRY_SIZE + 1 || k * ENTRY_SIZE + |offs| - 1 == |ds|
    requires |offs| <= ENTRY_SIZE + 1
    ensures r == EntryAt(ds, e, base, k)
  {
    var num := if |offs| - 1 < ENTRY_SIZE then |offs| - 1 else ENTRY_SIZE;
    var edges := [];
    for i := 0 to num
      invariant |edges| == i && forall j :: 0 <= j < i ==> edges[j] == Byte(Degree(ds, k * ENTRY_SIZE + j))
    {
      DegreeFromOffsets(offs, ds, e, base, k * ENTRY_SIZE, i);
      var d := NumEdges(offs[i + 1] - offs[i], e);
      edges := edges + [if d < LARGE_VERTEX_SIZE then d else LARGE_VERTEX_SIZE];
    }
    for i := num to ENTRY_SIZE
      invariant |edges| == i && forall j :: 0 <= j < i ==> edges[j] == Byte(Degree(ds, k * ENTRY_SIZE + j))
    {
      edges := edges + [0];
    }
    assert offs[0] == Offset(ds, e, base, k * ENTRY_SIZE + 0);
    r := Entry(offs[0], edges);
  }

  method EntryFromDegrees(start: nat, degrees: seq<nat>, ghost ds: seq<nat>, ghost e: nat, ghost base: nat, ghost k: nat)
    returns (r: Entry)
    requires |degrees| <= ENTRY_SIZE && k * ENTRY_SIZE + |degrees| <= |ds|
    requires |degrees| == ENTRY_SIZE || k * ENTRY_SIZE + |degrees| == |ds|
    requires degrees == ds[k * ENTRY_SIZE..k * ENTRY_SIZE + |degrees|]
    requires start == Offset(ds, e, base, k * ENTRY_SIZE)
    ensures r == EntryAt(ds, e, base, k)
  {
    var edges := [];
    for i := 0 to |degrees|
      invariant |edges| == i && forall j :: 0 <= j < i ==> edges[j] == Byte(Degree(ds, k * ENTRY_SIZE + j))
    {
      edges := edges + [if degrees[i] < LARGE_VERTEX_SIZE then degrees[i] else LARGE_VERTEX_SIZE];
    }
    for i := |degrees| to ENTRY_SIZE
      invariant |edges| == i && forall j :: 0 <= j < i ==> edges[j] == Byte(Degree(ds, k * ENTRY_SIZE + j))
    {
      edges := edges + [0];
    }
    r := Entry(start, edges);
  }

  // The large vertices of one entry, found by the bytes that are full.
  method AddLarge(large: seq<LargeVertex>, r: Entry, offs: seq<nat>, e: nat, ghost ds: seq<nat>, ghost base: nat, first: nat)
    returns (more: seq<LargeVertex>)
    requires OffsetsFrom(offs, ds, e, base, first) && |offs| <= ENTRY_SIZE + 1
    requires |r.edges| == ENTRY_SIZE && forall j :: 0 <= j < ENTRY_SIZE ==> r.edges[j] == Byte(Degree(ds, first + j))
    requires large == Large(ds, first)
    ensures more == Large(ds, first + |offs| - 1)
  {
    more := large;
    for i := 0 to |offs| - 1
      invariant more == Large(ds, first + i)
    {
      DegreeFromOffsets(offs, ds, e, base, first, i);
      if r.edges[i] == LARGE_VERTEX_SIZE {
        more := more + [(first + i, NumEdges(offs[i + 1] - offs[i], e))];
      }
    }
  }

  // ----- the three builders

  // From a table of offsets.
  method BuildFromTable(table: seq<nat>, e: nat, ghost ds: seq<nat>, ghost base: nat)
    returns (entries: seq<Entry>, large: seq<LargeVertex>)
    requires |table| == |ds| + 1 && OffsetsFrom(table, ds, e, base, 0)
    ensures entries == Entries(ds, e, base) && large == Large(ds, |ds|)
  {
    var n := |table| - 1;
    entries, large := [], [];
    var k := 0;
    while k * ENTRY_SIZE < n
      invariant k == |entries| && 0 <= k <= NumEntries(n)
      invariant forall i :: 0 <= i < k ==> entries[i] == EntryAt(ds, e, base, i)
      invariant large == Large(ds, if k * ENTRY_SIZE < n then k * ENTRY_SIZE else n)
    {
      var first := k * ENTRY_SIZE;
      var num := if ENTRY_SIZE + 1 < |table| - first then ENTRY_SIZE + 1 else |table| - first;
      var offs := table[first..first + num];
      SliceOffsets(table, ds, e, base, first, num);
      var r := EntryFromOffsets(offs, e, ds, base, k);
      large := AddLarge(large, r, offs, e, ds, base, first);
      entries := entries + [r];
      k := k + 1;
    }
  }

  lemma {:induction false} SliceOffsets(table: seq<nat>, ds: seq<nat>, e: nat, base: nat, first: nat, num: nat)
    requires OffsetsFrom(table, ds, e, base, 0) && 0 < num && first + num <= |table|
    ensures OffsetsFrom(table[first..first + num], ds, e, base, first)
  {
    var offs := table[first..first + num];
    forall i | 0 <= i < |offs| ensures offs[i] == Offset(ds, e, base, first + i) {
      assert table[first + i] == Offset(ds, e, base, 0 + (first + i));
    }
  }

  // From the degrees themselves.
  method BuildFromDegrees(ds: seq<nat>, e: nat, base: nat) returns (entries: seq<Entry>, large: seq<LargeVertex>, size: nat)
    ensures entries == Entries(ds, e, base) && large == Large(ds, |ds|)
    ensures size == Offset(ds, e, base, |ds|)
  {
    large := [];
    for i := 0 to |ds|
      invariant large == Large(ds, i)
    {
      if ds[i] >= LARGE_VERTEX_SIZE {
        large := large + [(i, ds[i])];
      }
    }
    entries, size := [], base;
    var vid := 0;
    while vid < |ds|
      invariant vid == |entries| * ENTRY_SIZE && |entries| <= NumEntries(|ds|)
      invariant forall i :: 0 <= i < |entries| ==> entries[i] == EntryAt(ds, e, base, i)
      invariant size == Offset(ds, e, base, if vid < |ds| then vid else |ds|)
    {
      var num := if ENTRY_SIZE < |ds| - vid then ENTRY_SIZE else |ds| - vid;
      var r := EntryFromDegrees(size, ds[vid..vid + num], ds, e, base, |entries|);
      entries := entries + [r];
      for j := 0 to num
        invariant size == Offset(ds, e, base, vid + j)
      {
        size := size + VSize(ds[vid + j], e);
      }
      vid := vid + ENTRY_SIZE;
    }
  }

  // Vertex by vertex, in order of their ids.
  class StreamingBuilder {
    const e: nat
    const base: nat
    var centries: seq<Entry>
    var lastEntries: seq<nat>
    var large: seq<LargeVertex>
    ghost var ds: seq<nat>

    ghost predicate Valid()
      reads this
    {
      Streaming() && (|centries| > 0 ==> |lastEntries| > 1)
    }

    ghost predicate Streaming()
      reads this
    {
      && |centries| * ENTRY_SIZE <= |ds|
      && (forall k :: 0 <= k < |centries| ==> (k + 1) * ENTRY_SIZE <= |ds| && centries[k] == EntryAt(ds, e, base, k))
      && |lastEntries| == |ds| - |centries| * ENTRY_SIZE + 1 && 1 <= |lastEntries| <= ENTRY_SIZE + 1
      && OffsetsFrom(lastEntries, ds, e, base, |centries| * ENTRY_SIZE)
      && large == Large(ds, |centries| * ENTRY_SIZE)
    }

    constructor (e: nat, base: nat)
      ensures Valid() && ds == [] && this.e == e && this.base == base
    {
      this.e, this.base := e, base;
      centries, lastEntries, large, ds := [], [base], [], [];
    }

    // Compresses the vertices waiting in lastEntries.
    method Compress() returns (r: Entry)
      requires Valid()
      modifies this`centries, this`large
      ensures centries == old(centries) + [EntryAt(ds, e, base, old(|centries|))]
      ensures large == Large(ds, |ds|)
    {
      r := EntryFromOffsets(lastEntries, e, ds, base, |centries|);
      large := AddLarge(large, r, lastEntries, e, ds, base, |centries| * ENTRY_SIZE);
      centries := centries + [r];
    }

    method AddVertex(degree: nat)
      requires Valid()
      modifies this
      ensures Valid() && ds == old(ds) + [degree]
    {
      var lastEntry := lastEntries[|lastEntries| - 1];
      assert lastEntry == Offset(ds, e, base, |ds|);
      if |lastEntries| == ENTRY_SIZE + 1 {
        var r := Compress();
        lastEntries := [lastEntry];
      }
      Push(degree);
    }

    method Push(degree: nat)
      requires Streaming() && |lastEntries| <= ENTRY_SIZE
      modifies this`lastEntries, this`ds
      ensures Valid() && ds == old(ds) + [degree]
    {
      var lastEntry := lastEntries[|lastEntries| - 1];
      assert lastEntry == Offset(ds, e, base, |ds|);
      StreamStable(degree);
      assert (ds + [degree])[|ds|] == degree;
      lastEntries, ds := lastEntries + [lastEntry + VSize(degree, e)], ds + [degree];
    }

    // What has been built so far still holds when a vertex is added.
    lemma {:induction false} StreamStable(d: nat)
      requires |centries| * ENTRY_SIZE <= |ds|
      requires forall k :: 0 <= k < |centries| ==> (k + 1) * ENTRY_SIZE <= |ds| && centries[k] == EntryAt(ds, e, base, k)
      ensures forall k :: 0 <= k < |centries| ==> centries[k] == EntryAt(ds + [d], e, base, k)
      ensures forall i :: 0 <= i <= |ds| ==> Offset(ds + [d], e, base, i) == Offset(ds, e, base, i)
      ensures Large(ds + [d], |centries| * ENTRY_SIZE) == Large(ds, |centries| * ENTRY_SIZE)
    {
      forall k | 0 <= k < |centries| ensures centries[k] == EntryAt(ds + [d], e, base, k) { EntryStable(ds, d, e, base, k); }
      forall i | 0 <= i <= |ds| ensures Offset(ds + [d], e, base, i) == Offset(ds, e, base, i) { OffsetStable(ds, d, e, base, i); }
      LargeStable(ds, d, |centries| * ENTRY_SIZE);
    }

    // Also an empty graph gets an entry here, unlike from the other builders.
    method Finalize() returns (entries: seq<Entry>, l: seq<LargeVertex>)
      requires Valid()
      modifies this
      ensures l == Large(ds, |ds|) && ds == old(ds)
      ensures entries == StreamedEntries(ds, e, base)
      ensures entries == Entries(ds, e, base) <==> ds != []
    {
      var r := Compress();
      lastEntries := [];
      entries, l := centries, large;
      BuildersAgreeIff(ds, e, base);
    }
  }

  function StreamedEntries(ds: seq<nat>, e: nat, base: nat): seq<Entry> {
    if ds == [] then [EntryAt(ds, e, base, 0)] else Entries(ds, e, base)
  }

  // The streaming builder agrees with the others exactly on graphs that have vertices.
  lemma {:induction false} BuildersAgreeIff(ds: seq<nat>, e: nat, base: nat)
    ensures StreamedEntries(ds, e, base) == Entries(ds, e, base) <==> ds != []
  {
    assert ds == [] ==> |Entries(ds, e, base)| == 0;
  }

  // ----- queries in memory

  function MapOf(l: seq<LargeVertex>): map<nat, nat> {
    if l == [] then map[] else MapOf(l[..|l| - 1])[l[|l| - 1].0 := l[|l| - 1].1]
  }

  lemma {:induction false} LargeFound(ds: seq<nat>, n: nat, id: nat)
    requires n <= |ds|
    ensures id in MapOf(Large(ds, n)) <==> id < n && ds[id] >= LARGE_VERTEX_SIZE
    ensures id in MapOf(Large(ds, n)) ==> MapOf(Large(ds, n))[id] == ds[id]
  {
    if n > 0 {
      LargeFound(ds, n - 1, id);
      var l := Large(ds, n - 1);
      if ds[n - 1] >= LARGE_VERTEX_SIZE {
        assert (l + [(n - 1, ds[n - 1])])[..|l|] == l;
      } else {
        assert l + [] == l;
      }
    }
  }

  datatype InMemoryIndex = InMemoryIndex(entries: seq<Entry>, large: map<nat, nat>, e: nat) {

    // The index stands for this degree list, the first vertex being at base.
    ghost predicate Represents(ds: seq<nat>, base: nat) {
      entries == Entries(ds, e, base) && large == MapOf(Large(ds, |ds|))
    }
  }

  method LoadLarge(l: seq<LargeVertex>) returns (m: map<nat, nat>)
    ensures m == MapOf(l)
  {
    m := map[];
    for i := 0 to |l|
      invariant m == MapOf(l[..i])
    {
      assert l[..i + 1][..i] == l[..i];
      m := m[l[i].0 := l[i].1];
    }
    assert l[..|l|] == l;
  }

  // The index in memory, from the entries and the list of large vertices in the file.
  method LoadIndex(entries: seq<Entry>, l: seq<LargeVertex>, e: nat, ghost ds: seq<nat>, ghost base: nat) returns (ix: InMemoryIndex)
    requires entries == Entries(ds, e, base) && l == Large(ds, |ds|)
    ensures ix.Represents(ds, base) && ix.e == e
  {
    var m := LoadLarge(l);
    ix := InMemoryIndex(entries, m, e);
  }

  lemma {:induction false} ByteAt(ix: InMemoryIndex, ds: seq<nat>, base: nat, id: nat)
    requires ix.Represents(ds, base) && id < |ds|
    ensures id / ENTRY_SIZE < |ix.entries| && |ix.entries[id / ENTRY_SIZE].edges| == ENTRY_SIZE
    ensures ix.entries[id / ENTRY_SIZE].edges[id % ENTRY_SIZE] == Byte(ds[id])
    ensures ix.entries[id / ENTRY_SIZE].start == Offset(ds, ix.e, base, id / ENTRY_SIZE * ENTRY_SIZE)
  {
    var k := id / ENTRY_SIZE;
    assert k * ENTRY_SIZE + id % ENTRY_SIZE == id;
    assert ix.entries[k] == EntryAt(ds, ix.e, base, k);
  }

  // The degree of every vertex, large or not.
  method GetNumEdges(ix: InMemoryIndex, id: nat, ghost ds: seq<nat>, ghost base: nat) returns (n: nat)
    requires ix.Represents(ds, base) && id < |ds|
    ensures n == ds[id]
  {
    ByteAt(ix, ds, base, id);
    LargeFound(ds, |ds|, id);
    n := ix.entries[id / ENTRY_SIZE].edges[id % ENTRY_SIZE];
    if n >= LARGE_VERTEX_SIZE {
      n := ix.large[id];
    }
  }

  // The offset of every vertex, by summing up the sizes from the start of its entry.
  method GetVertex(ix: InMemoryIndex, id: nat, ghost ds: seq<nat>, ghost base: nat) returns (voff: nat)
    requires ix.Represents(ds, base) && id < |ds|
    ensures voff == Offset(ds, ix.e, base, id)
  {
    ByteAt(ix, ds, base, id);
    voff := ix.entries[id / ENTRY_SIZE].start;
    var startId := id / ENTRY_SIZE * ENTRY_SIZE;
    for i := 0 to id % ENTRY_SIZE
      invariant startId + i <= id && voff == Offset(ds, ix.e, base, startId + i)
    {
      var n := GetNumEdges(ix, startId + i, ds, base);
      voff := voff + VSize(n, ix.e);
    }
  }

  // ----- directed graphs: the in-part of all vertices, then the out-part

  lemma {:induction false} OffsetShift(ds: seq<nat>, e: nat, base: nat, delta: nat, i: nat)
    requires i <= |ds|
    ensures Offset(ds, e, base, i) + delta == Offset(ds, e, base + delta, i)
  {
    if i > 0 { OffsetShift(ds, e, base, delta, i - 1); }
  }

  // reset_start_offs on every entry.
  method ShiftEntries(entries: seq<Entry>, delta: nat, ghost ds: seq<nat>, ghost e: nat, ghost base: nat) returns (r: seq<Entry>)
    requires entries == Entries(ds, e, base)
    ensures r == Entries(ds, e, base + delta)
  {
    r := [];
    for k := 0 to |entries|
      invariant |r| == k && forall i :: 0 <= i < k ==> r[i] == EntryAt(ds, e, base + delta, i)
    {
      OffsetShift(ds, e, base, delta, k * ENTRY_SIZE);
      assert entries[k] == EntryAt(ds, e, base, k);
      r := r + [entries[k].(start := entries[k].start + delta)];
    }
  }

  function Sum(ds: seq<nat>, n: nat): nat
    requires n <= |ds|
  {
    if n == 0 then 0 else Sum(ds, n - 1) + ds[n - 1]
  }

  lemma {:induction false} Fours(x: nat)
    requires x % ID_SIZE == 0
    ensures RoundUp(x, ID_SIZE) == x
  {
  }

  lemma {:induction false} LinearVSize(n: nat, e: nat)
    requires e == 0 || e == ID_SIZE
    ensures VSize(n, e) == VERTEX_HEADER + n * (ID_SIZE + e)
  {
    if e == ID_SIZE {
      Fours(VERTEX_HEADER + n * 4);
      Fours(VERTEX_HEADER + n * 8);
    }
  }

  // Without edge data, or with edge data of the size of an id, sizes are linear in degrees.
  lemma {:induction false} LinearSize(ds: seq<nat>, e: nat, base: nat, n: nat)
    requires n <= |ds| && (e == 0 || e == ID_SIZE)
    ensures Offset(ds, e, base, n) == base + n * VERTEX_HEADER + Sum(ds, n) * (ID_SIZE + e)
  {
    if n > 0 {
      LinearSize(ds, e, base, n - 1);
      LinearVSize(ds[n - 1], e);
      assert Sum(ds, n) * (ID_SIZE + e) == Sum(ds, n - 1) * (ID_SIZE + e) + ds[n - 1] * (ID_SIZE + e);
    }
  }

  // Then equal numbers of in- and out-edges make parts of equal size.
  lemma {:induction false} PartsSameSize(ins: seq<nat>, outs: seq<nat>, e: nat)
    requires |ins| == |outs| && Sum(ins, |ins|) == Sum(outs, |outs|) && (e == 0 || e == ID_SIZE)
    ensures Offset(ins, e, 0, |ins|) == Offset(outs, e, 0, |outs|)
  {
    LinearSize(ins, e, 0, |ins|);
    LinearSize(outs, e, 0, |outs|);
  }

  // The assertion of the directed degree builder: in- and out-part have the same size.
  method BuildDirectedFromDegrees(ins: seq<nat>, outs: seq<nat>, e: nat)
    returns (inEntries: seq<Entry>, outEntries: seq<Entry>, largeIn: seq<LargeVertex>, largeOut: seq<LargeVertex>)
    requires |ins| == |outs| && Sum(ins, |ins|) == Sum(outs, |outs|) && (e == 0 || e == ID_SIZE)
    ensures inEntries == Entries(ins, e, GRAPH_HEADER) && largeIn == Large(ins, |ins|)
    ensures outEntries == Entries(outs, e, Offset(ins, e, GRAPH_HEADER, |ins|)) && largeOut == Large(outs, |outs|)
  {
    var inSize, outSize;
    inEntries, largeIn, inSize := BuildFromDegrees(ins, e, 0);
    outEntries, largeOut, outSize := BuildFromDegrees(outs, e, 0);
    PartsSameSize(ins, outs, e);
    assert inSize == outSize;
    OffsetShift(ins, e, 0, GRAPH_HEADER, |ins|);
    inEntries := ShiftEntries(inEntries, GRAPH_HEADER, ins, e, 0);
    outEntries := ShiftEntries(outEntries, GRAPH_HEADER + inSize, outs, e, 0);
  }

  // The streaming builder keeps out-offsets from zero and moves them behind the in-part.
  method FinalizeDirected(ib: StreamingBuilder, ob: StreamingBuilder)
    returns (inEntries: seq<Entry>, outEntries: seq<Entry>, largeIn: seq<LargeVertex>, largeOut: seq<LargeVertex>)
    requires ib != ob && ib.Valid() && ob.Valid() && ib.e == ob.e && ib.base == GRAPH_HEADER && ob.base == 0
    requires |ib.ds| == |ob.ds| > 0
    modifies ib, ob
    ensures inEntries == Entries(old(ib.ds), ib.e, GRAPH_HEADER) && largeIn == Large(old(ib.ds), |old(ib.ds)|)
    ensures outEntries == Entries(old(ob.ds), ib.e, Offset(old(ib.ds), ib.e, GRAPH_HEADER, |old(ib.ds)|))
    ensures largeOut == Large(old(ob.ds), |old(ob.ds)|)
  {
    var inPartSize := ib.lastEntries[|ib.lastEntries| - 1];
    assert inPartSize == Offset(ib.ds, ib.e, GRAPH_HEADER, |ib.ds|);
    inEntries, largeIn := ib.Finalize();
    outEntries, largeOut := ob.Finalize();
    outEntries := ShiftEntries(outEntries, inPartSize, ob.ds, ob.e, 0);
  }

  lemma {:induction false} FillsUnit(e: nat) returns (n: nat)
    requires e > 8 && e % 8 == 0
    ensures e >= 16 && VERTEX_HEADER + n * ID_SIZE == e
  {
    var units := e / 8;
    assert e == 8 * units;
    n := 2 * units - 3;
  }

  // With other edge data, equal totals are not enough: two vertices with a and b edges
  // take another size than two with c and d.
  lemma {:induction false} SizesDiffer(e: nat) returns (a: nat, b: nat, c: nat, d: nat)
    requires e == 1 || e == 2 || (e > 0 && e % 8 == 0)
    ensures a + b == c + d && VSize(a, e) + VSize(b, e) != VSize(c, e) + VSize(d, e)
  {
    if e <= 8 {
      SmallSizes(e);
      a, b, c, d := 1, 1, 0, 2;
    } else {
      var n := FillsUnit(e);
      StepSizes(e, n);
      a, b, c, d := n, n, n - 1, n + 1;
    }
  }

  lemma {:induction false} PartsDiffer(e: nat) returns (ins: seq<nat>, outs: seq<nat>)
    requires e == 1 || e == 2 || (e > 0 && e % 8 == 0)
    ensures |ins| == |outs| == 2 && Sum(ins, 2) == Sum(outs, 2) && Offset(ins, e, 0, 2) != Offset(outs, e, 0, 2)
  {
    var a, b, c, d := SizesDiffer(e);
    TwoSizes(a, b, e);
    TwoSizes(c, d, e);
    ins, outs := [a, b], [c, d];
  }

  // The sizes that edge data have: none, or a power of two.
  predicate DataSize(e: nat) {
    e == 1 || e == 2 || e == 4 || e % 8 == 0
  }

  // In- and out-part of the same size for all degrees with equal totals: exactly for edge data
  // of 0 or 4 bytes.
  lemma {:induction false} PartsSameIff(e: nat)
    requires DataSize(e)
    ensures
      (forall ins: seq<nat>, outs: seq<nat> :: |ins| == |outs| && Sum(ins, |ins|) == Sum(outs, |outs|) ==>
         Offset(ins, e, 0, |ins|) == Offset(outs, e, 0, |outs|))
      <==> e == 0 || e == ID_SIZE
  {
    if e == 0 || e == ID_SIZE {
      forall ins: seq<nat>, outs: seq<nat> | |ins| == |outs| && Sum(ins, |ins|) == Sum(outs, |outs|)
        ensures Offset(ins, e, 0, |ins|) == Offset(outs, e, 0, |outs|)
      {
        PartsSameSize(ins, outs, e);
      }
    } else {
      var ins, outs := PartsDiffer(e);
    }
  }

  lemma {:induction false} TwoSizes(a: nat, b: nat, e: nat)
    ensures Offset([a, b], e, 0, 2) == VSize(a, e) + VSize(b, e) && Sum([a, b], 2) == a + b
  {
    assert Offset([a, b], e, 0, 1) == VSize(a, e);
    assert Sum([a, b], 1) == a;
  }

  lemma {:induction false} SmallSizes(e: nat)
    requires e == 1 || e == 2 || e == 8
    ensures VSize(1, e) + VSize(1, e) != VSize(0, e) + VSize(2, e)
  {
  }

  lemma {:induction false} AlignedSize(n: nat, e: nat, first: nat)
    requires e > 0 && e % ID_SIZE == 0 && first % ID_SIZE == 0 && RoundUp(VERTEX_HEADER + n * ID_SIZE, e) == first
    ensures VSize(n, e) == first + n * e
  {
    var data := n * e;
    MulFours(n, e);
    AddFours(first, data);
    SizeParts(n, e, first, data);
  }

  lemma {:induction false} SizeParts(n: nat, e: nat, first: nat, data: nat)
    requires e > 0 && RoundUp(VERTEX_HEADER + n * ID_SIZE, e) == first && n * e == data
    ensures VSize(n, e) == RoundUp(first + data, 4)
  {
  }

  lemma {:induction false} AddFours(x: nat, y: nat)
    requires x % 4 == 0 && y % 4 == 0
    ensures RoundUp(x + y, 4) == x + y
  {
    assert (x + y) % 4 == 0;
    Fours(x + y);
  }

  lemma {:induction false} MulFours(n: nat, e: nat)
    requires e % 4 == 0
    ensures (n * e) % 4 == 0
  {
    var k := e / 4;
    assert e == k * 4;
    Striping.Distribute(n, k, 0, 4);
    Striping.DivUnique(n * e, n * k, 0, 4);
  }

  // Around the degree at which the adjacency list fills an alignment unit.
  lemma {:induction false} StepSizes(e: nat, n: nat)
    requires e >= 16 && e % 8 == 0 && VERTEX_HEADER + n * ID_SIZE == e
    ensures n >= 1 && VSize(n, e) + VSize(n, e) != VSize(n - 1, e) + VSize(n + 1, e)
  {
    Aligned(e, e, 0);
    Aligned(e, e - 4, 4);
    RoundOne(e);
    AlignedSize(n, e, e);
    AlignedSize(n - 1, e, e);
    AlignedSize(n + 1, e, 2 * e);
    assert (n - 1) * e + (n + 1) * e == n * e + n * e;
  }

  lemma {:induction false} Aligned(a: nat, x: nat, less: nat)
    requires a > 0 && x + less == a && less < a
    ensures RoundUp(x, a) == a
  {
    Striping.DivUnique(x + a - 1, 1, a - 1 - less, a);
  }

  lemma {:induction false} RoundOne(e: nat)
    requires e >= 16
    ensures RoundUp(e + 4, e) == 2 * e
  {
    Striping.DivUnique(e + 4 + e - 1, 2, 3, e);
  }
}
