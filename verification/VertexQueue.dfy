/**
 The queue of a partition's active vertices, filled from the set of activated vertices
 at the start of a level and fetched from by its owner and by thieves.
 */
module VertexQueue {
  import opened VertexBitmap
  import opened ActiveVertices
  import opened LevelState

  const VERTEX_BUF_SIZE: nat := 64 * 1024

  // The vertices with these ids, as often as they are listed.
  function WholeList(part: nat, ids: seq<nat>): (r: seq<Item>)
    ensures |r| == |ids| && forall i :: 0 <= i < |ids| ==> r[i] == Main(part, ids[i])
  {
    seq(|ids|, i requires 0 <= i < |ids| => Main(part, ids[i]))
  }

  // The k-th parts of the vertices with these ids.
  function PartList(part: nat, ids: seq<nat>, k: nat): (r: seq<Item>)
    ensures |r| == |ids| && forall i :: 0 <= i < |ids| ==> r[i] == VPart(part, ids[i], k)
  {
    seq(|ids|, i requires 0 <= i < |ids| => VPart(part, ids[i], k))
  }

  // In a list without repetitions everything is there once.
  lemma {:induction false} DistinctTimes<T>(v: seq<T>, x: T)
    requires Distinct(v)
    ensures multiset(v)[x] == if x in v then 1 else 0
  {
    if v != [] {
      var front, last := v[..|v| - 1], v[|v| - 1];
      assert v == front + [last] && last !in front;
      DistinctTimes(front, x);
    }
  }

  lemma {:induction false} WholeTimes(part: nat, ids: seq<nat>, x: Item)
    ensures multiset(WholeList(part, ids))[x] == if x.Main? && x.part == part then multiset(ids)[x.id] else 0
  {
    if ids != [] {
      var front, last := ids[..|ids| - 1], ids[|ids| - 1];
      WholeTimes(part, front, x);
      assert ids == front + [last] && WholeList(part, ids) == WholeList(part, front) + [Main(part, last)];
    }
  }

  lemma {:induction false} PartTimes(part: nat, ids: seq<nat>, k: nat, x: Item)
    requires Distinct(ids)
    ensures multiset(PartList(part, ids, k))[x] == if x.VPart? && x.part == part && x.id in ids && x.k == k then 1 else 0
  {
    var r := PartList(part, ids, k);
    assert Distinct(r);
    DistinctTimes(r, x);
    if x.VPart? && x.part == part && x.id in ids && x.k == k {
      var i :| 0 <= i < |ids| && ids[i] == x.id;
      assert r[i] == x;
    }
  }

  // ----- how many items a level starts with

  function Wholes(part: nat, ids: set<nat>): set<Item> {
    set d | d in ids :: Main(part, d)
  }

  function Slots(part: nat, d: nat, hi: nat): set<Item> {
    set k | 0 <= k < hi :: VPart(part, d, k)
  }

  function Parts(part: nat, ps: seq<nat>, hi: nat): set<Item> {
    if ps == [] then {} else Parts(part, ps[..|ps| - 1], hi) + Slots(part, ps[|ps| - 1], hi)
  }

  lemma {:induction false} WholesCount(part: nat, ids: set<nat>)
    ensures |Wholes(part, ids)| == |ids|
    decreases |ids|
  {
    if ids != {} {
      var d :| d in ids;
      WholesCount(part, ids - {d});
      assert Wholes(part, ids) == Wholes(part, ids - {d}) + {Main(part, d)};
    }
  }

  lemma {:induction false} SlotsCount(part: nat, d: nat, hi: nat)
    ensures |Slots(part, d, hi)| == hi
  {
    if hi == 0 {
      assert Slots(part, d, hi) == {};
    } else {
      SlotsCount(part, d, hi - 1);
      assert Slots(part, d, hi) == Slots(part, d, hi - 1) + {VPart(part, d, hi - 1)};
    }
  }

  lemma {:induction false} PartsIn(part: nat, ps: seq<nat>, hi: nat, x: Item)
    ensures x in Parts(part, ps, hi) <==> x.VPart? && x.part == part && x.id in ps && x.k < hi
  {
    if ps != [] {
      assert ps == ps[..|ps| - 1] + [ps[|ps| - 1]];
      PartsIn(part, ps[..|ps| - 1], hi, x);
    }
  }

  // n vertices of v parts each.
  function PartTotal(n: nat, v: nat): nat {
    if n == 0 then 0 else PartTotal(n - 1, v) + v
  }

  lemma {:induction false} PartTotalIs(n: nat, v: nat)
    ensures PartTotal(n, v) == n * v
  {
    if n > 0 {
      PartTotalIs(n - 1, v);
      assert n * v == (n - 1) * v + v;
    }
  }

  lemma {:induction false} PartsCount(part: nat, ps: seq<nat>, hi: nat)
    requires Distinct(ps)
    ensures |Parts(part, ps, hi)| == PartTotal(|ps|, hi)
  {
    if ps != [] {
      var rest, d := ps[..|ps| - 1], ps[|ps| - 1];
      PartsCount(part, rest, hi);
      SlotsCount(part, d, hi);
      forall x | x in Parts(part, rest, hi) ensures x !in Slots(part, d, hi) { PartsIn(part, rest, hi, x); }
    }
  }

  // The vertically partitioned vertices of the partition.
  ghost predicate SplitIs(cfg: Config, part: nat, split: seq<nat>) {
    forall d :: Main(part, d) in cfg.split <==> d in split
  }

  // The vertices left in the set and the vertical parts of the others.
  lemma {:induction false} Filled(src: Source) returns (all: set<Item>)
    requires Distinct(src.ps) && src.currVpart == 0
    ensures forall x :: x in all <==> src.Has(x)
    ensures |all| == |src.ids| + PartTotal(|src.ps|, src.numVparts)
  {
    var whole, parts := Wholes(src.part, src.ids), Parts(src.part, src.ps, src.numVparts);
    forall x ensures x in parts <==> x.VPart? && src.Has(x) { PartsIn(src.part, src.ps, src.numVparts, x); }
    all := whole + parts;
    WholesCount(src.part, src.ids);
    PartsCount(src.part, src.ps, src.numVparts);
    assert whole !! parts;
  }

  // They are what the level engine takes the queue to hold.
  lemma {:induction false} ExpandIs(cfg: Config, part: nat, ids: set<nat>, split: seq<nat>, ps: seq<nat>, x: Item)
    requires Elements(ps) == ids * Elements(split) && SplitIs(cfg, part, split)
    ensures x in Expand(cfg, part, ids) <==> Source(part, ids - Elements(split), ps, 0, cfg.vparts).Has(x)
  {
    assert x.id in ps <==> x.id in Elements(ps);
    assert x.id in split <==> x.id in Elements(split);
    assert Main(part, x.id) in cfg.split <==> x.id in split;
  }

  // The places a queue draws from when its buffer is empty.
  datatype Source = Source(part: nat, ids: set<nat>, ps: seq<nat>, currVpart: nat, numVparts: nat) {
    predicate Has(x: Item) {
      x.part == part && if x.Main? then x.id in ids else x.id in ps && currVpart <= x.k < numVparts
    }
  }

  // Everything left to hand out is in the part of the buffer not yet scanned, as often as it
  // is there, or in the source.
  ghost predicate Placed(left: multiset<Item>, buf: seq<Item>, p: ScanPointer, src: Source)
    requires p.Valid() && p.size == |buf|
  {
    forall x :: left[x] == multiset(buf[p.Low()..p.High()])[x] + if src.Has(x) then 1 else 0
  }

  // A set taken over as a whole, with nothing in the buffer yet.
  lemma {:induction false} PlacedFresh(left: multiset<Item>, src: Source)
    requires forall x :: left[x] == if src.Has(x) then 1 else 0
    ensures var p := ScanPointer.Start(0, true); p.Valid() && p.size == 0 && Placed(left, [], p, src)
  {
  }

  // The next entries of the buffer.
  function Scanned(buf: seq<Item>, p: ScanPointer, count: nat): (out: seq<Item>)
    requires p.Valid() && p.size == |buf| && count <= p.Remaining()
    ensures |out| == count
  {
    var from := Min(p.idx, p.Move(count).idx);
    buf[from..from + count]
  }

  lemma {:induction false} PlacedTake(left: multiset<Item>, buf: seq<Item>, p: ScanPointer, src: Source, count: nat, q: ScanPointer, out: seq<Item>)
    requires p.Valid() && p.size == |buf| && Placed(left, buf, p, src) && count <= p.Remaining()
    requires q == p.Move(count) && out == Scanned(buf, p, count)
    ensures q.Valid() && q.size == |buf| && q.Remaining() == p.Remaining() - count
    ensures left == left - multiset(out) + multiset(out) && Placed(left - multiset(out), buf, q, src)
  {
    ScanCuts(buf, p, count);
    LeftOver(left, buf[p.Low()..p.High()], out, buf[q.Low()..q.High()], src);
    PutBack(left, multiset(out));
  }

  lemma {:induction false} ScanCuts(buf: seq<Item>, p: ScanPointer, count: nat)
    requires p.Valid() && p.size == |buf| && count <= p.Remaining()
    ensures
      var q, out := p.Move(count), Scanned(buf, p, count);
      var here, rest := buf[p.Low()..p.High()], buf[q.Low()..q.High()];
      here == if p.forward then out + rest else rest + out
  {
    var q := p.Move(count);
    if p.forward { Cut(buf, p.idx, q.idx, p.size); } else { Cut(buf, 0, q.idx, p.idx); }
  }

  lemma {:induction false} PutBack<T>(all: multiset<T>, out: multiset<T>)
    requires out <= all
    ensures all == all - out + out
  {
  }

  lemma {:induction false} Cut(buf: seq<Item>, lo: nat, mid: nat, hi: nat)
    requires lo <= mid <= hi <= |buf|
    ensures buf[lo..hi] == buf[lo..mid] + buf[mid..hi]
  {
  }

  lemma {:induction false} LeftOver(left: multiset<Item>, here: seq<Item>, out: seq<Item>, rest: seq<Item>, src: Source)
    requires forall x :: left[x] == multiset(here)[x] + if src.Has(x) then 1 else 0
    requires here == out + rest || here == rest + out
    ensures multiset(out) <= left && forall x :: (left - multiset(out))[x] == multiset(rest)[x] + if src.Has(x) then 1 else 0
  {
    assert multiset(here) == multiset(out) + multiset(rest);
  }

  lemma {:induction false} PlacedFromSet(left: multiset<Item>, buf: seq<Item>, p: ScanPointer, src: Source, got: seq<nat>, forward: bool)
    requires p.Valid() && p.size == |buf| && Placed(left, buf, p, src) && p.Remaining() == 0
    requires Distinct(got) && Elements(got) <= src.ids
    ensures Placed(left, WholeList(src.part, got), ScanPointer.Start(|got|, forward), src.(ids := src.ids - Elements(got)))
  {
    var buf' := WholeList(src.part, got);
    assert buf'[0..|got|] == buf' && buf[p.Low()..p.High()] == [];
    forall x ensures left[x] == multiset(buf')[x] + if src.(ids := src.ids - Elements(got)).Has(x) then 1 else 0 {
      WholeTimes(src.part, got, x);
      DistinctTimes(got, x.id);
      assert x.id in got <==> x.id in Elements(got);
    }
  }

  lemma {:induction false} PlacedParts(left: multiset<Item>, buf: seq<Item>, p: ScanPointer, src: Source)
    requires p.Valid() && p.size == |buf| && Placed(left, buf, p, src) && p.Remaining() == 0
    requires Distinct(src.ps) && src.currVpart < src.numVparts
    ensures Placed(left, PartList(src.part, src.ps, src.currVpart), ScanPointer.Start(|src.ps|, true),
                   src.(currVpart := src.currVpart + 1))
  {
    var buf' := PartList(src.part, src.ps, src.currVpart);
    assert buf'[0..|src.ps|] == buf' && buf[p.Low()..p.High()] == [];
    forall x ensures left[x] == multiset(buf')[x] + if src.(currVpart := src.currVpart + 1).Has(x) then 1 else 0 {
      PartTimes(src.part, src.ps, src.currVpart, x);
    }
  }

  // ----- the first level

  const INVALID_VERTEX_ID: int := -1

  method DeleteVal(vec: seq<int>, val: int) returns (r: seq<int>)
    ensures r == Without(vec, val)
  {
    r := [];
    for i := 0 to |vec|
      invariant r == Without(vec[..i], val)
    {
      assert vec[..i + 1][..i] == vec[..i];
      if vec[i] != val {
        r := r + [vec[i]];
      }
    }
    assert vec[..|vec|] == vec;
  }

  function Without(vec: seq<int>, val: int): seq<int> {
    if vec == [] then []
    else Without(vec[..|vec| - 1], val) + if vec[|vec| - 1] == val then [] else [vec[|vec| - 1]]
  }

  predicate Rising(v: seq<int>) {
    forall i, j :: 0 <= i < j < |v| ==> v[i] < v[j]
  }

  // In order, possibly with repetitions.
  predicate InOrder(v: seq<int>) {
    forall i, j :: 0 <= i < j < |v| ==> v[i] <= v[j]
  }

  lemma {:induction false} WithoutTimes(marked: seq<int>, val: int, x: int)
    ensures multiset(Without(marked, val))[x] == if x == val then 0 else multiset(marked)[x]
  {
    if marked != [] {
      var front, last := marked[..|marked| - 1], marked[|marked| - 1];
      WithoutTimes(front, val, x);
      assert marked == front + [last];
    }
  }

  // Splits a sorted list of vertices by walking along both sorted lists: of every vertically
  // partitioned vertex one entry is taken out; further entries of it stay.
  method SplitVertices(vparts: seq<int>, vertices: seq<int>) returns (rest: seq<int>, ps: seq<int>)
    requires Rising(vparts) && InOrder(vertices) && INVALID_VERTEX_ID !in vertices
    ensures Rising(ps) && forall x :: x in ps <==> x in vertices && x in vparts
    ensures forall x :: multiset(rest)[x] == multiset(vertices)[x] - if x in vertices && x in vparts then 1 else 0
  {
    var i, j := 0, 0;
    var marked := vertices;
    ps := [];
    while i < |vparts| && j < |vertices|
      invariant i <= |vparts| && j <= |vertices| && SplitAt(vparts, vertices, i, j, ps, marked)
      decreases |vparts| - i + |vertices| - j
    {
      var p, id := vparts[i], vertices[j];
      if p == id {
        SplitFound(vparts, vertices, i, j, ps, marked);
        i := i + 1;
        marked := marked[j := INVALID_VERTEX_ID];
        j := j + 1;
        ps := ps + [p];
      } else if p > id {
        SplitSkipped(vparts, vertices, i, j, ps, marked);
        j := j + 1;
      } else {
        i := i + 1;
      }
    }
    SplitDone(vparts, vertices, i, j, ps, marked);
    rest := DeleteVal(marked, INVALID_VERTEX_ID);
    forall x ensures multiset(rest)[x] == multiset(vertices)[x] - if x in vertices && x in vparts then 1 else 0 {
      RestTimes(vparts, vertices, marked, x);
    }
  }

  // The first entry of a vertex that is split.
  ghost predicate Taken(vparts: seq<int>, vertices: seq<int>, k: nat)
    requires k < |vertices|
  {
    vertices[k] in vparts && vertices[k] !in vertices[..k]
  }

  // Of the vertices before j, those that are split are in ps, and their first entries marked.
  ghost predicate SplitAt(vparts: seq<int>, vertices: seq<int>, i: nat, j: nat, ps: seq<int>, marked: seq<int>) {
    && i <= |vparts| && j <= |vertices| && |marked| == |vertices|
    && (i < |vparts| && j > 0 ==> vertices[j - 1] < vparts[i])
    && (j < |vertices| && i > 0 ==> vparts[i - 1] < vertices[j] || (j > 0 && vparts[i - 1] == vertices[j - 1] == vertices[j]))
    && Rising(ps) && (forall x :: x in ps <==> x in vertices[..j] && x in vparts)
    && forall k: nat :: k < |vertices| ==> marked[k] == if k < j && Taken(vparts, vertices, k) then INVALID_VERTEX_ID else vertices[k]
  }

  lemma {:induction false} SplitFound(vparts: seq<int>, vertices: seq<int>, i: nat, j: nat, ps: seq<int>, marked: seq<int>)
    requires Rising(vparts) && InOrder(vertices) && SplitAt(vparts, vertices, i, j, ps, marked)
    requires i < |vparts| && j < |vertices| && vparts[i] == vertices[j]
    ensures SplitAt(vparts, vertices, i + 1, j + 1, ps + [vparts[i]], marked[j := INVALID_VERTEX_ID])
  {
    assert vertices[..j + 1] == vertices[..j] + [vertices[j]];
    assert vertices[j] !in vertices[..j];
    forall k | 0 <= k < |ps| ensures ps[k] < vertices[j] { assert ps[k] in ps; }
  }

  lemma {:induction false} SplitSkipped(vparts: seq<int>, vertices: seq<int>, i: nat, j: nat, ps: seq<int>, marked: seq<int>)
    requires Rising(vparts) && InOrder(vertices) && SplitAt(vparts, vertices, i, j, ps, marked)
    requires i < |vparts| && j < |vertices| && vparts[i] > vertices[j]
    ensures SplitAt(vparts, vertices, i, j + 1, ps, marked)
  {
    assert vertices[..j + 1] == vertices[..j] + [vertices[j]];
    NotTaken(vparts, vertices, i, j);
  }

  // A vertex below the next one to be split is not split, or has been met before.
  lemma {:induction false} NotTaken(vparts: seq<int>, vertices: seq<int>, i: nat, j: nat)
    requires Rising(vparts) && i <= |vparts| && j < |vertices| && (i < |vparts| ==> vparts[i] > vertices[j])
    requires i > 0 ==> vparts[i - 1] < vertices[j] || (j > 0 && vparts[i - 1] == vertices[j - 1] == vertices[j])
    ensures !Taken(vparts, vertices, j) && (vertices[j] in vparts ==> vertices[j] in vertices[..j])
  {
    if vertices[j] in vparts {
      var t :| 0 <= t < |vparts| && vparts[t] == vertices[j];
      assert t < i;
      assert vertices[j - 1] in vertices[..j];
    }
  }

  lemma {:induction false} SplitDone(vparts: seq<int>, vertices: seq<int>, i: nat, j: nat, ps: seq<int>, marked: seq<int>)
    requires Rising(vparts) && InOrder(vertices) && SplitAt(vparts, vertices, i, j, ps, marked)
    requires i == |vparts| || j == |vertices|
    ensures forall x :: x in ps <==> x in vertices && x in vparts
    ensures forall k: nat :: k < |vertices| ==> marked[k] == if Taken(vparts, vertices, k) then INVALID_VERTEX_ID else vertices[k]
  {
    forall k: nat | j <= k < |vertices| ensures !Taken(vparts, vertices, k) && (vertices[k] in vparts ==> vertices[k] in vertices[..j]) {
      LaterNotTaken(vparts, vertices, i, j, k);
    }
    forall x ensures x in vertices && x in vparts ==> x in vertices[..j] {
      if x in vertices && x in vparts {
        var k :| 0 <= k < |vertices| && vertices[k] == x;
        if k < j { assert vertices[..j][k] == x; }
      }
    }
  }

  lemma {:induction false} LaterNotTaken(vparts: seq<int>, vertices: seq<int>, i: nat, j: nat, k: nat)
    requires Rising(vparts) && InOrder(vertices) && i == |vparts| && j <= k < |vertices|
    requires i > 0 ==> vparts[i - 1] < vertices[j] || (j > 0 && vparts[i - 1] == vertices[j - 1] == vertices[j])
    ensures !Taken(vparts, vertices, k) && (vertices[k] in vparts ==> vertices[k] in vertices[..j])
  {
    if vertices[k] in vparts {
      var t :| 0 <= t < |vparts| && vparts[t] == vertices[k];
      assert vparts[t] <= vparts[i - 1];
      assert vertices[j] <= vertices[k];
      assert vertices[..j][j - 1] == vertices[k] && vertices[..k][j - 1] == vertices[k];
    }
  }

  lemma {:induction false} MarkedTimes(vparts: seq<int>, vertices: seq<int>, marked: seq<int>, n: nat, x: int)
    requires n <= |vertices| == |marked| && x != INVALID_VERTEX_ID
    requires forall k: nat :: k < |vertices| ==> marked[k] == if Taken(vparts, vertices, k) then INVALID_VERTEX_ID else vertices[k]
    ensures multiset(marked[..n])[x] == multiset(vertices[..n])[x] - if x in vertices[..n] && x in vparts then 1 else 0
  {
    if n > 0 {
      MarkedTimes(vparts, vertices, marked, n - 1, x);
      OneLonger(marked, n);
      OneLonger(vertices, n);
      MarkedOne(vparts, marked[..n - 1], vertices[..n - 1], marked[n - 1], vertices[n - 1], x);
    }
  }

  lemma {:induction false} MarkedOne(vparts: seq<int>, marked: seq<int>, vertices: seq<int>, m: int, v: int, x: int)
    requires multiset(marked)[x] == multiset(vertices)[x] - (if x in vertices && x in vparts then 1 else 0)
    requires x != INVALID_VERTEX_ID && m == if v in vparts && v !in vertices then INVALID_VERTEX_ID else v
    ensures multiset(marked + [m])[x] == multiset(vertices + [v])[x] - if x in vertices + [v] && x in vparts then 1 else 0
  {
    OneMore(marked, m, x);
    OneMore(vertices, v, x);
    assert x in vertices + [v] <==> x in vertices || x == v;
  }

  lemma {:induction false} OneLonger<T>(v: seq<T>, n: nat)
    requires 0 < n <= |v|
    ensures v[..n] == v[..n - 1] + [v[n - 1]]
  {
  }

  lemma {:induction false} OneMore<T>(v: seq<T>, a: T, x: T)
    ensures multiset(v + [a])[x] == multiset(v)[x] + if x == a then 1 else 0
  {
  }

  lemma {:induction false} RestTimes(vparts: seq<int>, vertices: seq<int>, marked: seq<int>, x: int)
    requires |vertices| == |marked| && INVALID_VERTEX_ID !in vertices
    requires forall k: nat :: k < |vertices| ==> marked[k] == if Taken(vparts, vertices, k) then INVALID_VERTEX_ID else vertices[k]
    ensures multiset(Without(marked, INVALID_VERTEX_ID))[x] == multiset(vertices)[x] - if x in vertices && x in vparts then 1 else 0
  {
    WithoutTimes(marked, INVALID_VERTEX_ID, x);
    if x != INVALID_VERTEX_ID {
      MarkedTimes(vparts, vertices, marked, |vertices|, x);
      assert marked[..|vertices|] == marked && vertices[..|vertices|] == vertices;
    }
  }

  // A list of vertex ids drawn from vertices.
  function Naturals(v: seq<int>, vertices: seq<nat>): (r: seq<nat>)
    requires forall x :: x in v ==> x in vertices
    ensures r == v
  {
    assert forall i :: 0 <= i < |v| ==> v[i] in v;
    v
  }

  // std::sort, which drops nothing.
  function Insert(v: seq<nat>, x: nat): seq<nat> {
    if v == [] || v[|v| - 1] <= x then v + [x] else Insert(v[..|v| - 1], x) + [v[|v| - 1]]
  }

  function Sort(v: seq<nat>): seq<nat> {
    if v == [] then [] else Insert(Sort(v[..|v| - 1]), v[|v| - 1])
  }

  lemma {:induction false} InsertKeeps(v: seq<nat>, x: nat)
    requires InOrder(v)
    ensures InOrder(Insert(v, x))
    decreases |v|
  {
    if v != [] && v[|v| - 1] > x {
      var front, last := v[..|v| - 1], v[|v| - 1];
      InsertKeeps(front, x);
      var r := Insert(front, x);
      forall i | 0 <= i < |r| ensures r[i] <= last { InsertFrom(front, x, r[i]); }
      forall i, j | 0 <= i < j < |r + [last]| ensures (r + [last])[i] <= (r + [last])[j] {}
    }
  }

  lemma {:induction false} InsertFrom(v: seq<nat>, x: nat, y: nat)
    requires y in Insert(v, x)
    ensures y == x || y in v
    decreases |v|
  {
    if v != [] && v[|v| - 1] > x && y != v[|v| - 1] { InsertFrom(v[..|v| - 1], x, y); }
  }

  lemma {:induction false} InsertTimes(v: seq<nat>, x: nat, y: nat)
    ensures multiset(Insert(v, x))[y] == multiset(v)[y] + if y == x then 1 else 0
    decreases |v|
  {
    if v == [] || v[|v| - 1] <= x {
      OneMore(v, x, y);
    } else {
      var front, last := v[..|v| - 1], v[|v| - 1];
      InsertTimes(front, x, y);
      OneMore(Insert(front, x), last, y);
      OneMore(front, last, y);
      assert v == front + [last];
    }
  }

  lemma {:induction false} SortKeeps(v: seq<nat>)
    ensures InOrder(Sort(v))
  {
    if v != [] {
      SortKeeps(v[..|v| - 1]);
      InsertKeeps(Sort(v[..|v| - 1]), v[|v| - 1]);
    }
  }

  lemma {:induction false} SortTimes(v: seq<nat>, y: nat)
    ensures multiset(Sort(v))[y] == multiset(v)[y]
  {
    if v != [] {
      var front, last := v[..|v| - 1], v[|v| - 1];
      SortTimes(front, y);
      InsertTimes(Sort(front), last, y);
      OneMore(front, last, y);
      assert v == front + [last];
    }
  }

  // The given vertices in order.
  method Arranged(given: seq<nat>, sorted: bool) returns (vertices: seq<nat>)
    requires sorted ==> InOrder(given)
    ensures InOrder(vertices) && multiset(vertices) == multiset(given)
  {
    if sorted {
      return given;
    }
    SortKeeps(given);
    vertices := Sort(given);
    forall x: nat ensures multiset(vertices)[x] == multiset(given)[x] { SortTimes(given, x); }
  }

  // How often an item is handed out when the queue starts with the given vertices.
  function StartTimes(cfg: Config, part: nat, split: seq<nat>, given: seq<nat>, x: Item): int {
    if x.part != part then 0
    else if x.Main? then multiset(given)[x.id] - (if x.id in given && x.id in split then 1 else 0)
    else if x.id in given && x.id in split && x.k < cfg.vparts then 1 else 0
  }

  // Each item of the given vertices is handed out once, and nothing else is, exactly if no
  // vertex is given twice.
  lemma {:induction false} StartOnceIff(cfg: Config, part: nat, split: seq<nat>, given: seq<nat>)
    requires SplitIs(cfg, part, split)
    ensures
      (forall x :: StartTimes(cfg, part, split, given, x) == if x in Expand(cfg, part, Elements(given)) then 1 else 0)
      <==> Distinct(given)
  {
    if Distinct(given) {
      forall x ensures StartTimes(cfg, part, split, given, x) == if x in Expand(cfg, part, Elements(given)) then 1 else 0 {
        StartOnce(cfg, part, split, given, x);
      }
    } else {
      var i, j :| 0 <= i < j < |given| && given[i] == given[j];
      TwiceTimes(given, i, j);
      StartTwice(cfg, part, split, given, given[i]);
    }
  }

  lemma {:induction false} InExpand(cfg: Config, part: nat, split: seq<nat>, given: seq<nat>, x: Item)
    requires SplitIs(cfg, part, split)
    ensures x in Expand(cfg, part, Elements(given)) <==>
      x.part == part && x.id in given && if x.Main? then x.id !in split else x.id in split && x.k < cfg.vparts
  {
    assert x.id in given <==> x.id in Elements(given);
    assert Main(part, x.id) in cfg.split <==> x.id in split;
  }

  lemma {:induction false} StartOnce(cfg: Config, part: nat, split: seq<nat>, given: seq<nat>, x: Item)
    requires SplitIs(cfg, part, split) && Distinct(given)
    ensures StartTimes(cfg, part, split, given, x) == if x in Expand(cfg, part, Elements(given)) then 1 else 0
  {
    InExpand(cfg, part, split, given, x);
    DistinctTimes(given, x.id);
  }

  lemma {:induction false} TwiceTimes(given: seq<nat>, i: nat, j: nat)
    requires i < j < |given| && given[i] == given[j]
    ensures multiset(given)[given[i]] >= 2
  {
    assert given == given[..j] + given[j..];
    assert given[..j][i] == given[i] && given[j..][0] == given[i];
  }

  // A vertex given twice: handed out twice, or, if it is split, as a whole besides its parts.
  lemma {:induction false} StartTwice(cfg: Config, part: nat, split: seq<nat>, given: seq<nat>, d: nat)
    requires SplitIs(cfg, part, split) && multiset(given)[d] >= 2
    ensures
      if d in split then StartTimes(cfg, part, split, given, Main(part, d)) >= 1 && Main(part, d) !in Expand(cfg, part, Elements(given))
      else StartTimes(cfg, part, split, given, Main(part, d)) >= 2
  {
    InExpand(cfg, part, split, given, Main(part, d));
  }

  // The shortest such list.
  lemma {:induction false} GivenTwice(cfg: Config, part: nat, split: seq<nat>, d: nat)
    requires SplitIs(cfg, part, split)
    ensures StartTimes(cfg, part, split, [d, d], Main(part, d)) == if d in split then 1 else 2
    ensures d in split ==> Main(part, d) !in Expand(cfg, part, Elements([d, d]))
  {
    assert multiset([d, d])[d] == 2;
    InExpand(cfg, part, split, [d, d], Main(part, d));
  }

  class DefaultVertexQueue {
    const part: nat
    const numVparts: nat
    const split: seq<nat>          // the vertically partitioned vertices of the partition
    var vertexBuf: seq<Item>
    var bufIdx: ScanPointer
    var vpartPs: seq<nat>
    var currVpart: nat
    var active: ActiveVertexSet
    var numActive: nat
    ghost var left: multiset<Item>      // everything still to be handed out

    constructor (part: nat, numVparts: nat, split: seq<nat>, numVertices: nat)
      ensures Valid() && left == multiset{} && active.bitmap.maxBits == numVertices
      ensures this.part == part && this.numVparts == numVparts && this.split == split
      ensures fresh(active) && fresh(active.bitmap) && fresh(active.bitmap.words)
    {
      this.part, this.numVparts, this.split := part, numVparts, split;
      vertexBuf, vpartPs, currVpart, numActive := [], [], 0, 0;
      bufIdx := ScanPointer.Start(0, true);
      active := new ActiveVertexSet(numVertices);
      left := multiset{};
    }

    ghost predicate Shape()
      reads this, active, active.bitmap, active.bitmap.words
    {
      && bufIdx.Valid() && bufIdx.size == |vertexBuf|
      && active.Ready() && Distinct(vpartPs)
      && Placed(left, vertexBuf, bufIdx, Source(part, active.Contents(), vpartPs, currVpart, numVparts))
    }

    ghost predicate Valid()
      reads this, active, active.bitmap, active.bitmap.words
    {
      Shape() && numActive == |left|
    }

    // Hands out up to num vertices of the buffer.
    method TakeBuffered(num: nat) returns (out: seq<Item>)
      requires Shape()
      modifies this`bufIdx, this`left
      ensures Shape() && |out| == Min(num, old(bufIdx).Remaining())
      ensures bufIdx.Remaining() == old(bufIdx).Remaining() - |out|
      ensures old(left) == left + multiset(out)
    {
      var count := Min(num, bufIdx.Remaining());
      var moved := bufIdx.Move(count);
      out := Scanned(vertexBuf, bufIdx, count);
      PlacedTake(left, vertexBuf, bufIdx, Source(part, active.Contents(), vpartPs, currVpart, numVparts), count, moved, out);
      bufIdx, left := moved, left - multiset(out);
    }

    // Refills the empty buffer from the set of active vertices.
    method FetchFromMap(forward: bool)
      requires Shape() && bufIdx.Remaining() == 0
      modifies this`vertexBuf, this`bufIdx, active, active.bitmap, active.bitmap.words
      ensures Shape()
      ensures bufIdx == ScanPointer.Start(|vertexBuf|, forward)
      ensures vertexBuf == [] ==> active.Contents() == {}
    {
      ghost var src := Source(part, active.Contents(), vpartPs, currVpart, numVparts);
      var ids := active.FetchReset(VERTEX_BUF_SIZE);
      PlacedFromSet(left, vertexBuf, bufIdx, src, ids, forward);
      vertexBuf := WholeList(part, ids);
      bufIdx := ScanPointer.Start(|vertexBuf|, forward);
    }

    // Refills the empty buffer with the next vertical part of every partitioned vertex.
    method FetchVparts()
      requires Shape() && bufIdx.Remaining() == 0
      modifies this`vertexBuf, this`bufIdx, this`currVpart
      ensures Shape()
      ensures if old(currVpart) < numVparts then bufIdx == ScanPointer.Start(|vpartPs|, true)
              else bufIdx == old(bufIdx) && currVpart == old(currVpart)
    {
      if currVpart >= numVparts {
        return;
      }
      PlacedParts(left, vertexBuf, bufIdx, Source(part, active.Contents(), vpartPs, currVpart, numVparts));
      vertexBuf := PartList(part, vpartPs, currVpart);
      currVpart := currVpart + 1;
      bufIdx := ScanPointer.Start(|vertexBuf|, true);
    }

    method Refill(forward: bool)
      requires Shape() && bufIdx.Remaining() == 0
      modifies this`vertexBuf, this`bufIdx, this`currVpart, active, active.bitmap, active.bitmap.words
      ensures Shape()
      ensures bufIdx.Remaining() == 0 ==> left == multiset{}
    {
      FetchFromMap(forward);
      if vertexBuf == [] && vpartPs != [] {
        FetchVparts();
      }
    }

    method TakeThenRefill(num: nat, forward: bool) returns (out: seq<Item>)
      requires Shape()
      modifies this`vertexBuf, this`bufIdx, this`currVpart, this`left, active, active.bitmap, active.bitmap.words
      ensures Shape() && |out| <= num && old(left) == left + multiset(out)
      ensures |out| < num && bufIdx.Remaining() == 0 ==> left == multiset{}
    {
      out := [];
      if bufIdx.Remaining() > 0 {
        out := TakeBuffered(num);
      }
      assert |out| == num || bufIdx.Remaining() == 0;
      if bufIdx.Remaining() == 0 {
        Refill(forward);
      }
    }

    // The critical section of fetch; the caller may have seen a count that is out of date.
    method FetchLocked(num: nat, forward: bool) returns (out: seq<Item>)
      requires Valid()
      modifies this`vertexBuf, this`bufIdx, this`currVpart, this`numActive, this`left
      modifies active, active.bitmap, active.bitmap.words
      ensures Valid() && |out| <= num && old(left) == left + multiset(out)
      ensures numActive == old(numActive) - |out|
      ensures out == [] ==> num == 0 || left == multiset{}
    {
      ghost var all := left;
      out := TakeThenRefill(num, forward);
      out := TakeRest(num, out, all);
      assert |all| == |left| + |multiset(out)|;
      numActive := numActive - |out|;
    }

    // What a refilled buffer adds to the vertices taken so far.
    method TakeRest(num: nat, before: seq<Item>, ghost all: multiset<Item>) returns (out: seq<Item>)
      requires Shape() && |before| <= num && all == left + multiset(before)
      requires |before| < num && bufIdx.Remaining() == 0 ==> left == multiset{}
      modifies this`bufIdx, this`left
      ensures Shape() && |out| <= num && all == left + multiset(out)
      ensures out == [] ==> num == 0 || left == multiset{}
    {
      out := before;
      if bufIdx.Remaining() > 0 && |out| < num {
        var more := TakeBuffered(num - |out|);
        TakenTwice(all, out, more, left);
        out := out + more;
      }
    }

    method Fetch(num: nat, forward: bool) returns (out: seq<Item>)
      requires Valid()
      modifies this`vertexBuf, this`bufIdx, this`currVpart, this`numActive, this`left
      modifies active, active.bitmap, active.bitmap.words
      ensures Valid() && |out| <= num && old(left) == left + multiset(out)
      ensures numActive == old(numActive) - |out|
      ensures out == [] <==> num == 0 || old(left) == multiset{}
    {
      if numActive == 0 {
        return [];
      }
      out := FetchLocked(num, forward);
      if out != [] { assert out[0] in multiset(out); }
    }

    // Takes the vertically partitioned vertices out of the set.
    static method CollectVparts(set_: ActiveVertexSet, split: seq<nat>, count: nat) returns (ps: seq<nat>, rest: nat)
      requires set_.Valid() && set_.activeV == [] && Distinct(split) && Below(split, set_.bitmap.maxBits)
      requires count == |set_.Contents()|
      modifies set_.bitmap`numSet, set_.bitmap.words
      ensures set_.Valid() && set_.activeV == [] && Distinct(ps)
      ensures Elements(ps) == old(set_.Contents()) * Elements(split)
      ensures set_.Contents() == old(set_.Contents()) - Elements(split) && rest == |set_.Contents()|
    {
      ps, rest := [], count;
      ghost var all := set_.Contents();
      for i := 0 to |split|
        invariant set_.Valid() && set_.activeV == [] && Distinct(ps)
        invariant Elements(ps) == all * Elements(split[..i])
        invariant set_.Contents() == all - Elements(split[..i]) && rest == |set_.Contents()|
      {
        var here := set_.IsActive(split[i]);
        PartTaken(all, split, i, ps);
        if here {
          ps := ps + [split[i]];
          set_.ResetActiveVertex(split[i]);
          rest := rest - 1;
        }
      }
      assert split[..|split|] == split;
    }

    // Counts a set swapped in, apart from the vertically partitioned vertices, which it takes out.
    static method LoadSet(set_: ActiveVertexSet, split: seq<nat>, numVparts: nat) returns (ps: seq<nat>, count: nat)
      requires set_.Valid() && Distinct(split) && Below(split, set_.bitmap.maxBits)
      modifies set_, set_.bitmap, set_.bitmap.words
      ensures set_.Valid() && Distinct(set_.activeV) && Distinct(ps)
      ensures Elements(ps) == old(set_.Contents()) * Elements(split)
      ensures set_.Contents() == old(set_.Contents()) - Elements(split)
      ensures count == |set_.Contents()| + PartTotal(|ps|, numVparts)
    {
      ps := [];
      set_.Finalize();
      count := set_.NumActiveVertices();
      if split != [] {
        set_.ForceBitmap();
        ps, count := CollectVparts(set_, split, count);
        PartTotalIs(|ps|, numVparts);
        count := count + |ps| * numVparts;
      }
    }

    // Makes the vertices of a set the queue's contents.
    method Load(next: ActiveVertexSet, forward: bool)
      requires next.Valid() && Below(split, next.bitmap.maxBits) && Distinct(split)
      modifies this, next, next.bitmap, next.bitmap.words
      ensures Valid() && active == next && Elements(vpartPs) == old(next.Contents()) * Elements(split)
      ensures forall x :: left[x] == if Source(part, old(next.Contents()) - Elements(split), vpartPs, 0, numVparts).Has(x) then 1 else 0
    {
      ghost var ids := next.Contents();
      var ps, count := LoadSet(next, split, numVparts);
      next.SetDir(forward);
      ghost var all := Filled(Source(part, next.Contents(), ps, 0, numVparts));
      Install(next, ps, count, multiset(all));
    }

    method Install(next: ActiveVertexSet, ps: seq<nat>, count: nat, ghost all: multiset<Item>)
      requires next.Ready() && Distinct(ps) && count == |all|
      requires forall x :: all[x] == if Source(part, next.Contents(), ps, 0, numVparts).Has(x) then 1 else 0
      modifies this
      ensures Valid() && active == next && vpartPs == ps && numActive == count && left == all
    {
      PlacedFresh(all, Source(part, next.Contents(), ps, 0, numVparts));
      active := next;
      vpartPs, numActive := ps, count;
      vertexBuf, bufIdx, currVpart := [], ScanPointer.Start(0, true), 0;
      left := all;
    }

    // The first level: the given vertices become the queue's contents.
    method InitStart(cfg: Config, given: seq<nat>, sorted: bool)
      requires active.Valid() && (sorted ==> InOrder(given)) && Ascending(split) && cfg.vparts == numVparts
      modifies this, active, active.bitmap, active.bitmap.words
      ensures Valid() && active == old(active)
      ensures forall x :: left[x] == StartTimes(cfg, part, split, given, x)
    {
      var vertices := Arranged(given, sorted);
      active.Clear();
      var rest, ps := SplitVertices(split, vertices);
      RestDrawn(vertices, split, rest);
      var whole, parts := Naturals(rest, vertices), Naturals(ps, vertices);
      ghost var all := StartContents(cfg, part, split, given, vertices, whole, parts);
      Start(WholeList(part, whole), parts, |whole| + |parts| * numVparts, all);
    }

    method Start(buf: seq<Item>, ps: seq<nat>, count: nat, ghost all: multiset<Item>)
      requires active.Ready() && active.Contents() == {} && Distinct(ps) && count == |all|
      requires Placed(all, buf, ScanPointer.Start(|buf|, true), Source(part, {}, ps, 0, numVparts))
      modifies this`vertexBuf, this`bufIdx, this`vpartPs, this`currVpart, this`numActive, this`left
      ensures Valid() && left == all
    {
      vertexBuf, vpartPs, currVpart := buf, ps, 0;
      bufIdx := ScanPointer.Start(|vertexBuf|, true);
      numActive, left := count, all;
    }

    // The start of a level: the vertices activated for it become the queue's contents,
    // the set used so far is handed back empty.
    method InitLevel(cfg: Config, next: ActiveVertexSet, forward: bool) returns (spare: ActiveVertexSet)
      requires Valid() && numActive == 0
      requires next.Valid() && next != active && next.bitmap != active.bitmap && next.bitmap.words != active.bitmap.words
      requires Below(split, next.bitmap.maxBits) && Distinct(split)
      requires cfg.vparts == numVparts && SplitIs(cfg, part, split)
      modifies this, next, next.bitmap, next.bitmap.words
      ensures Valid() && active == next && spare == old(active) && spare.Valid() && spare.Contents() == {}
      ensures left == multiset(Expand(cfg, part, old(next.Contents())))
    {
      NothingActive();
      spare := active;
      ghost var ids := next.Contents();
      Load(next, forward);
      forall x ensures left[x] == if x in Expand(cfg, part, ids) then 1 else 0 { ExpandIs(cfg, part, ids, split, vpartPs, x); }
    }

    lemma {:induction false} NothingActive()
      requires Valid() && numActive == 0
      ensures active.Contents() == {}
    {
      assert left == multiset{};
      var src := Source(part, active.Contents(), vpartPs, currVpart, numVparts);
      forall d ensures d !in active.Contents() {
        assert src.Has(Main(part, d)) <==> d in active.Contents();
        assert Main(part, d) !in left;
      }
    }
  }

  // What is not taken out comes from the list.
  lemma {:induction false} RestDrawn(vertices: seq<int>, split: seq<int>, rest: seq<int>)
    requires forall x :: multiset(rest)[x] == multiset(vertices)[x] - if x in vertices && x in split then 1 else 0
    ensures forall x :: x in rest ==> x in vertices
  {
    forall x | x in rest ensures x in vertices { assert x in multiset(rest); }
  }

  // What the queue starts with: a buffer of the vertices not taken out and the list of the
  // others.
  lemma {:induction false} StartContents(cfg: Config, part: nat, split: seq<nat>, given: seq<nat>, vertices: seq<nat>, whole: seq<nat>, parts: seq<nat>)
    returns (all: multiset<Item>)
    requires multiset(vertices) == multiset(given) && Ascending(parts) && forall x :: x in parts <==> x in vertices && x in split
    requires forall x :: multiset(whole)[x] == multiset(vertices)[x] - if x in vertices && x in split then 1 else 0
    ensures (forall x :: all[x] == StartTimes(cfg, part, split, given, x)) && |all| == |whole| + |parts| * cfg.vparts
    ensures Placed(all, WholeList(part, whole), ScanPointer.Start(|whole|, true), Source(part, {}, parts, 0, cfg.vparts))
  {
    var src, buf := Source(part, {}, parts, 0, cfg.vparts), WholeList(part, whole);
    var items := Filled(src);
    all := multiset(buf) + multiset(items);
    PartTotalIs(|parts|, cfg.vparts);
    assert buf[0..|whole|] == buf;
    forall x ensures all[x] == StartTimes(cfg, part, split, given, x) && all[x] == multiset(buf)[x] + if src.Has(x) then 1 else 0 {
      StartItem(cfg, part, split, given, vertices, whole, parts, x);
      assert multiset(items)[x] == if x in items then 1 else 0;
    }
  }

  lemma {:induction false} StartItem(cfg: Config, part: nat, split: seq<nat>, given: seq<nat>, vertices: seq<nat>, whole: seq<nat>, parts: seq<nat>, x: Item)
    requires multiset(vertices) == multiset(given) && forall x :: x in parts <==> x in vertices && x in split
    requires forall x :: multiset(whole)[x] == multiset(vertices)[x] - if x in vertices && x in split then 1 else 0
    ensures StartTimes(cfg, part, split, given, x)
            == multiset(WholeList(part, whole))[x] + if Source(part, {}, parts, 0, cfg.vparts).Has(x) then 1 else 0
  {
    WholeTimes(part, whole, x);
    assert x.id in given <==> x.id in multiset(given);
    assert x.id in vertices <==> x.id in multiset(vertices);
  }

  // One more vertically partitioned vertex found in the set, or not.
  lemma {:induction false} PartTaken(all: set<nat>, split: seq<nat>, i: nat, ps: seq<nat>)
    requires i < |split| && Distinct(split) && Distinct(ps) && Elements(ps) == all * Elements(split[..i])
    ensures
      var id, left := split[i], all - Elements(split[..i]);
      if id in left then
        && Distinct(ps + [id]) && Elements(ps + [id]) == all * Elements(split[..i + 1])
        && left - {id} == all - Elements(split[..i + 1]) && |left - {id}| == |left| - 1
      else
        Elements(ps) == all * Elements(split[..i + 1]) && left == all - Elements(split[..i + 1])
  {
    ElementsSnoc(split, i);
    assert split[i] !in split[..i];
    if split[i] in all { DistinctAppend(ps, [split[i]]); }
  }

  // Two batches taken one after the other.
  lemma {:induction false} TakenTwice(all: multiset<Item>, out: seq<Item>, more: seq<Item>, left: multiset<Item>)
    requires all == left + multiset(more) + multiset(out)
    ensures all == left + multiset(out + more)
  {
    assert multiset(out + more) == multiset(out) + multiset(more);
  }

  // As many fetches as there are items, none of them for nothing.
  predicate Enough(nums: seq<nat>, count: nat) {
    |nums| >= count && forall i :: 0 <= i < |nums| ==> nums[i] > 0
  }

  // Any schedule of fetches, by the owner or by thieves, of any sizes and in any direction:
  // what is handed out and what is left are together what there was.
  method FetchAll(q: DefaultVertexQueue, nums: seq<nat>, forward: bool) returns (out: seq<Item>)
    requires q.Valid()
    modifies q`vertexBuf, q`bufIdx, q`currVpart, q`numActive, q`left, q.active, q.active.bitmap, q.active.bitmap.words
    ensures q.Valid() && old(q.left) == q.left + multiset(out) && q.numActive == old(q.numActive) - |out|
    ensures Enough(nums, old(q.numActive)) ==> multiset(out) == old(q.left)
  {
    ghost var all := q.left;
    out := [];
    for i := 0 to |nums|
      invariant q.Valid() && all == q.left + multiset(out)
      invariant q.numActive == old(q.numActive) - |out|
      invariant (forall j :: 0 <= j < i ==> nums[j] > 0) ==> |out| >= i || q.left == multiset{}
    {
      var more := q.Fetch(nums[i], forward);
      TakenTwice(all, out, more, q.left);
      out := out + more;
    }
  }

  // From a level's set of active vertices, no item is handed out twice, and after enough
  // fetches every item has been.
  method FetchLevel(q: DefaultVertexQueue, cfg: Config, next: ActiveVertexSet, forward: bool, nums: seq<nat>) returns (out: seq<Item>)
    requires q.Valid() && q.numActive == 0
    requires next.Valid() && next != q.active && next.bitmap != q.active.bitmap && next.bitmap.words != q.active.bitmap.words
    requires Below(q.split, next.bitmap.maxBits) && Distinct(q.split) && cfg.vparts == q.numVparts && SplitIs(cfg, q.part, q.split)
    modifies q, next, next.bitmap, next.bitmap.words
    ensures q.Valid() && multiset(out) <= multiset(Expand(cfg, q.part, old(next.Contents()))) && Distinct(out)
    ensures Enough(nums, |Expand(cfg, q.part, old(next.Contents()))|) ==> multiset(out) == multiset(Expand(cfg, q.part, old(next.Contents())))
  {
    var spare := q.InitLevel(cfg, next, forward);
    ghost var all := Expand(cfg, q.part, old(next.Contents()));
    out := FetchAll(q, nums, forward);
    OnlyOnce(out, all);
  }

  // From the vertices the user starts the engine with, a queue fetched until it is empty hands
  // out every item exactly once if and only if no vertex was given twice.
  method FetchStart(q: DefaultVertexQueue, cfg: Config, given: seq<nat>, sorted: bool, forward: bool, nums: seq<nat>) returns (out: seq<Item>)
    requires q.active.Valid() && (sorted ==> InOrder(given))
    requires Ascending(q.split) && cfg.vparts == q.numVparts && SplitIs(cfg, q.part, q.split)
    modifies q, q.active, q.active.bitmap, q.active.bitmap.words
    ensures q.Valid()
    ensures forall x :: multiset(out)[x] <= StartTimes(cfg, q.part, q.split, given, x)
    ensures q.numActive == 0 ==> (multiset(out) == multiset(Expand(cfg, q.part, Elements(given))) <==> Distinct(given))
  {
    q.InitStart(cfg, given, sorted);
    ghost var all := q.left;
    out := FetchAll(q, nums, forward);
    StartOnceIff(cfg, q.part, q.split, given);
    SameTimes(all, Expand(cfg, q.part, Elements(given)));
  }

  lemma {:induction false} SameTimes(all: multiset<Item>, items: set<Item>)
    ensures all == multiset(items) <==> forall x :: all[x] == if x in items then 1 else 0
  {
    if all == multiset(items) {
      forall x ensures all[x] == if x in items then 1 else 0 { assert multiset(items)[x] == if x in items then 1 else 0; }
    }
  }

  lemma {:induction false} OnlyOnce(out: seq<Item>, all: set<Item>)
    requires multiset(out) <= multiset(all)
    ensures Distinct(out)
  {
    forall i, j | 0 <= i < j < |out| ensures out[i] != out[j] {
      assert out == out[..j] + [out[j]] + out[j + 1..];
      assert out[..j][i] == out[i];
      OneMore(out[..j], out[j], out[j]);
      assert multiset(out)[out[j]] <= multiset(all)[out[j]] <= 1;
    }
  }
}
