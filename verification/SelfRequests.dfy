/**
 Vertices that request their own adjacency lists: the requested ids are gathered into
 ranges, the ranges into index requests, and those into I/O requests over a file that holds
 the adjacency lists in order of the ids.
 */
module SelfRequests {
  import opened CompressedIndex

  // The vertices from first to last, last excluded.
  datatype Range = Range(first: nat, last: nat)

  ghost predicate Covers(rs: seq<Range>, id: nat) {
    exists i :: 0 <= i < |rs| && rs[i].first <= id < rs[i].last
  }

  // Ranges in order of their ids, none empty and no two overlapping.
  ghost predicate Proper(rs: seq<Range>) {
    && (forall i :: 0 <= i < |rs| ==> rs[i].first < rs[i].last)
    && (forall i, j :: 0 <= i < j < |rs| ==> rs[i].last <= rs[j].first)
  }

  // The same without the order.
  ghost predicate Disjoint(rs: seq<Range>) {
    && (forall i :: 0 <= i < |rs| ==> rs[i].first < rs[i].last)
    && (forall i, j :: 0 <= i < j < |rs| ==> rs[i].last <= rs[j].first || rs[j].last <= rs[i].first)
  }

  // No two neighbours could be merged any more.
  ghost predicate Apart(rs: seq<Range>) {
    forall i, j :: 0 <= i < j < |rs| ==> rs[i].last < rs[j].first
  }

  lemma {:induction false} CoversSnoc(rs: seq<Range>, r: Range, id: nat)
    ensures Covers(rs + [r], id) <==> Covers(rs, id) || r.first <= id < r.last
  {
    if Covers(rs, id) {
      var i :| 0 <= i < |rs| && rs[i].first <= id < rs[i].last;
      assert (rs + [r])[i] == rs[i];
    }
    if r.first <= id < r.last { assert (rs + [r])[|rs|] == r; }
  }

  // ----- gathering the requests

  ghost predicate Distinct(ids: seq<nat>) {
    forall i, j :: 0 <= i < j < |ids| ==> ids[i] != ids[j]
  }

  // request_vertex: an id that continues the last range extends it.
  method RequestVertex(reqs: seq<Range>, id: nat) returns (more: seq<Range>)
    requires Disjoint(reqs) && !Covers(reqs, id)
    ensures Disjoint(more)
    ensures forall other :: Covers(more, other) <==> Covers(reqs, other) || other == id
  {
    var n := |reqs|;
    if n > 0 && reqs[n - 1].last == id {
      Extended(reqs[..n - 1], reqs[n - 1], id);
      assert reqs == reqs[..n - 1] + [reqs[n - 1]];
      more := reqs[..n - 1] + [Range(reqs[n - 1].first, id + 1)];
    } else {
      Appended(reqs, id);
      more := reqs + [Range(id, id + 1)];
    }
  }

  lemma {:induction false} Appended(reqs: seq<Range>, id: nat)
    requires Disjoint(reqs) && !Covers(reqs, id)
    ensures Disjoint(reqs + [Range(id, id + 1)])
    ensures forall other :: Covers(reqs + [Range(id, id + 1)], other) <==> Covers(reqs, other) || other == id
  {
    forall other: nat ensures Covers(reqs + [Range(id, id + 1)], other) <==> Covers(reqs, other) || other == id {
      CoversSnoc(reqs, Range(id, id + 1), other);
    }
  }

  lemma {:induction false} Extended(front: seq<Range>, r: Range, id: nat)
    requires Disjoint(front + [r]) && r.last == id && !Covers(front + [r], id)
    ensures Disjoint(front + [Range(r.first, id + 1)])
    ensures forall other :: Covers(front + [Range(r.first, id + 1)], other) <==> Covers(front + [r], other) || other == id
  {
    CoversSnoc(front, r, id);
    var all := front + [r];
    assert all[|front|] == r && forall k :: 0 <= k < |front| ==> all[k] == front[k];
    forall other: nat
      ensures Covers(front + [Range(r.first, id + 1)], other) <==> Covers(all, other) || other == id
    {
      CoversSnoc(front, r, other);
      CoversSnoc(front, Range(r.first, id + 1), other);
    }
  }

  // The requests of one level, one vertex after the other.
  method RequestVertices(ids: seq<nat>) returns (reqs: seq<Range>)
    requires Distinct(ids)
    ensures Disjoint(reqs)
    ensures forall id :: Covers(reqs, id) <==> id in ids
  {
    reqs := [];
    for i := 0 to |ids|
      invariant Disjoint(reqs)
      invariant forall id :: Covers(reqs, id) <==> id in ids[..i]
    {
      assert ids[..i + 1] == ids[..i] + [ids[i]];
      reqs := RequestVertex(reqs, ids[i]);
    }
    assert ids[..|ids|] == ids;
  }

  // ----- sorting and merging ranges of ids

  // Sorting by the first id.
  function Insert(rs: seq<Range>, r: Range): seq<Range> {
    var n := |rs|;
    if n == 0 || rs[n - 1].first <= r.first then rs + [r] else Insert(rs[..n - 1], r) + [rs[n - 1]]
  }

  function SortRanges(rs: seq<Range>, n: nat): seq<Range>
    requires n <= |rs|
  {
    if n == 0 then [] else Insert(SortRanges(rs, n - 1), rs[n - 1])
  }

  ghost predicate Below(rs: seq<Range>, bound: nat) {
    forall i :: 0 <= i < |rs| ==> rs[i].last <= bound
  }

  ghost predicate Free(rs: seq<Range>, r: Range) {
    forall i :: 0 <= i < |rs| ==> rs[i].last <= r.first || r.last <= rs[i].first
  }

  lemma {:induction false} InsertCovers(rs: seq<Range>, r: Range, id: nat)
    ensures Covers(Insert(rs, r), id) <==> Covers(rs, id) || r.first <= id < r.last
    decreases |rs|
  {
    var n := |rs|;
    if n == 0 || rs[n - 1].first <= r.first {
      CoversSnoc(rs, r, id);
    } else {
      var front, q := rs[..n - 1], rs[n - 1];
      InsertCovers(front, r, id);
      CoversSnoc(Insert(front, r), q, id);
      CoversSnoc(front, q, id);
      assert rs == front + [q];
    }
  }

  lemma {:induction false} ProperSnoc(rs: seq<Range>, r: Range, bound: nat)
    requires Proper(rs) && Below(rs, r.first) && r.first < r.last <= bound
    ensures Proper(rs + [r]) && Below(rs + [r], bound)
  {
  }

  lemma {:induction false} InsertProper(rs: seq<Range>, r: Range, bound: nat)
    requires Proper(rs) && Free(rs, r) && r.first < r.last <= bound && Below(rs, bound)
    ensures Proper(Insert(rs, r)) && Below(Insert(rs, r), bound)
    decreases |rs|
  {
    var n := |rs|;
    if n == 0 || rs[n - 1].first <= r.first {
      ProperSnoc(rs, r, bound);
    } else {
      var front, q := rs[..n - 1], rs[n - 1];
      assert forall i :: 0 <= i < |front| ==> front[i] == rs[i];
      InsertProper(front, r, q.first);
      ProperSnoc(Insert(front, r), q, bound);
    }
  }

  // Disjoint ranges and a range of uncovered ids.
  lemma {:induction false} FreeOf(rs: seq<Range>, r: Range)
    requires Proper(rs) && r.first < r.last && forall id :: r.first <= id < r.last ==> !Covers(rs, id)
    ensures Free(rs, r)
  {
    forall i | 0 <= i < |rs| ensures rs[i].last <= r.first || r.last <= rs[i].first {
      var id := if r.first < rs[i].first then rs[i].first else r.first;
      assert rs[i].first <= id < rs[i].last ==> Covers(rs, id);
    }
  }

  lemma {:induction false} Largest(rs: seq<Range>, r: Range) returns (bound: nat)
    requires Proper(rs)
    ensures Below(rs, bound) && r.last <= bound
  {
    var n := |rs|;
    bound := if n > 0 && rs[n - 1].last > r.last then rs[n - 1].last else r.last;
    assert forall i :: 0 <= i < n - 1 ==> rs[i].last <= rs[n - 1].first < rs[n - 1].last;
  }

  lemma {:induction false} SortProper(rs: seq<Range>, n: nat)
    requires Disjoint(rs) && n <= |rs|
    ensures Proper(SortRanges(rs, n))
    ensures forall id :: Covers(SortRanges(rs, n), id) <==> Covers(rs[..n], id)
  {
    if n > 0 {
      SortProper(rs, n - 1);
      var s, r := SortRanges(rs, n - 1), rs[n - 1];
      assert rs[..n] == rs[..n - 1] + [r];
      FreeOf(s, r);
      var bound := Largest(s, r);
      InsertProper(s, r, bound);
      forall id: nat ensures Covers(Insert(s, r), id) <==> Covers(rs[..n], id) {
        InsertCovers(s, r, id);
        CoversSnoc(rs[..n - 1], r, id);
      }
    }
  }

  // Half way through merging: buf[..written] and the range at hand stand for the first i
  // ranges, and the others are still in their place.
  ghost predicate MergeAt(buf: seq<Range>, written: nat, range: Range, rs: seq<Range>, i: nat) {
    && |buf| == |rs| && written < i <= |rs| && buf[i..] == rs[i..]
    && Stands(buf[..written] + [range], range, rs, i)
  }

  ghost predicate Stands(all: seq<Range>, range: Range, rs: seq<Range>, i: nat)
    requires 0 < i <= |rs|
  {
    && Proper(all) && Apart(all) && range.last == rs[i - 1].last
    && forall id :: Covers(all, id) <==> Covers(rs[..i], id)
  }

  // merge_vertex_requests: the merged ranges are written back over those already read.
  method MergeRanges(reqs: seq<Range>) returns (merged: seq<Range>)
    requires Disjoint(reqs)
    ensures Proper(merged) && Apart(merged) && (merged == [] <==> reqs == [])
    ensures forall id :: Covers(merged, id) <==> Covers(reqs, id)
  {
    if reqs == [] {
      return reqs;
    }
    SortAll(reqs);
    merged := SortRanges(reqs, |reqs|);
    ghost var rs := merged;
    var range, written := merged[0], 0;
    MergeStart(rs);
    for i := 1 to |merged|
      invariant |merged| == |rs| && MergeAt(merged, written, range, rs, i)
    {
      MergeReads(merged, written, range, rs, i);
      if range.last == merged[i].first {
        MergeJoin(merged, written, range, rs, i);
        range := Range(range.first, merged[i].last);
      } else {
        MergeWrite(merged, written, range, rs, i);
        var next := merged[i];
        merged := merged[written := range];
        written, range := written + 1, next;
      }
    }
    MergeEnd(merged, written, range, rs);
    merged := merged[written := range][..written + 1];
  }

  lemma {:induction false} SortAll(reqs: seq<Range>)
    requires Disjoint(reqs) && reqs != []
    ensures SortRanges(reqs, |reqs|) != [] && Proper(SortRanges(reqs, |reqs|))
    ensures forall id :: Covers(SortRanges(reqs, |reqs|), id) <==> Covers(reqs, id)
  {
    SortProper(reqs, |reqs|);
    assert reqs[..|reqs|] == reqs;
    assert Covers(reqs, reqs[0].first);
  }

  lemma {:induction false} MergeStart(rs: seq<Range>)
    requires Proper(rs) && rs != []
    ensures MergeAt(rs, 0, rs[0], rs, 1)
  {
    assert rs[..0] + [rs[0]] == rs[..1];
  }

  lemma {:induction false} MergeReads(buf: seq<Range>, written: nat, range: Range, rs: seq<Range>, i: nat)
    requires MergeAt(buf, written, range, rs, i) && i < |rs|
    ensures buf[i] == rs[i]
  {
    assert buf[i] == buf[i..][0];
  }

  lemma {:induction false} MergeJoin(buf: seq<Range>, written: nat, range: Range, rs: seq<Range>, i: nat)
    requires MergeAt(buf, written, range, rs, i) && i < |rs| && Proper(rs) && range.last == rs[i].first
    ensures MergeAt(buf, written, Range(range.first, rs[i].last), rs, i + 1)
  {
    MergeStep(buf[..written], range, rs, i);
    assert buf[i + 1..] == buf[i..][1..];
  }

  lemma {:induction false} MergeWrite(buf: seq<Range>, written: nat, range: Range, rs: seq<Range>, i: nat)
    requires MergeAt(buf, written, range, rs, i) && i < |rs| && Proper(rs) && range.last != rs[i].first
    ensures MergeAt(buf[written := range], written + 1, rs[i], rs, i + 1)
  {
    MergeStep(buf[..written], range, rs, i);
    WriteBack(buf, written, range, i);
    assert buf[i + 1..] == buf[i..][1..];
  }

  lemma {:induction false} MergeEnd(buf: seq<Range>, written: nat, range: Range, rs: seq<Range>)
    requires MergeAt(buf, written, range, rs, |rs|)
    ensures buf[written := range][..written + 1] == buf[..written] + [range]
    ensures Stands(buf[..written] + [range], range, rs, |rs|) && rs[..|rs|] == rs
  {
    WriteBack(buf, written, range, |rs| - 1);
  }

  lemma {:induction false} WriteBack(buf: seq<Range>, k: nat, r: Range, i: nat)
    requires k <= i < |buf|
    ensures buf[k := r][..k + 1] == buf[..k] + [r] && buf[k := r][i + 1..] == buf[i + 1..]
  {
  }

  // One range more, joined or on its own.
  lemma {:induction false} MergeStep(merged: seq<Range>, range: Range, rs: seq<Range>, i: nat)
    requires 1 <= i < |rs| && Proper(rs) && Stands(merged + [range], range, rs, i)
    ensures range.last == rs[i].first ==>
      Stands(merged + [Range(range.first, rs[i].last)], Range(range.first, rs[i].last), rs, i + 1)
    ensures range.last != rs[i].first ==> Stands(merged + [range] + [rs[i]], rs[i], rs, i + 1)
  {
    var all := merged + [range];
    assert all[|merged|] == range && forall k :: 0 <= k < |merged| ==> all[k] == merged[k];
    assert rs[..i + 1] == rs[..i] + [rs[i]];
    forall id: nat ensures
      && (Covers(rs[..i + 1], id) <==> Covers(all, id) || rs[i].first <= id < rs[i].last)
      && (range.last == rs[i].first ==> (Covers(merged + [Range(range.first, rs[i].last)], id) <==> Covers(rs[..i + 1], id)))
      && (Covers(all + [rs[i]], id) <==> Covers(rs[..i + 1], id))
    {
      CoversSnoc(rs[..i], rs[i], id);
      CoversSnoc(merged, range, id);
      CoversSnoc(merged, Range(range.first, rs[i].last), id);
      CoversSnoc(all, rs[i], id);
    }
  }

  // ----- planning the I/O

  type Size = n: nat | n > 0 witness 1

  // Where adjacency lists of one kind lie: in one part of the file, in order of the ids,
  // with these sizes.
  datatype Part = Part(sizes: seq<Size>, base: nat) {
    function At(id: nat): nat
      requires id <= |sizes|
    {
      if id == 0 then base else At(id - 1) + sizes[id - 1]
    }
  }

  function SizeOf(degree: nat, e: nat): Size {
    SizeUndone(degree, e);
    VSize(degree, e)
  }

  // The part of a graph with these degrees whose edge data take e bytes.
  function Serialized(ds: seq<nat>, e: nat, base: nat): Part {
    Part(seq(|ds|, i requires 0 <= i < |ds| => SizeOf(ds[i], e)), base)
  }

  // It agrees with the table of offsets.
  lemma {:induction false} SerializedAt(ds: seq<nat>, e: nat, base: nat, id: nat)
    requires id <= |ds|
    ensures Serialized(ds, e, base).At(id) == Offset(ds, e, base, id)
  {
    if id > 0 { SerializedAt(ds, e, base, id - 1); }
  }

  lemma {:induction false} AtGrows(p: Part, i: nat, j: nat)
    requires i <= j <= |p.sizes|
    ensures p.At(i) + (j - i) <= p.At(j)
    decreases j
  {
    if i < j { AtGrows(p, i, j - 1); }
  }

  // One part for requests of one kind of edges, the in-part and the out-part for both.
  ghost predicate Parts(ps: seq<Part>, n: nat) {
    1 <= |ps| <= 2 && forall k :: 0 <= k < |ps| ==> |ps[k].sizes| == n
  }

  datatype Span = Span(lo: nat, hi: nat)

  // I/O requests for the bytes of each span, with the ranges whose vertices to run.
  datatype Io = Io(spans: seq<Span>, ranges: seq<Range>)

  // get_in_off_range and get_out_off_range.
  function Spans(ps: seq<Part>, r: Range): seq<Span>
    requires forall k :: 0 <= k < |ps| ==> r.first < r.last <= |ps[k].sizes|
  {
    seq(|ps|, k requires 0 <= k < |ps| =>
      Span(ps[k].At(r.first), ps[k].At(r.last - 1) + ps[k].sizes[r.last - 1]))
  }

  function RoundPage(x: nat): nat {
    x / 4096 * 4096
  }

  // can_merge_reqs, with the end of the one and the beginning of the other.
  predicate CanMerge(end: nat, begin: nat, gap: nat) {
    RoundPage(end) == RoundPage(begin) || RoundPage(end) + (1 + gap) * 4096 >= RoundPage(begin)
  }

  // The bytes skipped between two merged ranges are fewer than gap + 2 pages.
  lemma {:induction false} GapBound(end: nat, begin: nat, gap: nat)
    requires CanMerge(end, begin, gap)
    ensures begin < end + (gap + 2) * 4096
  {
  }

  predicate CanMergeAll(req: seq<Span>, more: seq<Span>, gap: nat)
    requires |req| == |more|
  {
    forall k :: 0 <= k < |req| ==> CanMerge(req[k].hi, more[k].lo, gap)
  }

  // merge_reqs.
  function Merged(req: seq<Span>, more: seq<Span>): seq<Span>
    requires |req| == |more|
  {
    seq(|req|, k requires 0 <= k < |req| => Span(req[k].lo, more[k].hi))
  }

  ghost predicate Inside(rs: seq<Range>, n: nat) {
    Proper(rs) && Below(rs, n)
  }

  // In one part, the request reaches from its first vertex to its last one, without large gaps.
  ghost predicate PlannedOn(rs: seq<Range>, s: Span, p: Part, gap: nat) {
    && rs != [] && Inside(rs, |p.sizes|)
    && s.lo == p.At(rs[0].first) && s.hi == p.At(rs[|rs| - 1].last)
    && forall i :: 0 < i < |rs| ==> p.At(rs[i].first) < p.At(rs[i - 1].last) + (gap + 2) * 4096
  }

  ghost predicate Planned(io: Io, ps: seq<Part>, gap: nat) {
    |io.spans| == |ps| && forall k :: 0 <= k < |ps| ==> PlannedOn(io.ranges, io.spans[k], ps[k], gap)
  }

  // Every range of a request lies within its bytes.
  lemma {:induction false} RangeCovered(rs: seq<Range>, s: Span, p: Part, gap: nat, i: nat)
    requires PlannedOn(rs, s, p, gap) && i < |rs|
    ensures s.lo <= p.At(rs[i].first) < p.At(rs[i].last) <= s.hi
  {
    AtGrows(p, rs[0].first, rs[i].first);
    AtGrows(p, rs[i].first, rs[i].last);
    AtGrows(p, rs[i].last, rs[|rs| - 1].last);
  }

  // Every adjacency list asked for lies within the bytes of its request.
  lemma {:induction false} ListCovered(io: Io, ps: seq<Part>, gap: nat, id: nat, k: nat)
    requires Planned(io, ps, gap) && Covers(io.ranges, id) && k < |ps|
    ensures id < |ps[k].sizes| && io.spans[k].lo <= ps[k].At(id) < ps[k].At(id + 1) <= io.spans[k].hi
  {
    var i :| 0 <= i < |io.ranges| && io.ranges[i].first <= id < io.ranges[i].last;
    RangeCovered(io.ranges, io.spans[k], ps[k], gap, i);
    AtGrows(ps[k], io.ranges[i].first, id);
    AtGrows(ps[k], id, id + 1);
    AtGrows(ps[k], id + 1, io.ranges[i].last);
  }

  function AllRanges(ios: seq<Io>, n: nat): seq<Range>
    requires n <= |ios|
  {
    if n == 0 then [] else AllRanges(ios, n - 1) + ios[n - 1].ranges
  }

  // The ranges of all requests, in order.
  function RangesOf(ios: seq<Io>): seq<Range> {
    AllRanges(ios, |ios|)
  }

  lemma {:induction false} AllRangesPrefix(a: seq<Io>, b: seq<Io>, n: nat)
    requires n <= |a| && n <= |b| && forall i :: 0 <= i < n ==> a[i] == b[i]
    ensures AllRanges(a, n) == AllRanges(b, n)
  {
    if n > 0 { AllRangesPrefix(a, b, n - 1); }
  }

  lemma {:induction false} Assoc<T>(a: seq<T>, b: seq<T>, c: seq<T>)
    ensures a + b + c == a + (b + c)
  {
  }

  lemma {:induction false} Slices<T>(s: seq<T>, k: nat, i: nat)
    requires k <= i <= |s|
    ensures s[..k] + s[k..i] == s[..i]
  {
  }

  lemma {:induction false} SliceSnoc<T>(s: seq<T>, k: nat, i: nat)
    requires k <= i < |s|
    ensures s[k..i] + [s[i]] == s[k..i + 1]
  {
  }

  lemma {:induction false} AllRangesAppend(a: seq<Io>, b: seq<Io>, n: nat)
    requires n <= |b|
    ensures AllRanges(a + b, |a| + n) == RangesOf(a) + AllRanges(b, n)
  {
    if n == 0 {
      AllRangesPrefix(a, a + b, |a|);
    } else {
      AllRangesAppend(a, b, n - 1);
      Assoc(RangesOf(a), AllRanges(b, n - 1), b[n - 1].ranges);
      assert (a + b)[|a| + n - 1] == b[n - 1];
    }
  }

  // One more range merged into the request at hand.
  lemma {:induction false} PlannedMore(rs: seq<Range>, s: Span, p: Part, gap: nat, r: Range)
    requires PlannedOn(rs, s, p, gap) && Inside(rs + [r], |p.sizes|) && r.first < r.last <= |p.sizes|
    requires CanMerge(s.hi, p.At(r.first), gap)
    ensures PlannedOn(rs + [r], Span(s.lo, p.At(r.last)), p, gap)
  {
    var more := rs + [r];
    GapBound(s.hi, p.At(r.first), gap);
    assert forall i :: 0 <= i < |rs| ==> more[i] == rs[i];
    forall i | 0 < i < |more| ensures p.At(more[i].first) < p.At(more[i - 1].last) + (gap + 2) * 4096 {
      if i < |rs| { assert more[i - 1] == rs[i - 1]; }
    }
  }

  lemma {:induction false} InsideParts(rs: seq<Range>, n: nat, i: nat, j: nat)
    requires Inside(rs, n) && i <= j <= |rs|
    ensures Inside(rs[i..j], n)
  {
  }

  ghost predicate AllPlanned(ios: seq<Io>, ps: seq<Part>, gap: nat) {
    forall j :: 0 <= j < |ios| ==> Planned(ios[j], ps, gap)
  }

  // A request of its own for one range.
  lemma {:induction false} PlannedSingle(r: Range, ps: seq<Part>, n: nat, gap: nat)
    requires Parts(ps, n) && Inside([r], n)
    ensures r.first < r.last <= n && Planned(Io(Spans(ps, r), [r]), ps, gap)
  {
    assert [r][0] == r;
  }

  lemma {:induction false} PlannedGrows(req: Io, r: Range, ps: seq<Part>, n: nat, gap: nat)
    requires Parts(ps, n) && Planned(req, ps, gap) && r.first < r.last <= n && Inside(req.ranges + [r], n)
    requires CanMergeAll(req.spans, Spans(ps, r), gap)
    ensures Planned(Io(Merged(req.spans, Spans(ps, r)), req.ranges + [r]), ps, gap)
  {
    var spans := Spans(ps, r);
    forall k | 0 <= k < |ps|
      ensures PlannedOn(req.ranges + [r], Merged(req.spans, spans)[k], ps[k], gap)
    {
      assert spans[k] == Span(ps[k].At(r.first), ps[k].At(r.last));
      PlannedMore(req.ranges, req.spans[k], ps[k], gap, r);
    }
  }

  // Half way: the ranges before k are in finished requests, those from k to i in the one
  // at hand.
  ghost predicate PlanAt(rs: seq<Range>, ps: seq<Part>, gap: nat, k: nat, i: nat, ios: seq<Io>, req: Io) {
    && k < i <= |rs| && req.ranges == rs[k..i] && Planned(req, ps, gap)
    && RangesOf(ios) == rs[..k] && AllPlanned(ios, ps, gap)
  }

  lemma {:induction false} PlanStart(rs: seq<Range>, ps: seq<Part>, n: nat, gap: nat)
    requires rs != [] && Inside(rs, n) && Parts(ps, n)
    ensures PlanAt(rs, ps, gap, 0, 1, [], Io(Spans(ps, rs[0]), [rs[0]]))
  {
    assert rs[0..1] == [rs[0]] && rs[..0] == [];
    InsideParts(rs, n, 0, 1);
    PlannedSingle(rs[0], ps, n, gap);
  }

  lemma {:induction false} PlanMerge(rs: seq<Range>, ps: seq<Part>, n: nat, gap: nat, k: nat, i: nat, ios: seq<Io>, req: Io)
    requires PlanAt(rs, ps, gap, k, i, ios, req) && i < |rs| && Inside(rs, n) && Parts(ps, n)
    requires CanMergeAll(req.spans, Spans(ps, rs[i]), gap)
    ensures PlanAt(rs, ps, gap, k, i + 1, ios, Io(Merged(req.spans, Spans(ps, rs[i])), req.ranges + [rs[i]]))
  {
    SliceSnoc(rs, k, i);
    InsideParts(rs, n, k, i + 1);
    PlannedGrows(req, rs[i], ps, n, gap);
  }

  lemma {:induction false} AllPlannedAppend(a: seq<Io>, b: seq<Io>, ps: seq<Part>, gap: nat)
    requires AllPlanned(a, ps, gap) && AllPlanned(b, ps, gap)
    ensures AllPlanned(a + b, ps, gap)
  {
  }

  // Adding requests for the ranges from k to i.
  lemma {:induction false} PlanFlush(rs: seq<Range>, k: nat, i: nat, ios: seq<Io>, more: seq<Io>)
    requires k <= i <= |rs| && RangesOf(ios) == rs[..k] && RangesOf(more) == rs[k..i]
    ensures RangesOf(ios + more) == rs[..i]
  {
    AllRangesAppend(ios, more, |more|);
    Slices(rs, k, i);
  }

  lemma {:induction false} OneRequest(req: Io)
    ensures RangesOf([req]) == req.ranges
  {
    assert AllRanges([req], 0) == [];
  }

  lemma {:induction false} PlanIssue(rs: seq<Range>, ps: seq<Part>, gap: nat, k: nat, i: nat, ios: seq<Io>, req: Io)
    requires PlanAt(rs, ps, gap, k, i, ios, req)
    ensures RangesOf(ios + [req]) == rs[..i] && AllPlanned(ios + [req], ps, gap)
  {
    OneRequest(req);
    PlanFlush(rs, k, i, ios, [req]);
    AllPlannedAppend(ios, [req], ps, gap);
  }

  lemma {:induction false} PlanNext(rs: seq<Range>, ps: seq<Part>, n: nat, gap: nat, k: nat, i: nat, ios: seq<Io>, req: Io)
    requires PlanAt(rs, ps, gap, k, i, ios, req) && i < |rs| && Inside(rs, n) && Parts(ps, n)
    ensures PlanAt(rs, ps, gap, i, i + 1, ios + [req], Io(Spans(ps, rs[i]), [rs[i]]))
  {
    PlanIssue(rs, ps, gap, k, i, ios, req);
    assert rs[i..i + 1] == [rs[i]];
    InsideParts(rs, n, i, i + 1);
    PlannedSingle(rs[i], ps, n, gap);
  }

  // run_in_vertices, run_out_vertices and run_both_vertices: ranges whose adjacency lists
  // are close by in every part become one request, as long as it has room for ranges.
  method PlanSparse(rs: seq<Range>, ps: seq<Part>, ghost n: nat, gap: nat, room: nat) returns (ios: seq<Io>)
    requires rs != [] && Inside(rs, n) && Parts(ps, n)
    ensures RangesOf(ios) == rs && AllPlanned(ios, ps, gap)
  {
    ios := [];
    var req := Io(Spans(ps, rs[0]), [rs[0]]);
    ghost var k := 0;
    PlanStart(rs, ps, n, gap);
    for i := 1 to |rs|
      invariant PlanAt(rs, ps, gap, k, i, ios, req)
    {
      var spans := Spans(ps, rs[i]);
      if CanMergeAll(req.spans, spans, gap) && |req.ranges| < room {
        PlanMerge(rs, ps, n, gap, k, i, ios, req);
        req := Io(Merged(req.spans, spans), req.ranges + [rs[i]]);
      } else {
        PlanNext(rs, ps, n, gap, k, i, ios, req);
        ios, req, k := ios + [req], Io(spans, [rs[i]]), i;
      }
    }
    PlanIssue(rs, ps, gap, k, |rs|, ios, req);
    assert rs[..|rs|] == rs;
    ios := ios + [req];
  }

  // An index request, when it is answered: a single range goes the dense way.
  method PlanGroup(group: seq<Range>, ps: seq<Part>, ghost n: nat, gap: nat, room: nat) returns (ios: seq<Io>)
    requires group != [] && Inside(group, n) && Parts(ps, n)
    ensures RangesOf(ios) == group && AllPlanned(ios, ps, gap)
  {
    if |group| > 1 {
      ios := PlanSparse(group, ps, n, gap, room);
    } else {
      var r := group[0];
      assert group == [r];
      PlannedSingle(r, ps, n, gap);
      ios := [Io(Spans(ps, r), [r])];
      OneRequest(ios[0]);
    }
  }

  // The page of the index an entry lies in, entries being width bytes wide.
  function IndexPage(id: nat, width: nat): nat {
    RoundPage(id * width)
  }

  // sparse_self_vertex_compute::add_range.
  predicate SameIndexRequest(last: Range, next: Range, inMem: bool, width: nat)
    requires last.first < last.last
  {
    || inMem
    || IndexPage(last.last - 1, width) == IndexPage(next.first, width)
    || IndexPage(last.last - 1, width) + 4096 == IndexPage(next.first, width)
  }

  lemma {:induction false} MergedInside(rs: seq<Range>, merged: seq<Range>, n: nat)
    requires Proper(merged) && (forall id: nat :: Covers(merged, id) ==> id < n)
    ensures Inside(merged, n)
  {
    forall i | 0 <= i < |merged| ensures merged[i].last <= n {
      assert Covers(merged, merged[i].last - 1);
    }
  }

  // The ranges up to i: those before k are planned, the others are in the group at hand.
  ghost predicate GroupAt(rs: seq<Range>, ps: seq<Part>, n: nat, gap: nat, k: nat, i: nat, ios: seq<Io>, group: seq<Range>) {
    && k < i <= |rs| && group == rs[k..i] && Inside(group, n)
    && RangesOf(ios) == rs[..k] && AllPlanned(ios, ps, gap)
  }

  method NextGroup(rs: seq<Range>, ps: seq<Part>, ghost n: nat, gap: nat, room: nat, ghost k: nat, i: nat, ios: seq<Io>, group: seq<Range>)
    returns (all: seq<Io>)
    requires Parts(ps, n) && GroupAt(rs, ps, n, gap, k, i, ios, group)
    ensures RangesOf(all) == rs[..i] && AllPlanned(all, ps, gap)
  {
    var more := PlanGroup(group, ps, n, gap, room);
    PlanFlush(rs, k, i, ios, more);
    AllPlannedAppend(ios, more, ps, gap);
    all := ios + more;
  }

  // process_self_requests: what is asked for is exactly what the I/O requests are for.
  method ProcessSelfRequests(reqs: seq<Range>, ps: seq<Part>, ghost n: nat, gap: nat, room: nat, inMem: bool, width: nat)
    returns (ios: seq<Io>)
    requires Disjoint(reqs) && Parts(ps, n) && forall id: nat :: Covers(reqs, id) ==> id < n
    ensures AllPlanned(ios, ps, gap) && Inside(RangesOf(ios), n) && Apart(RangesOf(ios))
    ensures forall id :: Covers(RangesOf(ios), id) <==> Covers(reqs, id)
  {
    ios := [];
    var rs := MergeRanges(reqs);
    if rs == [] {
      return;
    }
    MergedInside(reqs, rs, n);
    ios := PlanAll(rs, ps, n, gap, room, inMem, width);
  }

  method PlanAll(rs: seq<Range>, ps: seq<Part>, ghost n: nat, gap: nat, room: nat, inMem: bool, width: nat) returns (ios: seq<Io>)
    requires rs != [] && Inside(rs, n) && Parts(ps, n)
    ensures RangesOf(ios) == rs && AllPlanned(ios, ps, gap)
  {
    ios := [];
    var group := [rs[0]];
    ghost var k := 0;
    InsideParts(rs, n, 0, 1);
    assert rs[0..1] == group;
    for i := 1 to |rs|
      invariant GroupAt(rs, ps, n, gap, k, i, ios, group)
    {
      if SameIndexRequest(group[|group| - 1], rs[i], inMem, width) {
        SliceSnoc(rs, k, i);
        InsideParts(rs, n, k, i + 1);
        group := group + [rs[i]];
      } else {
        ios := NextGroup(rs, ps, n, gap, room, k, i, ios, group);
        InsideParts(rs, n, i, i + 1);
        assert rs[i..i + 1] == [rs[i]];
        group, k := [rs[i]], i;
      }
    }
    ios := NextGroup(rs, ps, n, gap, room, k, |rs|, ios, group);
    assert rs[..|rs|] == rs;
  }
}
