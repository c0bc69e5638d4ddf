/**
 The eviction loops of the CLOCK family.  References and dirtiness do not change during
 a call; the hand probes one page after the other, and the loop's counters are reset
 when a sweep has met nothing but referenced and dirty pages.
 */
module ClockEviction {
  import Striping
  import NumaMapper

  // ----- the hand

  // The page probed at step t.
  function At(n: nat, head: nat, t: nat): nat
    requires n > 0
  {
    (head + t) % n
  }

  // How far page i is ahead of the hand.
  function Dist(n: nat, head: nat, i: nat): nat
    requires i < n
  {
    (i - head % n + n) % n
  }

  // How often the hand passes page i in the first t steps.
  function Passes(n: nat, head: nat, t: nat, i: nat): nat
    requires n > 0
  {
    if t == 0 then 0 else Passes(n, head, t - 1, i) + if At(n, head, t - 1) == i then 1 else 0
  }

  // How many of the first t probes meet a referenced page.
  function RefCount(refs: seq<bool>, head: nat, t: nat): nat
    requires |refs| > 0
  {
    if t == 0 then 0 else RefCount(refs, head, t - 1) + if refs[At(|refs|, head, t - 1)] then 1 else 0
  }

  lemma {:induction false} RefCountGrows(refs: seq<bool>, head: nat, t: nat, u: nat)
    requires |refs| > 0 && t <= u
    ensures RefCount(refs, head, t) <= RefCount(refs, head, u)
    decreases u
  {
    if t < u { RefCountGrows(refs, head, t, u - 1); }
  }

  lemma {:induction false} NoRefs(refs: seq<bool>, head: nat, t: nat)
    requires |refs| > 0 && forall i :: 0 <= i < |refs| ==> !refs[i]
    ensures RefCount(refs, head, t) == 0
  {
    if t > 0 { NoRefs(refs, head, t - 1); }
  }

  lemma {:induction false} DistIs(n: nat, head: nat, i: nat)
    requires i < n
    ensures head % n < n && Dist(n, head, i) == if i >= head % n then i - head % n else i + n - head % n
  {
    var h := head % n;
    Striping.DivMod(head, n);
    if i >= h { Striping.DivUnique(i - h + n, 1, i - h, n); } else { Striping.DivUnique(i - h + n, 0, i - h + n, n); }
  }

  lemma {:induction false} Rounds(a: nat, b: nat, c: nat, n: nat)
    ensures (a + b + c) * n == a * n + b * n + c * n
  {
  }

  // After q rounds the hand is at page i again.
  lemma {:induction false} AtRound(n: nat, head: nat, q: nat, i: nat)
    requires i < n
    ensures At(n, head, q * n + Dist(n, head, i)) == i
  {
    DistIs(n, head, i);
    Striping.DivMod(head, n);
    var h := head % n;
    var more := if i >= h then 0 else 1;
    Rounds(head / n, q, more, n);
    Striping.DivUnique(head + (q * n + Dist(n, head, i)), head / n + q + more, i, n);
  }

  // Two visits of one page are a round apart.
  lemma {:induction false} VisitNow(n: nat, head: nat, t: nat, i: nat, x: nat)
    requires i < n && t <= x < t + n && At(n, head, x) == i
    ensures x == t <==> At(n, head, t) == i
  {
    if x > t { NumaMapper.Different(head + x, head + t, n); }
  }

  // The next time the hand comes to page i, at step t or later.
  lemma {:induction false} NextVisit(n: nat, head: nat, t: nat, i: nat)
    requires i < n
    ensures t <= Passes(n, head, t, i) * n + Dist(n, head, i) < t + n
  {
    DistIs(n, head, i);
    if t > 0 {
      NextVisit(n, head, t - 1, i);
      var p := Passes(n, head, t - 1, i);
      var x := p * n + Dist(n, head, i);
      AtRound(n, head, p, i);
      VisitNow(n, head, t - 1, i, x);
      OneMoreRound(p, n);
    }
  }

  lemma {:induction false} OneMoreRound(p: nat, n: nat)
    ensures (p + 1) * n == p * n + n
  {
  }

  // ----- scores

  // The step at which the hand would evict page i, and the score of assign_flush_scores.
  function Score(n: nat, head: nat, hits: seq<nat>, i: nat): nat
    requires i < n == |hits|
  {
    hits[i] * n + Dist(n, head, i)
  }

  // A page passed no more often than it has hits is not evicted before step t.
  lemma {:induction false} ScoreLater(n: nat, head: nat, hits: seq<nat>, i: nat, t: nat)
    requires i < n == |hits| && Passes(n, head, t, i) <= hits[i]
    ensures Score(n, head, hits, i) >= t
    ensures At(n, head, t) != i ==> Score(n, head, hits, i) > t
    ensures At(n, head, t) == i && Passes(n, head, t, i) == hits[i] ==> Score(n, head, hits, i) == t
  {
    NextVisit(n, head, t, i);
    var p := Passes(n, head, t, i);
    AtRound(n, head, p, i);
    VisitNow(n, head, t, i, p * n + Dist(n, head, i));
    if p < hits[i] { Striping.MulLess(p, hits[i], n); }
    AtRound(n, head, hits[i], i);
  }

  // Two pages never have the same score.
  lemma {:induction false} ScoresDiffer(n: nat, head: nat, hits: seq<nat>, i: nat, j: nat)
    requires i < n == |hits| && j < n && i != j
    ensures Score(n, head, hits, i) != Score(n, head, hits, j)
  {
    AtRound(n, head, hits[i], i);
    AtRound(n, head, hits[j], j);
  }

  datatype Scored = Scored(page: nat, score: nat)

  predicate Sorted(v: seq<Scored>) {
    forall i, j :: 0 <= i < j < |v| ==> v[i].score <= v[j].score
  }

  function Insert(v: seq<Scored>, x: Scored): (r: seq<Scored>)
    requires Sorted(v)
    ensures Sorted(r) && |r| == |v| + 1 && forall y :: y in r <==> y in v || y == x
  {
    if v == [] then [x]
    else
      var n := |v| - 1;
      assert v == v[..n] + [v[n]];
      if v[n].score <= x.score then v + [x]
      else
        var front := Insert(v[..n], x);
        assert forall i :: 0 <= i < |front| ==> front[i] in front;
        assert forall i :: 0 <= i < n ==> v[i].score <= v[n].score;
        front + [v[n]]
  }

  // Ranks the valid pages of a cell; the first one goes first.
  method AssignFlushScores(n: nat, head: nat, hits: seq<nat>, valid: seq<bool>) returns (order: seq<Scored>)
    requires n == |hits| == |valid| > 0
    ensures Sorted(order)
    ensures forall x :: x in order <==> x.page < n && valid[x.page] && x.score == Score(n, head, hits, x.page)
    ensures forall i :: 0 <= i < n && valid[i] ==> order != [] && order[0].score <= Score(n, head, hits, i)
  {
    order := [];
    for i := 0 to n
      invariant Sorted(order)
      invariant forall x :: x in order <==> x.page < i && valid[x.page] && x.score == Score(n, head, hits, x.page)
    {
      if valid[i] {
        order := Insert(order, Scored(i, hits[i] * n + (i - head % n + n) % n));
      }
    }
    forall i | 0 <= i < n && valid[i] ensures order != [] && order[0].score <= Score(n, head, hits, i) {
      assert Scored(i, Score(n, head, hits, i)) in order;
    }
  }

  // ----- sums of hits

  function Sum(s: seq<nat>): nat {
    if s == [] then 0 else Sum(s[..|s| - 1]) + s[|s| - 1]
  }

  lemma {:induction false} SumUpdate(s: seq<nat>, i: nat, x: nat)
    requires i < |s|
    ensures Sum(s[i := x]) + s[i] == Sum(s) + x
  {
    var n := |s| - 1;
    if i < n {
      SumUpdate(s[..n], i, x);
      assert s[i := x][..n] == s[..n][i := x];
    } else {
      assert s[i := x][..n] == s[..n];
    }
  }

  // ----- the loops

  // What bounds the number of probes still to come.
  ghost predicate Budget(n: nat, avoidDirty: bool, numDirty: nat, numRef: nat, rest: nat, probes: nat, total: nat) {
    if avoidDirty then numDirty + numRef <= n && probes + (n - numDirty - numRef) + n + rest <= total
    else numDirty == 0 && numRef < n && probes + (n - numRef) + rest <= total
  }

  // Hits after t steps over a cell without dirty pages.
  ghost predicate Passed(refs: seq<bool>, head: nat, before: seq<nat>, now: seq<nat>, t: nat)
    requires |refs| > 0
  {
    && |before| == |now| == |refs|
    && forall i: nat :: i < |refs| ==> PassedAt(refs, head, before, now, t, i)
  }

  ghost predicate PassedAt(refs: seq<bool>, head: nat, before: seq<nat>, now: seq<nat>, t: nat, i: nat)
    requires i < |refs| == |before| == |now|
  {
    if refs[i] then now[i] == before[i]
    else Passes(|refs|, head, t, i) <= before[i] && now[i] == before[i] - Passes(|refs|, head, t, i)
  }

  method SetHits(hits: array<nat>, i: nat, x: nat)
    requires i < hits.Length
    modifies hits
    ensures hits[..] == old(hits[..])[i := x]
  {
    hits[i] := x;
  }

  class GClock {
    var clockHead: nat

    constructor ()
      ensures clockHead == 0
    {
      clockHead := 0;
    }

    method EvictPage(refs: seq<bool>, dirty: seq<bool>, hits: array<nat>) returns (ret: int, ghost probes: nat)
      requires |refs| == |dirty| == hits.Length > 0
      modifies this, hits
      ensures -1 <= ret < hits.Length && probes <= 2 * hits.Length + Sum(old(hits[..]))
      ensures ret >= 0 ==> !refs[ret] && hits[ret] == 0
      ensures AllTrue(refs) ==> ret < 0 && hits[..] == old(hits[..])
      ensures forall i :: 0 <= i < hits.Length ==> hits[i] <= old(hits[i]) && (refs[i] ==> hits[i] == old(hits[i]))
      // Exactly when none is returned, and otherwise which page.
      ensures ret < 0 <==> NoneFound(refs, dirty, old(clockHead), old(hits[..]))
      ensures ret >= 0 ==> clockHead > old(clockHead) && Chosen(refs, dirty, old(clockHead), old(hits[..]), hits[..], ret, clockHead - old(clockHead) - 1)
      ensures AllFalse(refs) ==> ret >= 0
      // Without dirty pages the victim is the unreferenced page of the least score, unless
      // the hand has by then met referenced pages as often as there are pages.
      ensures AllFalse(dirty) && ret >= 0 ==>
        LeastScore(refs, old(clockHead), old(hits[..]), hits[..], ret)
        && clockHead == old(clockHead) + Score(|refs|, old(clockHead), old(hits[..]), ret) + 1
      ensures AllFalse(dirty) && ret < 0 ==> NoneInTime(refs, old(clockHead), old(hits[..]))
    {
      ghost var before, head := hits[..], clockHead;
      ret, probes := Search(refs, dirty, hits);
      EndMeans(refs, dirty, head, before, hits[..], ret, clockHead - head - 1);
    }

    method Search(refs: seq<bool>, dirty: seq<bool>, hits: array<nat>) returns (ret: int, ghost probes: nat)
      requires |refs| == |dirty| == hits.Length > 0
      modifies this`clockHead, hits
      ensures -1 <= ret < hits.Length && 0 < probes <= 2 * hits.Length + Sum(old(hits[..])) && clockHead == old(clockHead) + probes
      ensures ret >= 0 ==> !refs[ret] && hits[ret] == 0
      ensures End(refs, dirty, old(clockHead), old(hits[..]), hits[..], ret, probes - 1)
    {
      ghost var before, head := hits[..], clockHead;
      var sweep := Sweep(0, 0, true);
      Start(refs, dirty, head, before);
      probes := 0;
      while true
        invariant clockHead == head + probes && Tracked(refs, dirty, head, before, hits[..], sweep, probes)
        decreases 2 * |refs| + Sum(before) - probes
      {
        var out, pg;
        sweep, out, pg := Tracking(refs, dirty, hits, sweep, before, head, probes);
        probes := probes + 1;
        if out.Null? {
          return -1, probes;
        }
        if out.Victim? {
          return pg, probes;
        }
      }
    }

    method Tracking(refs: seq<bool>, dirty: seq<bool>, hits: array<nat>, sweep: Sweep, ghost before: seq<nat>, ghost head: nat, ghost t: nat)
      returns (next: Sweep, out: Outcome, pg: nat)
      requires |refs| == |dirty| == hits.Length > 0 && clockHead == head + t
      requires Tracked(refs, dirty, head, before, hits[..], sweep, t)
      modifies this`clockHead, hits
      ensures clockHead == head + t + 1 && pg == At(|refs|, head, t) < |refs| && (out.Victim? ==> !refs[pg] && hits[pg] == 0)
      ensures Turned(refs, dirty, head, before, Turn(out, next, hits[..]), t)
    {
      TurnKeeps(refs, dirty, head, before, hits[..], sweep, t);
      next, out, pg := Probe(refs, dirty, hits, sweep, head, t);
    }

    // One turn of the loop.
    method Probe(refs: seq<bool>, dirty: seq<bool>, hits: array<nat>, sweep: Sweep, ghost head: nat, ghost t: nat)
      returns (next: Sweep, out: Outcome, pg: nat)
      requires |refs| == |dirty| == hits.Length > 0 && clockHead == head + t
      modifies this`clockHead, hits
      ensures clockHead == head + t + 1 && pg == At(|refs|, head, t)
      ensures Turn(out, next, hits[..]) == TurnOf(refs, dirty, old(hits[..]), sweep, pg)
    {
      pg := clockHead % |refs|;
      next := if sweep.numDirty + sweep.numRef >= |refs| then Sweep(0, 0, false) else sweep;
      clockHead := clockHead + 1;
      if refs[pg] {
        next := next.(numRef := next.numRef + 1);
        out := if next.numRef >= |refs| then Null else Go;
      } else if next.avoidDirty && dirty[pg] {
        next, out := next.(numDirty := next.numDirty + 1), Go;
      } else if hits[pg] == 0 {
        out := Victim;
      } else {
        SetHits(hits, pg, hits[pg] - 1);
        out := Go;
      }
    }
  }

  // The counters of the loop.
  datatype Sweep = Sweep(numRef: nat, numDirty: nat, avoidDirty: bool)

  datatype Outcome = Go | Null | Victim

  predicate AllTrue(v: seq<bool>) {
    forall i :: 0 <= i < |v| ==> v[i]
  }

  predicate AllFalse(v: seq<bool>) {
    forall i :: 0 <= i < |v| ==> !v[i]
  }

  // Hits only go down, and only those of unreferenced pages.
  ghost predicate Untouched(refs: seq<bool>, before: seq<nat>, now: seq<nat>) {
    && |before| == |now| == |refs|
    && (forall i :: 0 <= i < |refs| ==> now[i] <= before[i] && (refs[i] ==> now[i] == before[i]))
  }

  // ret is the first unreferenced page to run out of hits, in time.
  ghost predicate LeastScore(refs: seq<bool>, head: nat, before: seq<nat>, now: seq<nat>, ret: nat)
    requires |refs| == |before| > 0 && ret < |refs|
  {
    var t := Score(|refs|, head, before, ret);
    && (forall j :: 0 <= j < |refs| && !refs[j] ==> t <= Score(|refs|, head, before, j))
    && RefCount(refs, head, t) < |refs|
    && Passed(refs, head, before, now, t)
  }

  // Before any unreferenced page runs out of hits, the hand has met referenced pages as
  // often as there are pages.
  ghost predicate NoneInTime(refs: seq<bool>, head: nat, before: seq<nat>)
    requires |refs| == |before| > 0
  {
    forall j: nat :: j < |refs| ==> TooLate(refs, head, before, j)
  }

  ghost predicate TooLate(refs: seq<bool>, head: nat, before: seq<nat>, j: nat)
    requires j < |refs| == |before|
  {
    !refs[j] ==> RefCount(refs, head, Score(|refs|, head, before, j)) >= |refs|
  }

  // ----- two phases: as long as dirty pages are avoided, and after the counters are reset

  // The pages the hand passes over in the first phase.
  function Either(refs: seq<bool>, dirty: seq<bool>): (r: seq<bool>)
    requires |refs| == |dirty|
    ensures |r| == |refs| && forall i :: 0 <= i < |r| ==> r[i] == (refs[i] || dirty[i])
  {
    seq(|refs|, i requires 0 <= i < |refs| => refs[i] || dirty[i])
  }

  // The first phase is over after m probes and leaves these hits: the hand has met referenced
  // and dirty pages as often as there are pages, but no unreferenced clean page out of hits.
  ghost predicate PhaseOver(eff: seq<bool>, head: nat, before: seq<nat>, m: nat, left: seq<nat>)
    requires |eff| == |before| > 0
  {
    && m > 0 && RefCount(eff, head, m - 1) < |eff| <= RefCount(eff, head, m)
    && Passed(eff, head, before, left, m) && NoneInTime(eff, head, before)
  }

  // The first phase finds none, and the referenced pages it has met are as many as there are
  // pages, or the second phase finds none either.
  ghost predicate NoneFound(refs: seq<bool>, dirty: seq<bool>, head: nat, before: seq<nat>)
    requires |refs| == |dirty| == |before| > 0
  {
    exists m: nat, left: seq<nat> :: NoneFrom(refs, dirty, head, before, m, left)
  }

  ghost predicate NoneFrom(refs: seq<bool>, dirty: seq<bool>, head: nat, before: seq<nat>, m: nat, left: seq<nat>)
    requires |refs| == |dirty| == |before| > 0
  {
    && PhaseOver(Either(refs, dirty), head, before, m, left)
    && (RefCount(refs, head, m) >= |refs| || NoneInTime(refs, head + m, left))
  }

  // The page found in the first phase, or in the second.
  ghost predicate ChosenFirst(refs: seq<bool>, dirty: seq<bool>, head: nat, before: seq<nat>, now: seq<nat>, ret: nat, t: nat)
    requires |refs| == |dirty| == |before| > 0 && ret < |refs|
  {
    !refs[ret] && !dirty[ret] && LeastScore(Either(refs, dirty), head, before, now, ret) && t == Score(|refs|, head, before, ret)
  }

  ghost predicate ChosenSecond(refs: seq<bool>, dirty: seq<bool>, head: nat, before: seq<nat>, now: seq<nat>, ret: nat, t: nat, m: nat, left: seq<nat>)
    requires |refs| == |dirty| == |before| > 0 && ret < |refs|
  {
    && !refs[ret] && PhaseOver(Either(refs, dirty), head, before, m, left) && RefCount(refs, head, m) < |refs|
    && LeastScore(refs, head + m, left, now, ret) && t == m + Score(|refs|, head + m, left, ret)
  }

  // The victim found after t probes: the unreferenced clean page of the least score, or, in
  // the second phase, the unreferenced page of the least score from there on.
  ghost predicate Chosen(refs: seq<bool>, dirty: seq<bool>, head: nat, before: seq<nat>, now: seq<nat>, ret: nat, t: nat)
    requires |refs| == |dirty| == |before| > 0 && ret < |refs|
  {
    || ChosenFirst(refs, dirty, head, before, now, ret, t)
    || exists m: nat, left: seq<nat> :: ChosenSecond(refs, dirty, head, before, now, ret, t, m, left)
  }

  ghost predicate First(refs: seq<bool>, dirty: seq<bool>, head: nat, before: seq<nat>, now: seq<nat>, sw: Sweep, t: nat)
    requires |refs| == |dirty| > 0
  {
    var eff := Either(refs, dirty);
    && sw.numRef == RefCount(refs, head, t) && sw.numDirty + sw.numRef == RefCount(eff, head, t)
    && Passed(eff, head, before, now, t) && (t > 0 ==> RefCount(eff, head, t - 1) < |refs|)
  }

  // The second phase, u probes after the counters were reset.
  ghost predicate Second(refs: seq<bool>, dirty: seq<bool>, head: nat, before: seq<nat>, now: seq<nat>, numRef: nat, m: nat, u: nat, left: seq<nat>)
    requires |refs| == |dirty| == |before| > 0
  {
    && PhaseOver(Either(refs, dirty), head, before, m, left) && RefCount(refs, head, m) < |refs|
    && numRef == RefCount(refs, head + m, u) && Passed(refs, head + m, left, now, u)
  }

  ghost predicate Tracked(refs: seq<bool>, dirty: seq<bool>, head: nat, before: seq<nat>, now: seq<nat>, sw: Sweep, t: nat)
    requires |refs| > 0
  {
    && |dirty| == |refs| && Untouched(refs, before, now)
    && Budget(|refs|, sw.avoidDirty, sw.numDirty, sw.numRef, Sum(now), t, 2 * |refs| + Sum(before))
    && sw.numRef < |refs|
    && if sw.avoidDirty then First(refs, dirty, head, before, now, sw, t)
       else exists m: nat, u: nat, left: seq<nat> :: t == m + u && Second(refs, dirty, head, before, now, sw.numRef, m, u, left)
  }

  lemma {:induction false} Start(refs: seq<bool>, dirty: seq<bool>, head: nat, before: seq<nat>)
    requires |refs| == |dirty| == |before| > 0
    ensures Tracked(refs, dirty, head, before, before, Sweep(0, 0, true), 0)
  {
  }

  // When the hand has met pages to pass over as often as there are pages, every other page
  // would have run out of hits later.
  lemma {:induction false} FullNone(eff: seq<bool>, head: nat, before: seq<nat>, now: seq<nat>, t: nat)
    requires |eff| > 0 && Passed(eff, head, before, now, t) && RefCount(eff, head, t) >= |eff|
    ensures NoneInTime(eff, head, before)
  {
    forall j: nat | j < |eff| ensures TooLate(eff, head, before, j) {
      if !eff[j] {
        assert PassedAt(eff, head, before, now, t, j);
        ScoreLater(|eff|, head, before, j, t);
        RefCountGrows(eff, head, t, Score(|eff|, head, before, j));
      }
    }
  }

  lemma {:induction false} Reset(refs: seq<bool>, dirty: seq<bool>, head: nat, before: seq<nat>, now: seq<nat>, sw: Sweep, t: nat)
    requires |refs| > 0 && Tracked(refs, dirty, head, before, now, sw, t)
    ensures
      var next := if sw.numDirty + sw.numRef >= |refs| then Sweep(0, 0, false) else sw;
      Tracked(refs, dirty, head, before, now, next, t) && next.numDirty + next.numRef < |refs|
  {
    if sw.numDirty + sw.numRef >= |refs| {
      var eff := Either(refs, dirty);
      FullNone(eff, head, before, now, t);
      assert t == t + 0 && Second(refs, dirty, head, before, now, 0, t, 0, now);
    }
  }

  lemma {:induction false} RefProbe(refs: seq<bool>, dirty: seq<bool>, head: nat, before: seq<nat>, now: seq<nat>, sw: Sweep, t: nat)
    requires |refs| > 0 && Tracked(refs, dirty, head, before, now, sw, t) && sw.numDirty + sw.numRef < |refs|
    requires refs[At(|refs|, head, t)]
    ensures t < 2 * |refs| + Sum(before)
    ensures
      var next := sw.(numRef := sw.numRef + 1);
      if next.numRef < |refs| then Tracked(refs, dirty, head, before, now, next, t + 1)
      else NoneFound(refs, dirty, head, before)
  {
    if sw.avoidDirty {
      RefFirst(refs, dirty, head, before, now, sw, t);
    } else {
      var m: nat, u: nat, left: seq<nat> :| t == m + u && Second(refs, dirty, head, before, now, sw.numRef, m, u, left);
      AtLater(|refs|, head, m, u);
      RefSecond(refs, dirty, head, before, now, sw.numRef, m, u, left);
      assert t + 1 == m + (u + 1);
    }
  }

  lemma {:induction false} AtLater(n: nat, head: nat, m: nat, u: nat)
    requires n > 0
    ensures At(n, head + m, u) == At(n, head, m + u)
  {
    assert head + m + u == head + (m + u);
  }

  lemma {:induction false} RefFirst(refs: seq<bool>, dirty: seq<bool>, head: nat, before: seq<nat>, now: seq<nat>, sw: Sweep, t: nat)
    requires |refs| == |dirty| == |before| > 0 && First(refs, dirty, head, before, now, sw, t)
    requires refs[At(|refs|, head, t)] && sw.numDirty + sw.numRef < |refs|
    ensures First(refs, dirty, head, before, now, sw.(numRef := sw.numRef + 1), t + 1)
    ensures sw.numRef + 1 >= |refs| ==> NoneFound(refs, dirty, head, before)
  {
    var eff := Either(refs, dirty);
    RefPassed(eff, head, before, now, t);
    if sw.numRef + 1 >= |refs| {
      FullNone(eff, head, before, now, t + 1);
      assert NoneFrom(refs, dirty, head, before, t + 1, now);
    }
  }

  lemma {:induction false} RefSecond(refs: seq<bool>, dirty: seq<bool>, head: nat, before: seq<nat>, now: seq<nat>, numRef: nat, m: nat, u: nat, left: seq<nat>)
    requires |refs| == |dirty| == |before| > 0 && Second(refs, dirty, head, before, now, numRef, m, u, left)
    requires refs[At(|refs|, head + m, u)]
    ensures Second(refs, dirty, head, before, now, numRef + 1, m, u + 1, left)
    ensures numRef + 1 >= |refs| ==> NoneFound(refs, dirty, head, before)
  {
    RefPassed(refs, head + m, left, now, u);
    if numRef + 1 >= |refs| {
      FullNone(refs, head + m, left, now, u + 1);
      assert NoneFrom(refs, dirty, head, before, m, left);
    }
  }

  lemma {:induction false} DirtyProbe(refs: seq<bool>, dirty: seq<bool>, head: nat, before: seq<nat>, now: seq<nat>, sw: Sweep, t: nat)
    requires |refs| > 0 && Tracked(refs, dirty, head, before, now, sw, t) && sw.numDirty + sw.numRef < |refs|
    requires sw.avoidDirty && dirty[At(|refs|, head, t)] && !refs[At(|refs|, head, t)]
    ensures t < 2 * |refs| + Sum(before)
    ensures Tracked(refs, dirty, head, before, now, sw.(numDirty := sw.numDirty + 1), t + 1)
  {
    RefPassed(Either(refs, dirty), head, before, now, t);
  }

  lemma {:induction false} VictimProbe(refs: seq<bool>, dirty: seq<bool>, head: nat, before: seq<nat>, now: seq<nat>, sw: Sweep, t: nat)
    requires |refs| > 0 && Tracked(refs, dirty, head, before, now, sw, t) && sw.numDirty + sw.numRef < |refs|
    requires !refs[At(|refs|, head, t)] && now[At(|refs|, head, t)] == 0 && !(sw.avoidDirty && dirty[At(|refs|, head, t)])
    ensures t < 2 * |refs| + Sum(before)
    ensures Chosen(refs, dirty, head, before, now, At(|refs|, head, t), t)
  {
    if sw.avoidDirty {
      Evicted(Either(refs, dirty), head, before, now, t);
      assert RefCount(Either(refs, dirty), head, t) < |refs|;
    } else {
      var m: nat, u: nat, left: seq<nat> :| t == m + u && Second(refs, dirty, head, before, now, sw.numRef, m, u, left);
      AtLater(|refs|, head, m, u);
      VictimSecond(refs, dirty, head, before, now, sw.numRef, m, u, left);
    }
  }

  lemma {:induction false} VictimSecond(refs: seq<bool>, dirty: seq<bool>, head: nat, before: seq<nat>, now: seq<nat>, numRef: nat, m: nat, u: nat, left: seq<nat>)
    requires |refs| == |dirty| == |before| > 0 && Second(refs, dirty, head, before, now, numRef, m, u, left) && numRef < |refs|
    requires !refs[At(|refs|, head + m, u)] && now[At(|refs|, head + m, u)] == 0
    ensures Chosen(refs, dirty, head, before, now, At(|refs|, head + m, u), m + u)
  {
    Evicted(refs, head + m, left, now, u);
    assert ChosenSecond(refs, dirty, head, before, now, At(|refs|, head + m, u), m + u, m, left);
  }

  lemma {:induction false} HitProbe(refs: seq<bool>, dirty: seq<bool>, head: nat, before: seq<nat>, now: seq<nat>, sw: Sweep, t: nat)
    requires |refs| > 0 && Tracked(refs, dirty, head, before, now, sw, t) && sw.numDirty + sw.numRef < |refs|
    requires !refs[At(|refs|, head, t)] && now[At(|refs|, head, t)] > 0 && !(sw.avoidDirty && dirty[At(|refs|, head, t)])
    ensures t < 2 * |refs| + Sum(before)
    ensures
      var pg := At(|refs|, head, t);
      Tracked(refs, dirty, head, before, now[pg := now[pg] - 1], sw, t + 1)
  {
    var pg := At(|refs|, head, t);
    SumUpdate(now, pg, now[pg] - 1);
    if sw.avoidDirty {
      HitPassed(Either(refs, dirty), head, before, now, t);
    } else {
      var m: nat, u: nat, left: seq<nat> :| t == m + u && Second(refs, dirty, head, before, now, sw.numRef, m, u, left);
      AtLater(|refs|, head, m, u);
      HitSecond(refs, dirty, head, before, now, sw.numRef, m, u, left);
      assert t + 1 == m + (u + 1);
    }
  }

  lemma {:induction false} HitSecond(refs: seq<bool>, dirty: seq<bool>, head: nat, before: seq<nat>, now: seq<nat>, numRef: nat, m: nat, u: nat, left: seq<nat>)
    requires |refs| == |dirty| == |before| > 0 && Second(refs, dirty, head, before, now, numRef, m, u, left)
    requires var pg := At(|refs|, head + m, u); !refs[pg] && now[pg] > 0
    ensures var pg := At(|refs|, head + m, u); Second(refs, dirty, head, before, now[pg := now[pg] - 1], numRef, m, u + 1, left)
  {
    HitPassed(refs, head + m, left, now, u);
  }

  // The end of the first phase is determined.
  lemma {:induction false} OneEnd(eff: seq<bool>, head: nat, before: seq<nat>, m: nat, left: seq<nat>, m': nat, left': seq<nat>)
    requires |eff| == |before| > 0 && PhaseOver(eff, head, before, m, left) && PhaseOver(eff, head, before, m', left')
    ensures m == m' && left == left'
  {
    OneLength(eff, head, m, m');
    SameLeft(eff, head, before, m, left, left');
  }

  lemma {:induction false} OneLength(eff: seq<bool>, head: nat, m: nat, m': nat)
    requires |eff| > 0 && m > 0 && m' > 0
    requires RefCount(eff, head, m - 1) < |eff| <= RefCount(eff, head, m) && RefCount(eff, head, m' - 1) < |eff| <= RefCount(eff, head, m')
    ensures m == m'
  {
    NotPast(eff, head, m, m');
    NotPast(eff, head, m', m);
  }

  lemma {:induction false} NotPast(eff: seq<bool>, head: nat, t: nat, u: nat)
    requires |eff| > 0 && u > 0 && RefCount(eff, head, u - 1) < |eff| <= RefCount(eff, head, t)
    ensures u <= t
  {
    if t <= u - 1 { RefCountGrows(eff, head, t, u - 1); }
  }

  lemma {:induction false} SameLeft(eff: seq<bool>, head: nat, before: seq<nat>, m: nat, left: seq<nat>, left': seq<nat>)
    requires |eff| > 0 && Passed(eff, head, before, left, m) && Passed(eff, head, before, left', m)
    ensures left == left'
  {
    forall i: nat | i < |eff| ensures left[i] == left'[i] {
      assert PassedAt(eff, head, before, left, m, i) && PassedAt(eff, head, before, left', m, i);
    }
  }

  lemma {:induction false} SomeInTime(refs: seq<bool>, head: nat, before: seq<nat>, now: seq<nat>, ret: nat)
    requires |refs| == |before| > 0 && ret < |refs| && !refs[ret] && LeastScore(refs, head, before, now, ret)
    ensures !NoneInTime(refs, head, before)
  {
    assert !TooLate(refs, head, before, ret);
  }

  lemma {:induction false} SameEither(refs: seq<bool>, dirty: seq<bool>)
    requires |refs| == |dirty|
    ensures AllFalse(dirty) ==> Either(refs, dirty) == refs
  {
  }

  lemma {:induction false} FirstMeans(refs: seq<bool>, dirty: seq<bool>, head: nat, before: seq<nat>, now: seq<nat>, ret: nat, t: nat)
    requires |refs| == |dirty| == |before| > 0 && ret < |refs| && ChosenFirst(refs, dirty, head, before, now, ret, t)
    ensures !NoneFound(refs, dirty, head, before)
  {
    SomeInTime(Either(refs, dirty), head, before, now, ret);
  }

  lemma {:induction false} SecondMeans(refs: seq<bool>, dirty: seq<bool>, head: nat, before: seq<nat>, now: seq<nat>, ret: nat, t: nat, m: nat, left: seq<nat>)
    requires |refs| == |dirty| == |before| > 0 && ret < |refs| && ChosenSecond(refs, dirty, head, before, now, ret, t, m, left)
    ensures !NoneFound(refs, dirty, head, before) && !AllFalse(dirty)
  {
    var eff := Either(refs, dirty);
    SameEither(refs, dirty);
    SomeInTime(refs, head + m, left, now, ret);
    forall m': nat, left': seq<nat> | PhaseOver(eff, head, before, m', left') ensures m' == m && left' == left {
      OneEnd(eff, head, before, m, left, m', left');
    }
  }

  // A call that finds a victim: none is not the outcome, and a clean cell has only one phase.
  lemma {:induction false} ChosenMeans(refs: seq<bool>, dirty: seq<bool>, head: nat, before: seq<nat>, now: seq<nat>, ret: nat, t: nat)
    requires |refs| == |dirty| == |before| > 0 && ret < |refs| && Chosen(refs, dirty, head, before, now, ret, t)
    ensures !NoneFound(refs, dirty, head, before)
    ensures AllFalse(dirty) ==> LeastScore(refs, head, before, now, ret) && t == Score(|refs|, head, before, ret)
  {
    if ChosenFirst(refs, dirty, head, before, now, ret, t) {
      FirstMeans(refs, dirty, head, before, now, ret, t);
      SameEither(refs, dirty);
    } else {
      var m: nat, left: seq<nat> :| ChosenSecond(refs, dirty, head, before, now, ret, t, m, left);
      SecondMeans(refs, dirty, head, before, now, ret, t, m, left);
    }
  }

  // A call that finds none: some page is referenced.
  lemma {:induction false} NoneMeans(refs: seq<bool>, dirty: seq<bool>, head: nat, before: seq<nat>)
    requires |refs| == |dirty| == |before| > 0 && NoneFound(refs, dirty, head, before)
    ensures !AllFalse(refs) && (AllFalse(dirty) ==> NoneInTime(refs, head, before))
  {
    var m: nat, left: seq<nat> :| NoneFrom(refs, dirty, head, before, m, left);
    if AllFalse(refs) { NoneUnreferenced(refs, head + m, left); NoRefs(refs, head, m); }
    SameEither(refs, dirty);
  }

  lemma {:induction false} NoneUnreferenced(refs: seq<bool>, head: nat, before: seq<nat>)
    requires |refs| == |before| > 0 && AllFalse(refs)
    ensures !NoneInTime(refs, head, before)
  {
    NoRefs(refs, head, Score(|refs|, head, before, 0));
    assert !TooLate(refs, head, before, 0);
  }

  // How the loop ends, at its last probe.
  ghost predicate End(refs: seq<bool>, dirty: seq<bool>, head: nat, before: seq<nat>, now: seq<nat>, ret: int, t: nat)
    requires |refs| == |dirty| == |before| > 0
  {
    && Untouched(refs, before, now)
    && if ret < 0 then NoneFound(refs, dirty, head, before) else ret < |refs| && Chosen(refs, dirty, head, before, now, ret, t)
  }

  lemma {:induction false} EndMeans(refs: seq<bool>, dirty: seq<bool>, head: nat, before: seq<nat>, now: seq<nat>, ret: int, t: nat)
    requires |refs| == |dirty| == |before| > 0 && End(refs, dirty, head, before, now, ret, t) && (ret >= 0 ==> !refs[ret])
    ensures ret < 0 <==> NoneFound(refs, dirty, head, before)
    ensures ret >= 0 ==> Chosen(refs, dirty, head, before, now, ret, t)
    ensures (AllFalse(refs) ==> ret >= 0) && (AllTrue(refs) ==> ret < 0 && now == before)
    ensures AllFalse(dirty) && ret >= 0 ==> LeastScore(refs, head, before, now, ret) && t == Score(|refs|, head, before, ret)
    ensures AllFalse(dirty) && ret < 0 ==> NoneInTime(refs, head, before)
  {
    if ret < 0 {
      NoneMeans(refs, dirty, head, before);
    } else {
      ChosenMeans(refs, dirty, head, before, now, ret, t);
    }
  }

  // What a turn of the loop comes to: how it ends, the counters, the hits.
  datatype Turn = Turn(out: Outcome, next: Sweep, now: seq<nat>)

  ghost function TurnOf(refs: seq<bool>, dirty: seq<bool>, now: seq<nat>, sw: Sweep, pg: nat): Turn
    requires pg < |refs| == |dirty| == |now|
  {
    TurnFrom(refs, dirty, now, if sw.numDirty + sw.numRef >= |refs| then Sweep(0, 0, false) else sw, pg)
  }

  ghost function TurnFrom(refs: seq<bool>, dirty: seq<bool>, now: seq<nat>, next: Sweep, pg: nat): Turn
    requires pg < |refs| == |dirty| == |now|
  {
    if refs[pg] then Turn(if next.numRef + 1 >= |refs| then Null else Go, next.(numRef := next.numRef + 1), now)
    else if next.avoidDirty && dirty[pg] then Turn(Go, next.(numDirty := next.numDirty + 1), now)
    else if now[pg] == 0 then Turn(Victim, next, now)
    else Turn(Go, next, now[pg := now[pg] - 1])
  }

  // What holds after a turn that ends so.
  ghost predicate Turned(refs: seq<bool>, dirty: seq<bool>, head: nat, before: seq<nat>, turn: Turn, t: nat)
    requires |refs| == |dirty| == |before| > 0
  {
    && Untouched(refs, before, turn.now) && t < 2 * |refs| + Sum(before)
    && (turn.out.Go? ==> Tracked(refs, dirty, head, before, turn.now, turn.next, t + 1))
    && (turn.out.Null? ==> NoneFound(refs, dirty, head, before))
    && (turn.out.Victim? ==> Chosen(refs, dirty, head, before, turn.now, At(|refs|, head, t), t))
  }

  lemma {:induction false} TurnKeeps(refs: seq<bool>, dirty: seq<bool>, head: nat, before: seq<nat>, now: seq<nat>, sw: Sweep, t: nat)
    requires |refs| > 0 && Tracked(refs, dirty, head, before, now, sw, t)
    ensures Turned(refs, dirty, head, before, TurnOf(refs, dirty, now, sw, At(|refs|, head, t)), t)
  {
    Reset(refs, dirty, head, before, now, sw, t);
    TurnGoesOn(refs, dirty, head, before, now, if sw.numDirty + sw.numRef >= |refs| then Sweep(0, 0, false) else sw, t);
  }

  lemma {:induction false} TurnGoesOn(refs: seq<bool>, dirty: seq<bool>, head: nat, before: seq<nat>, now: seq<nat>, next: Sweep, t: nat)
    requires |refs| > 0 && Tracked(refs, dirty, head, before, now, next, t) && next.numDirty + next.numRef < |refs|
    ensures Turned(refs, dirty, head, before, TurnFrom(refs, dirty, now, next, At(|refs|, head, t)), t)
  {
    var pg := At(|refs|, head, t);
    if refs[pg] {
      RefProbe(refs, dirty, head, before, now, next, t);
    } else if next.avoidDirty && dirty[pg] {
      DirtyProbe(refs, dirty, head, before, now, next, t);
    } else if now[pg] == 0 {
      VictimProbe(refs, dirty, head, before, now, next, t);
    } else {
      HitProbe(refs, dirty, head, before, now, next, t);
    }
  }

  // The hand passes a referenced page.
  lemma {:induction false} RefPassed(refs: seq<bool>, head: nat, before: seq<nat>, now: seq<nat>, t: nat)
    requires |refs| > 0 && Passed(refs, head, before, now, t) && refs[At(|refs|, head, t)]
    ensures Passed(refs, head, before, now, t + 1)
  {
    var u := t + 1;
    forall i: nat | i < |refs| ensures PassedAt(refs, head, before, now, u, i) {
      assert PassedAt(refs, head, before, now, t, i);
    }
  }

  // The hand passes an unreferenced page that has hits left.
  lemma {:induction false} HitPassed(refs: seq<bool>, head: nat, before: seq<nat>, now: seq<nat>, t: nat)
    requires |refs| > 0 && Passed(refs, head, before, now, t)
    requires var pg := At(|refs|, head, t); !refs[pg] && now[pg] > 0
    ensures var pg := At(|refs|, head, t); Passed(refs, head, before, now[pg := now[pg] - 1], t + 1)
  {
    var pg := At(|refs|, head, t);
    var now', u := now[pg := now[pg] - 1], t + 1;
    forall i: nat | i < |refs| ensures PassedAt(refs, head, before, now', u, i) {
      assert PassedAt(refs, head, before, now, t, i);
    }
  }

  // The hand finds its victim.
  lemma {:induction false} Evicted(refs: seq<bool>, head: nat, before: seq<nat>, now: seq<nat>, t: nat)
    requires |refs| > 0 && Passed(refs, head, before, now, t)
    requires var pg := At(|refs|, head, t); !refs[pg] && now[pg] == 0
    ensures
      var pg := At(|refs|, head, t);
      && Score(|refs|, head, before, pg) == t
      && forall j :: 0 <= j < |refs| && !refs[j] ==> t <= Score(|refs|, head, before, j)
  {
    assert PassedAt(refs, head, before, now, t, At(|refs|, head, t));
    ScoreLater(|refs|, head, before, At(|refs|, head, t), t);
    forall j: nat | j < |refs| && !refs[j] ensures t <= Score(|refs|, head, before, j) {
      assert PassedAt(refs, head, before, now, t, j);
      ScoreLater(|refs|, head, before, j, t);
    }
  }

  // In a cell without references and dirty pages the victim is the page ranked first, and
  // every other page has lost as many hits as the hand has passed it.
  method EvictRankedFirst(p: GClock, hits: array<nat>) returns (ret: nat)
    requires hits.Length > 0
    modifies p, hits
    ensures ret < hits.Length
    ensures forall i :: 0 <= i < hits.Length && i != ret ==>
      Score(hits.Length, old(p.clockHead), old(hits[..]), ret) < Score(hits.Length, old(p.clockHead), old(hits[..]), i)
    ensures forall i :: 0 <= i < hits.Length ==>
      hits[i] == old(hits[i]) - Passes(hits.Length, old(p.clockHead), Score(hits.Length, old(p.clockHead), old(hits[..]), ret), i)
  {
    var n := hits.Length;
    ghost var head, before := p.clockHead, hits[..];
    var refs, valid := seq(n, _ => false), seq(n, _ => true);
    var order := AssignFlushScores(n, p.clockHead, hits[..], valid);
    assert valid[0];
    ghost var probes;
    var r;
    r, probes := p.EvictPage(refs, refs, hits);
    ret := r;
    assert order[0] in order;
    LeastIsFirst(refs, head, before, hits[..], ret, order[0].page);
  }

  lemma {:induction false} LeastIsFirst(refs: seq<bool>, head: nat, before: seq<nat>, now: seq<nat>, ret: nat, first: nat)
    requires |refs| == |before| == |now| > 0 && AllFalse(refs) && ret < |refs| && first < |refs|
    requires LeastScore(refs, head, before, now, ret)
    requires forall j :: 0 <= j < |refs| ==> Score(|refs|, head, before, first) <= Score(|refs|, head, before, j)
    ensures ret == first
    ensures forall i :: 0 <= i < |refs| && i != ret ==> Score(|refs|, head, before, ret) < Score(|refs|, head, before, i)
    ensures forall i :: 0 <= i < |refs| ==> now[i] == before[i] - Passes(|refs|, head, Score(|refs|, head, before, ret), i)
  {
    var n, t := |refs|, Score(|refs|, head, before, ret);
    if ret != first { ScoresDiffer(n, head, before, ret, first); }
    forall i | 0 <= i < n && i != ret ensures Score(n, head, before, ret) < Score(n, head, before, i) {
      ScoresDiffer(n, head, before, ret, i);
    }
    forall i: nat | i < n ensures now[i] == before[i] - Passes(n, head, t, i) {
      assert PassedAt(refs, head, before, now, t, i);
    }
  }

  lemma {:induction false} MetTwice()
    ensures
      var refs := [true, false];
      && RefCount(refs, 0, Score(2, 0, [0, 5], 1)) >= 2
      && RefCount(refs, 0, Score(2, 0, [0, 1], 1)) >= 2
  {
    var refs := [true, false];
    assert Dist(2, 0, 1) == 1;
    assert RefCount(refs, 0, 1) == 1;
    assert RefCount(refs, 0, 2) == 1;
    assert RefCount(refs, 0, 3) == 2;
    RefCountGrows(refs, 0, 3, 11);
  }

  lemma {:induction false} NotInTime(hits: seq<nat>, now: seq<nat>)
    requires hits == [0, 5] || hits == [0, 1]
    ensures !LeastScore([true, false], 0, hits, now, 1)
  {
    MetTwice();
  }

  // A page without references need not save the call: with one of two pages referenced
  // and the other one hit, the hand meets the referenced page twice before that.
  method NullThoughFree() returns (ret: int)
    ensures ret < 0
  {
    var hits := new nat[2][0, 5];
    assert hits[..] == [0, 5];
    var g := new GClock();
    ghost var probes;
    ret, probes := g.EvictPage([true, false], [false, false], hits);
    NotInTime([0, 5], hits[..]);
  }

  // The same of CLOCK.
  method ClockNullThoughFree() returns (ret: int)
    ensures ret < 0
  {
    var hits := new nat[2][0, 5];
    assert hits[..] == [0, 5];
    assert Capped([0, 5]) == [0, 1];
    var c := new Clock();
    ghost var probes;
    ret, probes := c.EvictPage([true, false], [false, false], hits);
    NotInTime([0, 1], Capped(hits[..]));
  }

  // Nor with a dirty page: it is avoided until the hand has met both pages, and in the second
  // phase the referenced page is met twice before the other one is out of hits.
  method NullThoughDirty() returns (ret: int)
    ensures ret < 0
  {
    var hits := new nat[2][0, 5];
    assert hits[..] == [0, 5];
    var g := new GClock();
    ghost var probes;
    BothMet([0, 5]);
    ret, probes := g.EvictPage([true, false], [false, true], hits);
  }

  // The same of CLOCK.
  method ClockNullThoughDirty() returns (ret: int)
    ensures ret < 0
  {
    var hits := new nat[2][0, 5];
    assert hits[..] == [0, 5];
    assert Capped([0, 5]) == [0, 1];
    var c := new Clock();
    ghost var probes;
    BothMet([0, 1]);
    ret, probes := c.EvictPage([true, false], [false, true], hits);
  }

  lemma {:induction false} BothMet(hits: seq<nat>)
    requires hits == [0, 5] || hits == [0, 1]
    ensures NoneFound([true, false], [false, true], 0, hits)
  {
    var refs, dirty := [true, false], [false, true];
    assert Either(refs, dirty) == [true, true];
    BothPassed(hits);
    MetAgain(hits);
    assert NoneFrom(refs, dirty, 0, hits, 2, hits);
  }

  lemma {:induction false} BothPassed(hits: seq<nat>)
    requires |hits| == 2
    ensures PhaseOver([true, true], 0, hits, 2, hits)
  {
    assert forall i: nat :: i < 2 ==> PassedAt([true, true], 0, hits, hits, 2, i);
    assert forall i: nat :: i < 2 ==> TooLate([true, true], 0, hits, i);
    assert RefCount([true, true], 0, 1) == 1;
    assert RefCount([true, true], 0, 2) == 2;
  }

  lemma {:induction false} MetAgain(hits: seq<nat>)
    requires hits == [0, 5] || hits == [0, 1]
    ensures NoneInTime([true, false], 2, hits)
  {
    var refs := [true, false];
    MetByThird();
    assert Dist(2, 2, 1) == 1;
    RefCountGrows(refs, 2, 3, Score(2, 2, hits, 1));
    assert TooLate(refs, 2, hits, 0) && TooLate(refs, 2, hits, 1);
  }

  lemma {:induction false} MetByThird()
    ensures RefCount([true, false], 2, 3) == 2
  {
    assert RefCount([true, false], 2, 1) == 1;
    assert RefCount([true, false], 2, 2) == 1;
  }

  // ----- CLOCK and the follower of the adaptive policy

  // CLOCK looks only at whether a page has been hit, so it is GCLOCK on hits of at most one.
  function Capped(s: seq<nat>): (r: seq<nat>)
    ensures |r| == |s| && forall i :: 0 <= i < |s| ==> r[i] == if s[i] > 0 then 1 else 0
  {
    seq(|s|, i requires 0 <= i < |s| => if s[i] > 0 then 1 else 0)
  }

  lemma {:induction false} CappedReset(s: seq<nat>, i: nat)
    requires i < |s| && s[i] > 0
    ensures Capped(s[i := 0]) == Capped(s)[i := Capped(s)[i] - 1]
  {
  }

  lemma {:induction false} CappedSum(s: seq<nat>)
    requires forall i :: 0 <= i < |s| ==> s[i] <= 1
    ensures Sum(s) <= |s|
  {
    if s != [] { CappedSum(s[..|s| - 1]); }
  }

  // Hits are left alone or reset, and only those of unreferenced pages are reset.
  ghost predicate ResetOnly(refs: seq<bool>, before: seq<nat>, now: seq<nat>) {
    && |before| == |now| == |refs|
    && forall i :: 0 <= i < |refs| ==> (now[i] == before[i] || now[i] == 0) && (refs[i] ==> now[i] == before[i])
  }

  lemma {:induction false} SameWhenReferenced(refs: seq<bool>, before: seq<nat>, now: seq<nat>)
    requires ResetOnly(refs, before, now)
    ensures AllTrue(refs) ==> now == before
  {
  }

  class Clock {
    var clockHead: nat

    constructor ()
      ensures clockHead == 0
    {
      clockHead := 0;
    }

    method EvictPage(refs: seq<bool>, dirty: seq<bool>, hits: array<nat>) returns (ret: int, ghost probes: nat)
      requires |refs| == |dirty| == hits.Length > 0
      modifies this, hits
      ensures -1 <= ret < hits.Length && probes <= 3 * hits.Length
      ensures ret >= 0 ==> !refs[ret] && hits[ret] == 0 && clockHead % hits.Length == ret
      ensures AllTrue(refs) ==> ret < 0 && hits[..] == old(hits[..])
      ensures ResetOnly(refs, old(hits[..]), hits[..])
      // Exactly when none is returned, and otherwise which page, as GCLOCK on hits of at most one.
      ensures ret < 0 <==> NoneFound(refs, dirty, old(clockHead), Capped(old(hits[..])))
      ensures ret >= 0 ==> clockHead >= old(clockHead) && Chosen(refs, dirty, old(clockHead), Capped(old(hits[..])), Capped(hits[..]), ret, clockHead - old(clockHead))
      ensures AllFalse(refs) ==> ret >= 0
      // Without dirty pages the victim is the first unreferenced page that has not been hit or
      // comes by a second time, unless the hand has by then met referenced pages as often as
      // there are pages.
      ensures AllFalse(dirty) && ret >= 0 ==>
        LeastScore(refs, old(clockHead), Capped(old(hits[..])), Capped(hits[..]), ret)
        && clockHead == old(clockHead) + Score(|refs|, old(clockHead), Capped(old(hits[..])), ret)
      ensures AllFalse(dirty) && ret < 0 ==> NoneInTime(refs, old(clockHead), Capped(old(hits[..])))
    {
      ghost var orig, head := hits[..], clockHead;
      ret, probes := Search(refs, dirty, hits);
      EndMeans(refs, dirty, head, Capped(orig), Capped(hits[..]), ret, clockHead - head);
      SameWhenReferenced(refs, orig, hits[..]);
    }

    method Search(refs: seq<bool>, dirty: seq<bool>, hits: array<nat>) returns (ret: int, ghost probes: nat)
      requires |refs| == |dirty| == hits.Length > 0
      modifies this`clockHead, hits
      ensures -1 <= ret < hits.Length && 0 < probes <= 3 * hits.Length && clockHead == old(clockHead) + probes - 1
      ensures ret >= 0 ==> !refs[ret] && hits[ret] == 0 && clockHead % hits.Length == ret
      ensures ResetOnly(refs, old(hits[..]), hits[..])
      ensures End(refs, dirty, old(clockHead), Capped(old(hits[..])), Capped(hits[..]), ret, probes - 1)
    {
      ghost var orig, head := hits[..], clockHead;
      ghost var before := Capped(orig);
      CappedSum(before);
      var sweep := Sweep(0, 0, true);
      Start(refs, dirty, head, before);
      probes := 0;
      while true
        invariant clockHead == head + probes && ResetOnly(refs, orig, hits[..])
        invariant Tracked(refs, dirty, head, before, Capped(hits[..]), sweep, probes)
        decreases 3 * |refs| - probes
      {
        var out, pg;
        sweep, out, pg := Tracking(refs, dirty, hits, sweep, orig, before, head, probes);
        probes := probes + 1;
        if out.Null? {
          return -1, probes;
        }
        if out.Victim? {
          return pg, probes;
        }
      }
    }

    method Tracking(refs: seq<bool>, dirty: seq<bool>, hits: array<nat>, sweep: Sweep, ghost orig: seq<nat>, ghost before: seq<nat>,
                    ghost head: nat, ghost t: nat)
      returns (next: Sweep, out: Outcome, pg: nat)
      requires |refs| == |dirty| == hits.Length > 0 && clockHead == head + t && ResetOnly(refs, orig, hits[..])
      requires Tracked(refs, dirty, head, before, Capped(hits[..]), sweep, t)
      modifies this`clockHead, hits
      ensures clockHead == (if out.Go? then head + t + 1 else head + t) && pg == At(|refs|, head, t) < |refs|
      ensures ResetOnly(refs, orig, hits[..]) && (out.Victim? ==> !refs[pg] && hits[pg] == 0)
      ensures Turned(refs, dirty, head, before, Turn(out, next, Capped(hits[..])), t)
    {
      TurnKeeps(refs, dirty, head, before, Capped(hits[..]), sweep, t);
      next, out, pg := Probe(refs, dirty, hits, sweep, head, t);
    }

    // One turn of the loop; the hand stays where the loop ends.
    method Probe(refs: seq<bool>, dirty: seq<bool>, hits: array<nat>, sweep: Sweep, ghost head: nat, ghost t: nat)
      returns (next: Sweep, out: Outcome, pg: nat)
      requires |refs| == |dirty| == hits.Length > 0 && clockHead == head + t
      modifies this`clockHead, hits
      ensures pg == At(|refs|, head, t) && clockHead == head + t + (if out.Go? then 1 else 0)
      ensures Turn(out, next, Capped(hits[..])) == TurnOf(refs, dirty, Capped(old(hits[..])), sweep, pg)
      ensures hits[..] == old(hits[..]) || (!refs[pg] && hits[..] == old(hits[..])[pg := 0])
    {
      pg := clockHead % |refs|;
      next := if sweep.numDirty + sweep.numRef >= |refs| then Sweep(0, 0, false) else sweep;
      if refs[pg] {
        next := next.(numRef := next.numRef + 1);
        if next.numRef >= |refs| {
          out := Null;
          return;
        }
      } else if next.avoidDirty && dirty[pg] {
        next := next.(numDirty := next.numDirty + 1);
      } else if hits[pg] == 0 {
        out := Victim;
        return;
      } else {
        CappedReset(hits[..], pg);
        SetHits(hits, pg, 0);
      }
      out := Go;
      clockHead := clockHead + 1;
    }
  }
}
