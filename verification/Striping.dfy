/**
 Striping: consecutive ids are dealt out in ranges of r, range by range, to p parts.
 The range partitioner places vertices this way and the NUMA mapper vector elements.
 The source computes with shifts and masks, r and p being powers of two.
 */
module Striping {

  lemma {:induction false} MulLess(a: nat, b: nat, d: nat)
    requires a < b
    ensures a * d + d <= b * d
  {
    assert (b - a - 1) * d >= 0;
    assert b * d == a * d + d + (b - a - 1) * d;
  }

  lemma {:induction false} DivMod(a: nat, d: nat)
    requires d > 0
    ensures a == a / d * d + a % d && a % d < d
  {
  }

  lemma {:induction false} Unique(q: nat, m: nat, q': nat, m': nat, d: nat)
    requires m < d && m' < d && q * d + m == q' * d + m'
    ensures q == q' && m == m'
  {
    if q' < q { MulLess(q', q, d); } else if q < q' { MulLess(q, q', d); }
  }

  lemma {:induction false} DivUnique(a: nat, q: nat, m: nat, d: nat)
    requires d > 0 && m < d && a == q * d + m
    ensures a / d == q && a % d == m
  {
    DivMod(a, d);
    Unique(q, m, a / d, a % d, d);
  }

  lemma {:induction false} Distribute(q: nat, p: nat, c: nat, r: nat)
    ensures (q * p + c) * r == q * (p * r) + c * r
  {
    assert (q * p + c) * r == q * p * r + c * r;
  }

  datatype Stripe = Stripe(r: nat, p: nat) {

    predicate Valid() {
      r > 0 && p > 0
    }

    // A stripe: one range of every part.
    function Width(): nat {
      p * r
    }

    function Part(id: nat): nat
      requires Valid()
    {
      id / r % p
    }

    function Off(id: nat): nat
      requires Valid()
    {
      id / r / p * r + id % r
    }

    function Id(part: nat, off: nat): nat
      requires Valid()
    {
      off / r * Width() + part * r + off % r
    }

    // How many of the first n ids belong to the part.
    function Len(part: nat, n: nat): nat
      requires Valid() && Width() > 0
    {
      n / Width() * r + Clamp(part, n % Width())
    }

    // How much of the first rem ids of a stripe belongs to the part.
    function Clamp(part: nat, rem: nat): nat {
      if rem <= part * r then 0 else if rem - part * r < r then rem - part * r else r
    }
  }

  // The range an id lies in, in numbers.
  lemma {:induction false} Ranges(s: Stripe, part: nat, q: nat, m: nat)
    requires s.Valid() && part < s.p && m < s.r
    ensures
      var id := q * s.Width() + part * s.r + m;
      && id / s.r == q * s.p + part && id % s.r == m
      && s.Part(id) == part && s.Off(id) == q * s.r + m
      && part * s.r + m < s.Width()
  {
    var id := q * s.Width() + part * s.r + m;
    Distribute(q, s.p, part, s.r);
    DivUnique(id, q * s.p + part, m, s.r);
    DivUnique(q * s.p + part, q, part, s.p);
    MulLess(part, s.p, s.r);
  }

  // Every location has one id, which is mapped to that location.
  lemma {:induction false} LocToIdToLoc(s: Stripe, part: nat, off: nat)
    requires s.Valid() && part < s.p
    ensures s.Part(s.Id(part, off)) == part && s.Off(s.Id(part, off)) == off
  {
    Ranges(s, part, off / s.r, off % s.r);
  }

  // Every id has one location, which is mapped back to the id.
  lemma {:induction false} IdToLocToId(s: Stripe, id: nat)
    requires s.Valid()
    ensures s.Part(id) < s.p && s.Id(s.Part(id), s.Off(id)) == id
  {
    var range := id / s.r;
    var q := range / s.p;
    DivMod(id, s.r);
    DivMod(range, s.p);
    DivUnique(s.Off(id), q, id % s.r, s.r);
    Distribute(q, s.p, s.Part(id), s.r);
  }

  // The products that occur in BelowIff, as numbers.
  lemma {:induction false} BelowLinear(q: nat, k: nat, qw: nat, kw: nat, qr: nat, kr: nat, pr: nat, m: nat, rem: nat, r: nat, w: nat)
    requires q < k ==> qw + w <= kw && qr + r <= kr
    requires k < q ==> kw + w <= qw && kr + r <= qr
    requires q == k ==> qw == kw && qr == kr
    requires m < r && pr + m < w && rem < w
    ensures qw + pr + m < kw + rem <==> qr + m < kr + if rem <= pr then 0 else if rem - pr < r then rem - pr else r
  {
  }

  lemma {:induction false} BelowAt(s: Stripe, part: nat, q: nat, m: nat, k: nat, rem: nat)
    requires s.Valid() && part < s.p && m < s.r && rem < s.Width()
    ensures q * s.Width() + part * s.r + m < k * s.Width() + rem
            <==> q * s.r + m < k * s.r + s.Clamp(part, rem)
  {
    var w := s.Width();
    MulLess(part, s.p, s.r);
    if q < k {
      MulLess(q, k, w);
      MulLess(q, k, s.r);
    } else if q > k {
      MulLess(k, q, w);
      MulLess(k, q, s.r);
    }
    BelowLinear(q, k, q * w, k * w, q * s.r, k * s.r, part * s.r, m, rem, s.r, w);
  }

  // The ids below n of a part are exactly those at the first Len offsets.
  lemma {:induction false} BelowIff(s: Stripe, part: nat, off: nat, n: nat)
    requires s.Valid() && part < s.p && s.Width() > 0
    ensures s.Id(part, off) < n <==> off < s.Len(part, n)
  {
    DivMod(n, s.Width());
    DivMod(off, s.r);
    BelowAt(s, part, off / s.r, off % s.r, n / s.Width(), n % s.Width());
  }

  lemma {:induction false} LenAt(s: Stripe, part: nat, n: nat, k: nat, rem: nat)
    requires s.Valid() && rem < s.Width() && n == k * s.Width() + rem
    ensures s.Len(part, n) == k * s.r + s.Clamp(part, rem)
  {
    DivUnique(n, k, rem, s.Width());
  }

  function LenSum(s: Stripe, n: nat, parts: nat): nat
    requires s.Valid() && s.Width() > 0
  {
    if parts == 0 then 0 else LenSum(s, n, parts - 1) + s.Len(parts - 1, n)
  }

  lemma {:induction false} LenSumIs(s: Stripe, n: nat, parts: nat)
    requires s.Valid() && s.Width() > 0
    ensures LenSum(s, n, parts) ==
      parts * (n / s.Width() * s.r) + if n % s.Width() < parts * s.r then n % s.Width() else parts * s.r
  {
    var kr, rem := n / s.Width() * s.r, n % s.Width();
    if parts > 0 {
      LenSumIs(s, n, parts - 1);
      assert parts * kr == (parts - 1) * kr + kr;
      assert parts * s.r == (parts - 1) * s.r + s.r;
    }
  }

  // The parts' lengths sum up to the number of ids.
  lemma {:induction false} LengthsSum(s: Stripe, n: nat)
    requires s.Valid() && s.Width() > 0
    ensures LenSum(s, n, s.p) == n
  {
    LenSumIs(s, n, s.p);
    DivMod(n, s.Width());
    Swap(s.p, n / s.Width(), s.r);
  }

  lemma {:induction false} Swap(p: nat, k: nat, r: nat)
    ensures p * (k * r) == k * (p * r)
  {
  }
}

/** The range partitioner, with the unsigned arithmetic of the source. */
module RangePartitioner {
  import opened Striping

  const TWO32: int := 0x1_0000_0000
  const TWO63: int := 0x8000_0000_0000_0000
  const TWO64: int := 0x1_0000_0000_0000_0000

  // Conversions to size_t, to long and to vertex_id_t.
  function U64(x: int): nat {
    x % TWO64
  }

  function Long(u: nat): int {
    if u < TWO63 then u else u - TWO64
  }

  function U32(x: int): nat {
    x % TWO32
  }

  function Min(a: int, b: int): int {
    if a > b then b else a
  }

  function Max(a: int, b: int): int {
    if a < b then b else a
  }

  predicate Small(s: Stripe) {
    s.Valid() && 0 < s.Width() < 0x8000_0000
  }

  // Where the ids of a part end among the first n ids.
  function End(s: Stripe, part: nat, n: nat): int
    requires Small(s)
  {
    var w := s.Width();
    var rem := n % w;
    if rem < part * s.r then n else n / w * w + part * s.r + Min(rem - part * s.r, s.r)
  }

  lemma {:induction false} PartBelow(s: Stripe, part: nat)
    requires s.Valid() && part < s.p
    ensures part * s.r + s.r <= s.Width()
  {
    MulLess(part, s.p, s.r);
  }

  lemma {:induction false} U64Sub(x: int, r: nat)
    ensures U64(U64(x) - r) == U64(x - r)
  {
  }

  lemma {:induction false} LongBack(x: int)
    requires -TWO63 <= x < TWO63
    ensures Long(U64(x)) == x
  {
  }

  method SubtractRanges(rem: nat, part: nat, r: nat) returns (num: nat)
    ensures num == U64(rem - part * r)
  {
    num := U64(rem);
    var i := 0;
    while i < part
      invariant i <= part && num == U64(rem - i * r)
    {
      U64Sub(rem - i * r, r);
      assert (i + 1) * r == i * r + r;
      num := U64(num - r);
      i := i + 1;
    }
  }

  // With the number of ranges below and the rest of the last stripe taken as numbers.
  lemma {:induction false} EndArithmetic(below: nat, rem: nat, before: nat, r: nat)
    requires below + rem < TWO32 && before + r < TWO32 && r > 0
    ensures
      var num := U64(rem - before);
      var start := U32(before + below);
      (if num > 0 then U32(start + Min(Long(num), r)) else start)
      == if rem < before then below + rem else below + before + Min(rem - before, r)
  {
    LongBack(rem - before);
  }

  // The subtraction of ranges wraps below zero, and the minimum taken over long values
  // brings it back.
  method GetPartEnd(s: Stripe, part: nat, tot: nat) returns (vidEnd: nat)
    requires Small(s) && part < s.p && tot < TWO32
    ensures vidEnd == End(s, part, tot) <= tot
  {
    var w := s.Width();
    var below, before := tot / w * w, part * s.r;
    EndParts(s, part, tot, below, before);
    var num := SubtractRanges(tot - below, part, s.r);
    EndArithmetic(below, tot - below, before, s.r);
    vidEnd := U32(before + below);
    if num > 0 {
      vidEnd := U32(vidEnd + Min(Long(num), s.r));
    }
  }

  // The end, with the products taken as numbers.
  lemma {:induction false} EndParts(s: Stripe, part: nat, tot: nat, below: nat, before: nat)
    requires Small(s) && part < s.p && tot < TWO32 && below == tot / s.Width() * s.Width() && before == part * s.r
    ensures below <= tot && before + s.r < TWO32
    ensures
      var rem := tot - below;
      End(s, part, tot) == (if rem < before then below + rem else below + before + Min(rem - before, s.r)) <= tot
  {
    PartBelow(s, part);
    DivMod(tot, s.Width());
  }

  method GetPartSize(s: Stripe, part: nat, n: nat) returns (size: nat)
    requires Small(s) && part < s.p && n < TWO32
    ensures size == s.Len(part, n)
  {
    var vidEnd := GetPartEnd(s, part, n);
    var w := s.Width();
    PartBelow(s, part);
    var numLocalRanges := vidEnd / w;
    var below, before := numLocalRanges * w, part * s.r;
    DivMod(vidEnd, w);
    LongBack(vidEnd - below - before);
    var numLast := U64(vidEnd - below - before);
    numLast := Max(0, Long(numLast));
    EndRanges(s, part, n);
    size := numLocalRanges * s.r + numLast;
  }

  lemma {:induction false} EndRanges(s: Stripe, part: nat, n: nat)
    requires Small(s) && part < s.p && n < TWO32
    ensures
      var w, e := s.Width(), End(s, part, n);
      e / w * s.r + Max(0, e - e / w * w - part * s.r) == s.Len(part, n)
  {
    DivMod(n, s.Width());
    EndRangesAt(s, part, n / s.Width(), n % s.Width());
  }

  lemma {:induction false} EndRangesAt(s: Stripe, part: nat, k: nat, rem: nat)
    requires Small(s) && part < s.p && rem < s.Width()
    ensures
      var w := s.Width();
      var e := if rem < part * s.r then k * w + rem else k * w + part * s.r + Min(rem - part * s.r, s.r);
      e >= 0 && e / w * s.r + Max(0, e - e / w * w - part * s.r) == k * s.r + s.Clamp(part, rem)
  {
    var w := s.Width();
    PartBelow(s, part);
    var m := if rem < part * s.r then rem else part * s.r + Min(rem - part * s.r, s.r);
    DivUnique(k * w + m, k, m, w);
  }

  // Below the end of its part, an id of the part is one of the first n, and only there.
  lemma {:induction false} EndIff(s: Stripe, part: nat, j: nat, i: nat, n: nat)
    requires Small(s) && part < s.p && i < s.r
    ensures j * s.Width() + part * s.r + i < End(s, part, n) <==> j * s.Width() + part * s.r + i < n
  {
    var w := s.Width();
    var k, rem := n / w, n % w;
    PartBelow(s, part);
    DivMod(n, w);
    if j < k { MulLess(j, k, w); } else if j > k { MulLess(k, j, w); }
  }

  // The first id of the range looked at after j rounds of the loop, as a 32-bit number.
  function StartAfter(s: Stripe, part: nat, j: nat): nat {
    if j == 0 then U32(part * s.r) else U32(StartAfter(s, part, j - 1) + s.Width())
  }

  // Stripes fill the 32-bit numbers, as powers of two do.
  predicate Even(s: Stripe) {
    Small(s) && 0x1_0000_0000 % s.Width() == 0
  }

  // No range of the part is left in the last stripe of the 32-bit numbers.
  predicate Ends(s: Stripe, part: nat, tot: nat) {
    tot + s.Width() <= TWO32 + part * s.r
  }

  lemma {:induction false} Stripes(s: Stripe) returns (m: nat)
    requires Even(s)
    ensures m > 0 && m * s.Width() == TWO32
  {
    m := 0x1_0000_0000 / s.Width();
    DivMod(0x1_0000_0000, s.Width());
  }

  // After the last stripe the start wraps around to the first one.
  lemma {:induction false} StartRound(s: Stripe, part: nat, j: nat, m: nat)
    requires Even(s) && part < s.p && m > 0 && m * s.Width() == TWO32
    ensures j % m < m && StartAfter(s, part, j) == part * s.r + j % m * s.Width()
  {
    var w := s.Width();
    PartBelow(s, part);
    MulLess(0, m, w);
    if j == 0 {
      Fits32(part * s.r);
    } else {
      StartRound(s, part, j - 1, m);
      var i := (j - 1) % m;
      NextRound(j, m);
      NextStart(part * s.r, i, w, m);
    }
  }

  lemma {:induction false} NextRound(j: nat, m: nat)
    requires j > 0 && m > 0
    ensures (j - 1) % m < m && j % m == if (j - 1) % m + 1 == m then 0 else (j - 1) % m + 1
  {
    var q, i := (j - 1) / m, (j - 1) % m;
    DivMod(j - 1, m);
    if i + 1 == m {
      assert (q + 1) * m == q * m + m;
      DivUnique(j, q + 1, 0, m);
    } else {
      DivUnique(j, q, i + 1, m);
    }
  }

  lemma {:induction false} NextStart(first: nat, i: nat, w: nat, m: nat)
    requires i < m && m * w == TWO32 && first < w
    ensures U32(first + i * w + w) == first + (if i + 1 == m then 0 else i + 1) * w
  {
    assert (i + 1) * w == i * w + w;
    if i + 1 == m {
      WrapsOnce(first);
    } else {
      MulLess(i + 1, m, w);
      Fits32(first + (i + 1) * w);
    }
  }

  lemma {:induction false} WrapsOnce(x: nat)
    requires x < 0x1_0000_0000
    ensures U32(x + 0x1_0000_0000) == x
  {
  }

  // Exactly when the loop would never meet the end of the part.
  lemma {:induction false} EndlessIff(s: Stripe, part: nat, tot: nat)
    requires Even(s) && part < s.p && tot < TWO32
    ensures (forall j: nat :: StartAfter(s, part, j) < End(s, part, tot)) <==> !Ends(s, part, tot)
  {
    var m := Stripes(s);
    assert (m - 1) * s.Width() == TWO32 - s.Width();
    if Ends(s, part, tot) {
      StartRound(s, part, m - 1, m);
      DivUnique(m - 1, 0, m - 1, m);
      EndIff(s, part, m - 1, 0, tot);
    } else {
      forall j: nat ensures StartAfter(s, part, j) < End(s, part, tot) {
        StartRound(s, part, j, m);
        var i := j % m;
        if i < m - 1 { MulLess(i, m - 1, s.Width()); }
        EndIff(s, part, i, 0, tot);
      }
    }
  }

  // The last vertex more that fits into 32 bits but for one range: part 0 never ends, and
  // is back at its first vertex after a round; part 1 ends.
  lemma {:induction false} EndlessInput()
    ensures
      var s, tot := Stripe(1024, 4), 0x1_0000_0000 - 4096 + 1;
      && Even(s) && StartAfter(s, 0, 0x10_0000) == StartAfter(s, 0, 0)
      && (forall j: nat :: StartAfter(s, 0, j) < End(s, 0, tot))
      && exists j: nat :: StartAfter(s, 1, j) >= End(s, 1, tot)
  {
    var s, tot := Stripe(1024, 4), 0x1_0000_0000 - 4096 + 1;
    assert s.Width() == 4096;
    EndlessIff(s, 0, tot);
    EndlessIff(s, 1, tot);
    StartRound(s, 0, 0x10_0000, 0x10_0000);
    StartRound(s, 0, 0, 0x10_0000);
  }

  lemma {:induction false} NoWrap(s: Stripe, part: nat, tot: nat, j: nat)
    requires Even(s) && part < s.p && Ends(s, part, tot) && j * s.Width() + part * s.r < tot
    ensures j * s.Width() + part * s.r + s.Width() < TWO32
  {
    var m := Stripes(s);
    var w := s.Width();
    PartBelow(s, part);
    assert (m - 1) * w == TWO32 - w;
    if j > m - 1 { MulLess(m - 1, j, w); }
    MulLess(j, m - 1, w);
  }

  // Lists the vertices of the part: the i-th has local offset i.
  method GetAllVerticesInPart(s: Stripe, part: nat, tot: nat) returns (ids: seq<nat>)
    requires Even(s) && part < s.p && tot < TWO32 && Ends(s, part, tot)
    ensures |ids| == s.Len(part, tot)
    ensures forall i :: 0 <= i < |ids| ==> ids[i] == s.Id(part, i)
  {
    var vidEnd := GetPartEnd(s, part, tot);
    PartBelow(s, part);
    Fits32(part * s.r);
    ListedNone(s, part, tot);
    ids := [];
    var vidStart := U32(part * s.r);
    ghost var j := 0;
    while vidStart < vidEnd
      invariant Listed(s, part, tot, j, vidStart, ids)
      decreases if vidStart < vidEnd then vidEnd - vidStart else 0
    {
      ids, vidStart := ListRange(s, part, tot, j, vidStart, vidEnd, ids);
      j := j + 1;
    }
    ListedAll(s, part, tot, j, vidStart, ids);
  }

  method ListRange(s: Stripe, part: nat, tot: nat, ghost j: nat, vidStart: nat, vidEnd: nat, before: seq<nat>)
    returns (ids: seq<nat>, next: nat)
    requires Even(s) && part < s.p && Ends(s, part, tot) && vidEnd == End(s, part, tot) && vidStart < vidEnd <= tot
    requires Listed(s, part, tot, j, vidStart, before)
    ensures Listed(s, part, tot, j + 1, next, ids) && next > vidStart
  {
    ids := Chunk(s, part, tot, j, vidStart, vidEnd, before);
    ListedNext(s, part, tot, j, vidStart, ids);
    NoWrap(s, part, tot, j);
    Fits32(vidStart + s.Width());
    next := U32(vidStart + s.Width());
  }

  lemma {:induction false} Fits32(x: nat)
    requires x < 0x1_0000_0000
    ensures U32(x) == x
  {
  }

  lemma {:induction false} ListedAll(s: Stripe, part: nat, tot: nat, j: nat, vidStart: nat, ids: seq<nat>)
    requires Small(s) && part < s.p && Listed(s, part, tot, j, vidStart, ids) && vidStart >= End(s, part, tot)
    ensures |ids| == s.Len(part, tot) && forall i :: 0 <= i < |ids| ==> ids[i] == s.Id(part, i)
  {
    Start(s, part, tot, j);
  }

  lemma {:induction false} ListedNone(s: Stripe, part: nat, tot: nat)
    requires Small(s)
    ensures Listed(s, part, tot, 0, part * s.r, [])
  {
  }

  // The first j ranges of the part are listed.
  ghost predicate Listed(s: Stripe, part: nat, tot: nat, j: nat, vidStart: nat, ids: seq<nat>)
    requires Small(s)
  {
    && vidStart == j * s.Width() + part * s.r
    && |ids| == (if j * s.r < s.Len(part, tot) then j * s.r else s.Len(part, tot))
    && (vidStart < End(s, part, tot) ==> |ids| == j * s.r)
    && forall i :: 0 <= i < |ids| ==> ids[i] == s.Id(part, i)
  }

  lemma {:induction false} ListedNext(s: Stripe, part: nat, tot: nat, j: nat, vidStart: nat, ids: seq<nat>)
    requires Small(s) && part < s.p && vidStart == j * s.Width() + part * s.r
    requires |ids| == if j * s.r + s.r < s.Len(part, tot) then j * s.r + s.r else s.Len(part, tot)
    requires forall i :: 0 <= i < |ids| ==> ids[i] == s.Id(part, i)
    ensures Listed(s, part, tot, j + 1, vidStart + s.Width(), ids)
  {
    NextRange(s, j);
    Start(s, part, tot, j + 1);
  }

  lemma {:induction false} NextRange(s: Stripe, j: nat)
    ensures (j + 1) * s.Width() == j * s.Width() + s.Width() && (j + 1) * s.r == j * s.r + s.r
  {
  }

  lemma {:induction false} Start(s: Stripe, part: nat, tot: nat, j: nat)
    requires Small(s) && part < s.p
    ensures j * s.Width() + part * s.r < End(s, part, tot) <==> j * s.r < s.Len(part, tot)
  {
    EndIff(s, part, j, 0, tot);
    DivUnique(j * s.r, j, 0, s.r);
    BelowIff(s, part, j * s.r, tot);
  }

  // The vertices of one range.
  method Chunk(s: Stripe, part: nat, tot: nat, ghost j: nat, vidStart: nat, vidEnd: nat, before: seq<nat>) returns (ids: seq<nat>)
    requires Small(s) && part < s.p && vidEnd == End(s, part, tot)
    requires vidStart == j * s.Width() + part * s.r < vidEnd && |before| == j * s.r
    requires forall i :: 0 <= i < |before| ==> before[i] == s.Id(part, i)
    ensures |ids| == if j * s.r + s.r < s.Len(part, tot) then j * s.r + s.r else s.Len(part, tot)
    ensures forall i :: 0 <= i < |ids| ==> ids[i] == s.Id(part, i)
  {
    ids := before;
    var size := Min(s.r, vidEnd - vidStart);
    for i := 0 to size
      invariant |ids| == j * s.r + i
      invariant forall k :: 0 <= k < |ids| ==> ids[k] == s.Id(part, k)
    {
      DivUnique(j * s.r + i, j, i, s.r);
      ids := ids + [vidStart + i];
    }
    Reached(s, part, tot, j, size);
  }

  lemma {:induction false} Reached(s: Stripe, part: nat, tot: nat, j: nat, size: nat)
    requires Small(s) && part < s.p && j * s.Width() + part * s.r < End(s, part, tot)
    requires size == Min(s.r, End(s, part, tot) - (j * s.Width() + part * s.r))
    ensures j * s.r + size == if j * s.r + s.r < s.Len(part, tot) then j * s.r + s.r else s.Len(part, tot)
  {
    var last := size - 1;
    EndIff(s, part, j, last, tot);
    DivUnique(j * s.r + last, j, last, s.r);
    BelowIff(s, part, j * s.r + last, tot);
    if size < s.r {
      EndIff(s, part, j, size, tot);
      DivUnique(j * s.r + size, j, size, s.r);
      BelowIff(s, part, j * s.r + size, tot);
    }
  }

  // map2loc over a list: the i-th bucket gets the offsets of its vertices, in order.
  function Bucket(s: Stripe, ids: seq<nat>, part: nat): seq<nat>
    requires s.Valid()
  {
    if ids == [] then []
    else
      var last := ids[|ids| - 1];
      Bucket(s, ids[..|ids| - 1], part) + if s.Part(last) == part then [s.Off(last)] else []
  }

  method MapAll(s: Stripe, ids: seq<nat>, locs: array<seq<nat>>)
    requires s.Valid() && locs.Length == s.p
    modifies locs
    ensures forall q :: 0 <= q < s.p ==> locs[q] == old(locs[q]) + Bucket(s, ids, q)
  {
    for i := 0 to |ids|
      invariant forall q :: 0 <= q < s.p ==> locs[q] == old(locs[q]) + Bucket(s, ids[..i], q)
    {
      var id := ids[i];
      IdToLocToId(s, id);
      assert ids[..i + 1][..i] == ids[..i];
      locs[s.Part(id)] := locs[s.Part(id)] + [s.Off(id)];
    }
    assert ids[..|ids|] == ids;
  }
}

/** Elements of a vector dealt out to NUMA nodes. */
module NumaMapper {
  import opened Striping

  // map2physical of an element at the start of its range.
  lemma {:induction false} RangeStart(s: Stripe, range: nat)
    requires s.Valid()
    ensures s.Part(range * s.r) == range % s.p && s.Off(range * s.r) == range / s.p * s.r
  {
    DivUnique(range * s.r, range, 0, s.r);
  }

  // The node that holds the range so many ranges before the given one.
  function Node(s: Stripe, range: nat, back: nat): nat
    requires s.Valid() && back <= range
  {
    (range - back) % s.p
  }

  // The length of the part that holds the given range, when the range is the last one
  // and has extra elements.
  lemma {:induction false} LastLen(s: Stripe, range: nat, back: nat, extra: nat)
    requires s.Valid() && s.Width() > 0 && back <= range && back < s.p && extra < s.r
    ensures s.Len(Node(s, range, back), range * s.r + extra)
            == (range - back) / s.p * s.r + if back == 0 then extra else s.r
  {
    DivMod(range, s.p);
    LastLenAt(s, range / s.p, range % s.p, back, extra);
  }

  lemma {:induction false} LastLenAt(s: Stripe, k: nat, c: nat, back: nat, extra: nat)
    requires s.Valid() && c < s.p && back <= k * s.p + c && back < s.p && extra < s.r && s.Width() > 0
    ensures
      var range := k * s.p + c;
      s.Len(Node(s, range, back), range * s.r + extra) == (range - back) / s.p * s.r + if back == 0 then extra else s.r
  {
    var range := k * s.p + c;
    StripeLen(s, k, c, Node(s, range, back), extra);
    if back <= c {
      DivUnique(range - back, k, c - back, s.p);
      SameStripe(s, c, back, extra);
    } else {
      EarlierStripe(s, range, back, k, c);
      BehindInStripe(s, c, s.p + c - back, extra);
    }
  }

  lemma {:induction false} StripeLen(s: Stripe, k: nat, c: nat, node: nat, extra: nat)
    requires s.Valid() && c < s.p && extra < s.r && s.Width() > 0
    ensures s.Len(node, (k * s.p + c) * s.r + extra) == k * s.r + s.Clamp(node, c * s.r + extra)
  {
    Distribute(k, s.p, c, s.r);
    MulLess(c, s.p, s.r);
    LenAt(s, node, (k * s.p + c) * s.r + extra, k, c * s.r + extra);
  }

  lemma {:induction false} SameStripe(s: Stripe, c: nat, back: nat, extra: nat)
    requires s.Valid() && back <= c && extra < s.r
    ensures s.Clamp(c - back, c * s.r + extra) == if back == 0 then extra else s.r
  {
    if back > 0 { MulLess(c - back, c, s.r); }
  }

  lemma {:induction false} BehindInStripe(s: Stripe, c: nat, node: nat, extra: nat)
    requires s.Valid() && c < node && extra < s.r
    ensures s.Clamp(node, c * s.r + extra) == 0
  {
    MulLess(c, node, s.r);
  }

  lemma {:induction false} EarlierStripe(s: Stripe, range: nat, back: nat, k: nat, c: nat)
    requires s.Valid() && range == k * s.p + c && c < back <= range && back < s.p
    ensures k > 0 && (range - back) / s.p == k - 1 && (range - back) % s.p == s.p + c - back
    ensures (k - 1) * s.r + s.r == k * s.r
  {
    assert k != 0;
    assert (k - 1) * s.p == k * s.p - s.p;
    DivUnique(range - back, k - 1, s.p + c - back, s.p);
  }

  // A node further back than the first range has nothing.
  lemma {:induction false} NoLen(s: Stripe, range: nat, extra: nat, q: nat)
    requires s.Valid() && s.Width() > 0 && range < q < s.p && extra < s.r
    ensures s.Len(q, range * s.r + extra) == 0
  {
    var n := range * s.r + extra;
    MulLess(range, q, s.r);
    MulLess(q, s.p, s.r);
    DivUnique(n, 0, n, s.Width());
  }

  ghost predicate Visited(s: Stripe, range: nat, i: nat, q: nat)
    requires s.Valid() && i <= range
  {
    exists b :: 0 <= b <= i && Node(s, range, b) == q
  }

  // One more range back, and the length of its node.
  method NodeLength(s: Stripe, len: nat, range: nat, back: nat, rangeOff: nat) returns (node: nat, length: nat)
    requires s.Valid() && s.Width() > 0 && range == len / s.r && 0 < back <= range && back < s.p
    requires rangeOff == (range - back) * s.r
    ensures node == Node(s, range, back) < s.p && length == s.Len(node, len)
  {
    RangeStart(s, range - back);
    DivMod(len, s.r);
    LastLen(s, range, back, len % s.r);
    node, length := s.Part(rangeOff), s.Off(rangeOff) + s.r;
  }

  method LastLength(s: Stripe, len: nat) returns (node: nat, length: nat)
    requires s.Valid() && s.Width() > 0
    ensures node == Node(s, len / s.r, 0) < s.p && length == s.Len(node, len)
  {
    RangeStart(s, len / s.r);
    DivMod(len, s.r);
    LastLen(s, len / s.r, 0, len % s.r);
    node, length := s.Part(len / s.r * s.r), s.Off(len / s.r * s.r) + len % s.r;
  }

  lemma {:induction false} StepBack(range: nat, i: nat, r: nat)
    requires r > 0 && i <= range
    ensures (range - i) * r >= r <==> i < range
    ensures i < range ==> (range - i) * r - r == (range - i - 1) * r
  {
    if i < range { MulLess(0, range - i, r); }
  }

  // Walks back from the last range over at most one stripe.
  method CalLocalLengths(s: Stripe, len: nat) returns (ret: seq<nat>)
    requires s.Valid() && s.Width() > 0
    ensures |ret| == s.p
    ensures forall q :: 0 <= q < s.p ==> ret[q] == s.Len(q, len)
  {
    var node, length := LastLength(s, len);
    ret := seq(s.p, _ => 0)[node := length];
    var range := len / s.r;
    var rangeOff := range * s.r;
    var i := 0;
    StepBack(range, i, s.r);
    while i < s.p - 1 && rangeOff >= s.r
      invariant 0 <= i <= s.p - 1 && i <= range && |ret| == s.p && rangeOff == (range - i) * s.r
      invariant rangeOff >= s.r <==> i < range
      invariant forall q :: 0 <= q < s.p ==> ret[q] == if Visited(s, range, i, q) then s.Len(q, len) else 0
    {
      StepBack(range, i, s.r);
      rangeOff := rangeOff - s.r;
      i := i + 1;
      StepBack(range, i, s.r);
      node, length := NodeLength(s, len, range, i, rangeOff);
      Unvisited(s, range, i);
      assert ret[node] == 0;
      ret := ret[node := length];
    }
    forall q | 0 <= q < s.p ensures ret[q] == s.Len(q, len) {
      DivMod(len, s.r);
      Covered(s, range, i, q, len % s.r);
    }
  }

  // The next node back has not been visited.
  lemma {:induction false} Unvisited(s: Stripe, range: nat, i: nat)
    requires s.Valid() && 0 < i <= range && i < s.p
    ensures !Visited(s, range, i - 1, Node(s, range, i))
    ensures forall q :: Visited(s, range, i, q) <==> Visited(s, range, i - 1, q) || q == Node(s, range, i)
  {
    forall b | 0 <= b < i ensures Node(s, range, b) != Node(s, range, i) {
      Different(range - b, range - i, s.p);
    }
    assert forall q :: Visited(s, range, i - 1, q) ==> Visited(s, range, i, q);
  }

  lemma {:induction false} Different(x: nat, y: nat, p: nat)
    requires p > 0 && y < x < y + p
    ensures x % p != y % p
  {
    DivMod(x, p);
    DivMod(y, p);
    if x / p > y / p { MulLess(y / p, x / p, p); } else if x / p < y / p { MulLess(x / p, y / p, p); }
  }

  lemma {:induction false} Covered(s: Stripe, range: nat, i: nat, q: nat, extra: nat)
    requires s.Valid() && s.Width() > 0 && q < s.p && i <= range && i < s.p && extra < s.r
    requires i == s.p - 1 || i == range
    ensures Visited(s, range, i, q) || s.Len(q, range * s.r + extra) == 0
  {
    var c, k := range % s.p, range / s.p;
    DivMod(range, s.p);
    if q <= c {
      InLastStripe(s, range, k, c, q);
      VisitedBy(s, range, i, q, c - q);
    } else if k > 0 {
      InStripeBefore(s, range, k, c, q);
      VisitedBy(s, range, i, q, c + s.p - q);
    } else {
      assert range == c;
      NoLen(s, range, extra, q);
    }
  }

  lemma {:induction false} VisitedBy(s: Stripe, range: nat, i: nat, q: nat, back: nat)
    requires s.Valid() && i <= range && back <= range && back < s.p && (i == s.p - 1 || i == range) && Node(s, range, back) == q
    ensures Visited(s, range, i, q)
  {
    assert 0 <= back <= i;
  }

  lemma {:induction false} InLastStripe(s: Stripe, range: nat, k: nat, c: nat, q: nat)
    requires s.Valid() && range == k * s.p + c && q <= c < s.p
    ensures c - q <= range && Node(s, range, c - q) == q
  {
    DivUnique(range - (c - q), k, q, s.p);
  }

  lemma {:induction false} InStripeBefore(s: Stripe, range: nat, k: nat, c: nat, q: nat)
    requires s.Valid() && range == k * s.p + c && c < q < s.p && k > 0
    ensures c + s.p - q <= range && Node(s, range, c + s.p - q) == q
  {
    MulLess(0, k, s.p);
    EarlierStripe(s, range, c + s.p - q, k, c);
  }
}
