/** The hybrid of a short vector and a bitmap that holds the vertices active in a level. */
module ActiveVertices {
  import opened VertexBitmap

  const MAX_ACTIVE_V: nat := 1024

  // std::sort followed by std::unique.
  function InsertUnique(v: seq<nat>, x: nat): seq<nat> {
    if v == [] then [x]
    else
      var last := v[|v| - 1];
      if last < x then v + [x]
      else if last == x then v
      else InsertUnique(v[..|v| - 1], x) + [last]
  }

  function SortUnique(v: seq<nat>, n: nat): seq<nat>
    requires n <= |v|
  {
    if n == 0 then [] else InsertUnique(SortUnique(v, n - 1), v[n - 1])
  }

  lemma {:induction false} InsertUniqueIn(v: seq<nat>, x: nat, y: nat)
    ensures y in InsertUnique(v, x) <==> y in v || y == x
    decreases |v|
  {
    if v != [] && v[|v| - 1] > x {
      InsertUniqueIn(v[..|v| - 1], x, y);
      assert v == v[..|v| - 1] + [v[|v| - 1]];
    }
  }

  lemma {:induction false} InsertUniqueAscending(v: seq<nat>, x: nat)
    requires Ascending(v)
    ensures Ascending(InsertUnique(v, x))
    decreases |v|
  {
    if v != [] && v[|v| - 1] > x {
      var front, last := v[..|v| - 1], v[|v| - 1];
      InsertUniqueAscending(front, x);
      var r := InsertUnique(front, x);
      forall i | 0 <= i < |r| ensures r[i] < last {
        InsertUniqueIn(front, x, r[i]);
        assert r[i] in r;
      }
    }
  }

  lemma {:induction false} SortUniqueIs(v: seq<nat>, n: nat)
    requires n <= |v|
    ensures Ascending(SortUnique(v, n)) && Elements(SortUnique(v, n)) == Elements(v[..n])
  {
    if n > 0 {
      SortUniqueIs(v, n - 1);
      var s := SortUnique(v, n - 1);
      InsertUniqueAscending(s, v[n - 1]);
      assert v[..n] == v[..n - 1] + [v[n - 1]];
      forall y: nat ensures y in InsertUnique(s, v[n - 1]) <==> y in v[..n] {
        InsertUniqueIn(s, v[n - 1], y);
        assert y in s <==> y in Elements(v[..n - 1]);
      }
    }
  }

  predicate Below(ids: seq<nat>, n: nat) {
    forall i :: 0 <= i < |ids| ==> ids[i] < n
  }

  class ActiveVertexSet {
    const bitmap: Bitmap
    var activeV: seq<nat>
    var fetchIdx: ScanPointer

    // The set of vertices that the two representations stand for.
    ghost function Contents(): set<nat>
      reads this, bitmap, bitmap.words
    {
      Elements(activeV) + bitmap.Bits()
    }

    ghost function Repr(): set<object> {
      {this, bitmap, bitmap.words}
    }

    ghost predicate Valid()
      reads this, bitmap, bitmap.words
    {
      && bitmap.Valid() && fetchIdx.Valid()
      && Below(activeV, bitmap.maxBits)
      && (activeV == [] || bitmap.Bits() == {})
    }

    // Ready to be fetched from: no duplicates, and the words already passed are zero.
    ghost predicate Ready()
      reads this, bitmap, bitmap.words
    {
      && Valid() && Distinct(activeV) && fetchIdx.size <= bitmap.NumLongs()
      && (forall k :: 0 <= k < bitmap.words.Length && !(fetchIdx.Low() <= k < fetchIdx.High()) ==> bitmap.words[k] == {})
    }

    constructor (numVertices: nat)
      ensures Ready() && Contents() == {} && bitmap.maxBits == numVertices && fresh(Repr())
    {
      bitmap := new Bitmap(numVertices);
      activeV := [];
      fetchIdx := ScanPointer.Start(0, true);
      new;
      EmptyWords();
    }

    method SetBitmap(ids: seq<nat>)
      requires bitmap.Valid() && Below(ids, bitmap.maxBits)
      modifies bitmap`numSet, bitmap.words
      ensures bitmap.Valid() && bitmap.Bits() == old(bitmap.Bits()) + Elements(ids)
    {
      ghost var before := bitmap.Bits();
      for i := 0 to |ids|
        invariant bitmap.Valid() && bitmap.Bits() == before + Elements(ids[..i])
      {
        bitmap.Set(ids[i]);
        ElementsSnoc(ids, i);
      }
      assert ids[..|ids|] == ids;
    }

    // Moves everything to the bitmap.
    method ForceBitmap()
      requires Valid()
      modifies this, bitmap, bitmap.words
      ensures Valid() && activeV == [] && Contents() == old(Contents()) && fetchIdx == old(fetchIdx)
    {
      SetBitmap(activeV);
      activeV := [];
    }

    // Goes over to the bitmap because the vector would grow too long.
    method Spill(ids: seq<nat>)
      requires Valid() && Below(ids, bitmap.maxBits)
      modifies this, bitmap, bitmap.words
      ensures Valid() && Contents() == old(Contents()) + Elements(ids)
    {
      ghost var bits, v := bitmap.Bits(), activeV;
      SetBitmap(ids);
      SetBitmap(activeV);
      activeV := [];
      Gathered(bits, v, ids, bitmap.Bits());
    }

    // Appends to the vector while the bitmap is empty.
    method Push(ids: seq<nat>)
      requires Valid() && Below(ids, bitmap.maxBits) && bitmap.numSet == 0
      modifies this`activeV
      ensures Valid() && Contents() == old(Contents()) + Elements(ids)
    {
      assert Elements(activeV + ids) == Elements(activeV) + Elements(ids);
      activeV := activeV + ids;
    }

    // Adds to a bitmap already in use.
    method Mark(ids: seq<nat>)
      requires Valid() && Below(ids, bitmap.maxBits) && bitmap.numSet > 0
      modifies this, bitmap, bitmap.words
      ensures Valid() && Contents() == old(Contents()) + Elements(ids)
    {
      SetBitmap(ids);
    }

    method ActivateVertices(ids: seq<nat>)
      requires Valid() && Below(ids, bitmap.maxBits)
      modifies this, bitmap, bitmap.words
      ensures Valid() && Contents() == old(Contents()) + Elements(ids)
    {
      if bitmap.numSet > 0 {
        Mark(ids);
      } else if |activeV| + |ids| < MAX_ACTIVE_V {
        Push(ids);
      } else {
        Spill(ids);
      }
    }

    method ActivateVertex(id: nat)
      requires Valid() && id < bitmap.maxBits
      modifies this, bitmap, bitmap.words
      ensures Valid() && Contents() == old(Contents()) + {id}
    {
      assert Elements([id]) == {id};
      if bitmap.numSet > 0 {
        Mark([id]);
      } else if |activeV| < MAX_ACTIVE_V {
        Push([id]);
      } else {
        Spill([id]);
      }
    }

    function NumActiveVertices(): nat
      reads this, bitmap
    {
      if activeV == [] then bitmap.numSet else |activeV|
    }

    method Finalize()
      requires Valid()
      modifies this`activeV
      ensures Valid() && Distinct(activeV) && Contents() == old(Contents())
      ensures NumActiveVertices() == |Contents()|
    {
      if activeV != [] {
        assert activeV[0] in Elements(activeV);
        ghost var before := activeV;
        SortUniqueIs(activeV, |activeV|);
        assert activeV[..|activeV|] == activeV;
        activeV := SortUnique(activeV, |activeV|);
        forall i | 0 <= i < |activeV| ensures activeV[i] < bitmap.maxBits {
          assert activeV[i] in Elements(before);
        }
      }
      DistinctCount(activeV);
      assert activeV == [] ==> Contents() == bitmap.Bits();
      assert activeV != [] ==> Contents() == Elements(activeV);
    }

    method ResetActiveVertex(id: nat)
      requires Valid() && activeV == [] && id < bitmap.maxBits
      modifies bitmap`numSet, bitmap.words
      ensures Valid() && Contents() == old(Contents()) - {id}
    {
      bitmap.Reset(id);
    }

    method IsActive(id: nat) returns (b: bool)
      requires Valid() && activeV == [] && id < bitmap.maxBits
      ensures b <==> id in Contents()
    {
      b := bitmap.Get(id);
    }

    method Clear()
      requires Valid()
      modifies this, bitmap, bitmap.words
      ensures Ready() && Contents() == {}
    {
      activeV := [];
      bitmap.Clear();
      fetchIdx := ScanPointer.Start(0, true);
      EmptyWords();
    }

    method SetDir(forward: bool)
      requires Valid() && Distinct(activeV)
      modifies this`fetchIdx
      ensures Ready() && Contents() == old(Contents())
    {
      fetchIdx := ScanPointer.Start(bitmap.NumLongs(), forward);
    }

    // Takes up to max vertices out of the set; more than max may come out of the bitmap.
    // Below one word's worth the scan of the bitmap would not move.
    method FetchReset(max: nat) returns (ids: seq<nat>)
      requires Ready()
      requires max >= WORD_BITS || max == 0 || activeV != [] || fetchIdx.Remaining() == 0
      modifies this, bitmap, bitmap.words
      ensures Ready() && Distinct(ids)
      ensures Elements(ids) <= old(Contents()) && Contents() == old(Contents()) - Elements(ids)
      ensures ids == [] ==> max == 0 || Contents() == {}
    {
      if activeV != [] {
        var num := Min(max, |activeV|);
        ids := activeV[..num];
        activeV := activeV[num..];
        Divided(old(activeV), num);
      } else {
        ids := FetchBitmap(max);
      }
    }

    method FetchBitmap(max: nat) returns (ids: seq<nat>)
      requires Ready() && activeV == [] && (max >= WORD_BITS || max == 0 || fetchIdx.Remaining() == 0)
      modifies this, bitmap, bitmap.words
      ensures Ready() && activeV == [] && Distinct(ids)
      ensures Elements(ids) <= old(Contents()) && Contents() == old(Contents()) - Elements(ids)
      ensures ids == [] ==> max == 0 || Contents() == {}
    {
      ids := [];
      while |ids| < max && fetchIdx.Remaining() > 0
        invariant Ready() && activeV == [] && Distinct(ids)
        invariant Elements(ids) <= old(Contents()) && bitmap.Bits() == old(Contents()) - Elements(ids)
        decreases fetchIdx.Remaining()
      {
        var more := ScanOn(max / WORD_BITS);
        DistinctAppend(ids, more);
        ids := ids + more;
      }
      if fetchIdx.Remaining() == 0 {
        ScannedOut();
      }
    }

    lemma {:induction false} EmptyWords()
      requires bitmap.Valid() && bitmap.Bits() == {}
      ensures forall k :: 0 <= k < bitmap.words.Length ==> bitmap.words[k] == {}
    {
      forall k | 0 <= k < bitmap.words.Length ensures bitmap.words[k] == {} {
        if b :| b in bitmap.words[k] {
          BitsIn(bitmap.words[..], b + k * WORD_BITS);
        }
      }
    }

    lemma {:induction false} ScannedOut()
      requires Ready() && fetchIdx.Remaining() == 0
      ensures bitmap.Bits() == {}
    {
      BitsNone(bitmap.words[..]);
    }

    // One move of the scan pointer, with the bits it passes over.
    method ScanOn(dist: nat) returns (more: seq<nat>)
      requires Ready() && activeV == []
      modifies this, bitmap, bitmap.words
      ensures Ready() && activeV == [] && Distinct(more) && fetchIdx == old(fetchIdx).Move(dist)
      ensures Elements(more) <= old(bitmap.Bits()) && bitmap.Bits() == old(bitmap.Bits()) - Elements(more)
    {
      var currLoc := fetchIdx.idx;
      fetchIdx := fetchIdx.Move(dist);
      var newLoc := fetchIdx.idx;
      more := bitmap.GetResetSetBits(Min(currLoc, newLoc) * WORD_BITS, Max(currLoc, newLoc) * WORD_BITS);
      forall k | 0 <= k < bitmap.words.Length && !(fetchIdx.Low() <= k < fetchIdx.High()) ensures bitmap.words[k] == {} {
        MoveSplits(old(fetchIdx), dist, k);
      }
    }
  }

  // A request for fewer vertices than a word has bits never moves the scan of the bitmap,
  // so the loop of FetchBitmap would not end; every other request moves it.
  lemma {:induction false} ScanMoves(p: ScanPointer, max: nat)
    requires p.Valid()
    ensures p.Move(max / WORD_BITS) != p <==> max >= WORD_BITS && p.Remaining() > 0
  {
  }

  lemma {:induction false} Gathered(bits: set<nat>, v: seq<nat>, ids: seq<nat>, all: set<nat>)
    requires all == bits + Elements(ids) + Elements(v)
    ensures Elements([]) + all == Elements(v) + bits + Elements(ids)
  {
  }

  lemma {:induction false} ElementsSnoc(ids: seq<nat>, i: nat)
    requires i < |ids|
    ensures Elements(ids[..i + 1]) == Elements(ids[..i]) + {ids[i]}
  {
    assert ids[..i + 1] == ids[..i] + [ids[i]];
  }

  lemma {:induction false} Divided(v: seq<nat>, k: nat)
    requires Distinct(v) && k <= |v|
    ensures Distinct(v[..k]) && Distinct(v[k..])
    ensures Elements(v[..k]) <= Elements(v) && Elements(v[k..]) == Elements(v) - Elements(v[..k])
  {
    assert v == v[..k] + v[k..];
    forall x | x in v[k..] ensures x !in v[..k] {
      var j :| 0 <= j < |v[k..]| && v[k..][j] == x;
      assert v[k + j] == x;
    }
  }

  lemma {:induction false} DistinctAppend<T>(v: seq<T>, more: seq<T>)
    requires Distinct(v) && Distinct(more) && Elements(v) !! Elements(more)
    ensures Distinct(v + more) && Elements(v + more) == Elements(v) + Elements(more)
  {
    forall i, j | 0 <= i < j < |v + more| ensures (v + more)[i] != (v + more)[j] {
      if i < |v| <= j {
        assert v[i] in Elements(v) && more[j - |v|] in Elements(more);
      }
    }
  }
}
