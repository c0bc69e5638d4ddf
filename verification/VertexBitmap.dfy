/** The bitmap of a partition's vertices and the pointer that scans it in either direction. */
module VertexBitmap {

  const WORD_BITS: nat := 64

  // A machine word, as the set of the positions of its one bits.
  type Word = set<nat>

  predicate Ascending(v: seq<nat>) {
    forall i, j :: 0 <= i < j < |v| ==> v[i] < v[j]
  }

  function Elements<T>(v: seq<T>): set<T> {
    set x | x in v
  }

  predicate Distinct<T(==)>(v: seq<T>) {
    forall i, j :: 0 <= i < j < |v| ==> v[i] != v[j]
  }

  lemma {:induction false} DistinctCount<T>(v: seq<T>)
    requires Distinct(v)
    ensures |Elements(v)| == |v|
  {
    if v == [] {
    } else {
      var rest := v[..|v| - 1];
      DistinctCount(rest);
      assert v == rest + [v[|v| - 1]];
      assert Elements(v) == Elements(rest) + {v[|v| - 1]};
      assert v[|v| - 1] !in Elements(rest);
    }
  }

  ghost predicate Within(bits: set<nat>, n: nat) {
    forall i :: i in bits ==> i < n
  }

  // The positions of the one bits of a sequence of words.
  ghost function BitsOf(ws: seq<Word>): set<nat> {
    if ws == [] then {}
    else
      var k := |ws| - 1;
      BitsOf(ws[..k]) + set b | b in ws[k] :: b + k * WORD_BITS
  }

  ghost predicate Wide(ws: seq<Word>) {
    forall k :: 0 <= k < |ws| ==> forall b :: b in ws[k] ==> b < WORD_BITS
  }

  lemma {:induction false} BitsIn(ws: seq<Word>, i: nat)
    requires Wide(ws)
    ensures i in BitsOf(ws) <==> i / WORD_BITS < |ws| && i % WORD_BITS in ws[i / WORD_BITS]
  {
    if ws != [] {
      var k := |ws| - 1;
      BitsIn(ws[..k], i);
      if i / WORD_BITS == k && i % WORD_BITS in ws[k] {
        assert i == i % WORD_BITS + k * WORD_BITS;
      }
      assert forall b :: b in ws[k] ==> (b + k * WORD_BITS) / WORD_BITS == k;
    }
  }

  lemma {:induction false} BitsUpdate(ws: seq<Word>, k: nat, w: Word)
    requires k < |ws| && Wide(ws) && forall b :: b in w ==> b < WORD_BITS
    ensures forall i: nat :: i in BitsOf(ws[k := w]) <==>
      (if i / WORD_BITS == k then i % WORD_BITS in w else i in BitsOf(ws))
  {
    forall i: nat ensures i in BitsOf(ws[k := w]) <==>
      (if i / WORD_BITS == k then i % WORD_BITS in w else i in BitsOf(ws))
    {
      BitsIn(ws, i);
      BitsIn(ws[k := w], i);
    }
  }

  // Setting and clearing one bit.
  lemma {:induction false} BitsPut(ws: seq<Word>, idx: nat)
    requires idx / WORD_BITS < |ws| && Wide(ws)
    ensures
      var k, b := idx / WORD_BITS, idx % WORD_BITS;
      && (idx in BitsOf(ws) <==> b in ws[k])
      && BitsOf(ws[k := ws[k] + {b}]) == BitsOf(ws) + {idx}
      && BitsOf(ws[k := ws[k] - {b}]) == BitsOf(ws) - {idx}
  {
    var k, b := idx / WORD_BITS, idx % WORD_BITS;
    forall i: nat ensures i in BitsOf(ws) <==> i / WORD_BITS < |ws| && i % WORD_BITS in ws[i / WORD_BITS] { BitsIn(ws, i); }
    BitsUpdate(ws, k, ws[k] + {b});
    BitsUpdate(ws, k, ws[k] - {b});
  }

  lemma {:induction false} BitsNone(ws: seq<Word>)
    requires forall k :: 0 <= k < |ws| ==> ws[k] == {}
    ensures BitsOf(ws) == {}
  {
    forall i: nat ensures i !in BitsOf(ws) { BitsIn(ws, i); }
  }

  class Bitmap {
    const maxBits: nat
    const words: array<Word>
    var numSet: nat

    function NumLongs(): nat {
      (maxBits + WORD_BITS - 1) / WORD_BITS
    }

    ghost function Bits(): set<nat>
      reads words
    {
      BitsOf(words[..])
    }

    ghost predicate Valid()
      reads this, words
    {
      && words.Length == NumLongs()
      && Wide(words[..]) && Within(Bits(), maxBits)
      && numSet == |Bits()|
    }

    constructor (maxBits: nat)
      ensures Valid() && this.maxBits == maxBits && Bits() == {} && fresh(words)
    {
      this.maxBits := maxBits;
      this.words := new Word[(maxBits + WORD_BITS - 1) / WORD_BITS](_ => {});
      this.numSet := 0;
      new;
      BitsNone(words[..]);
    }

    method PutWord(off: nat, w: Word)
      requires off < words.Length
      modifies words
      ensures words[..] == old(words[..])[off := w]
    {
      words[off] := w;
    }

    method Set(idx: nat)
      requires Valid() && idx < maxBits
      modifies this`numSet, words
      ensures Valid() && Bits() == old(Bits()) + {idx}
    {
      var off, inside := idx / WORD_BITS, idx % WORD_BITS;
      ghost var ws := words[..];
      BitsPut(ws, idx);
      if inside !in words[off] {
        numSet := numSet + 1;
        PutWord(off, words[off] + {inside});
      }
    }

    method Reset(idx: nat)
      requires Valid() && idx < maxBits
      modifies this`numSet, words
      ensures Valid() && Bits() == old(Bits()) - {idx}
    {
      var off, inside := idx / WORD_BITS, idx % WORD_BITS;
      ghost var ws := words[..];
      BitsPut(ws, idx);
      if inside in words[off] {
        numSet := numSet - 1;
        PutWord(off, words[off] - {inside});
      }
    }

    method Get(idx: nat) returns (b: bool)
      requires Valid() && idx < maxBits
      ensures b <==> idx in Bits()
    {
      BitsIn(words[..], idx);
      b := idx % WORD_BITS in words[idx / WORD_BITS];
    }

    method Clear()
      requires Valid()
      modifies this`numSet, words
      ensures Valid() && Bits() == {}
    {
      var k := 0;
      while k < words.Length
        invariant k <= words.Length
        invariant forall j :: 0 <= j < k ==> words[j] == {}
      {
        words[k] := {};
        k := k + 1;
      }
      BitsNone(words[..]);
      numSet := 0;
    }

    // The vertices of one word, in ascending order.
    static method WordBits(w: Word, idx: nat) returns (v: seq<nat>)
      ensures Ascending(v)
      ensures forall x :: x in v <==> x / WORD_BITS == idx && x % WORD_BITS in w
    {
      v := [];
      for i := 0 to WORD_BITS
        invariant Ascending(v)
        invariant forall x :: x in v <==> x / WORD_BITS == idx && x % WORD_BITS < i && x % WORD_BITS in w
      {
        if i in w {
          var id := i + idx * WORD_BITS;
          assert id / WORD_BITS == idx && id % WORD_BITS == i;
          AscendingAppend(v, [id], id);
          v := v + [id];
        }
      }
    }

    // Collects and clears the words from lo to hi, leaving the count of set bits alone.
    method TakeWords(lo: nat, hi: nat) returns (v: seq<nat>)
      requires hi <= words.Length
      modifies words
      ensures Ascending(v)
      ensures forall k :: 0 <= k < words.Length ==> words[k] == if lo <= k < hi then {} else old(words[k])
      ensures forall x :: x in v <==> lo <= x / WORD_BITS < hi && x % WORD_BITS in old(words[x / WORD_BITS])
    {
      ghost var ws := words[..];
      v := [];
      var i := lo;
      while i < hi
        invariant lo <= i && (i <= hi || i == lo)
        invariant forall k :: 0 <= k < |ws| ==> words[k] == if lo <= k < i then {} else ws[k]
        invariant Ascending(v)
        invariant forall x :: x in v <==> lo <= x / WORD_BITS < i && x / WORD_BITS < |ws| && x % WORD_BITS in ws[x / WORD_BITS]
      {
        if words[i] != {} {
          var more := WordBits(words[i], i);
          words[i] := {};
          AscendingAppend(v, more, i * WORD_BITS);
          v := v + more;
        }
        i := i + 1;
      }
    }

    // Collects and clears the bits of the words from beginIdx to endIdx.
    method GetResetSetBits(beginIdx: nat, endIdx: nat) returns (v: seq<nat>)
      requires Valid() && beginIdx % WORD_BITS == 0 && beginIdx <= endIdx
      requires endIdx % WORD_BITS == 0 || endIdx == maxBits
      modifies this`numSet, words
      ensures Valid() && Ascending(v)
      ensures forall x :: x in v <==> x in old(Bits()) && beginIdx <= x < endIdx
      ensures Bits() == old(Bits()) - Elements(v)
      ensures forall k :: 0 <= k < words.Length ==>
        words[k] == if beginIdx <= WORD_BITS * k < endIdx then {} else old(words[k])
    {
      ghost var ws := words[..];
      var lo := beginIdx / WORD_BITS;
      var longEnd := LongEnd(maxBits, endIdx);
      v := TakeWords(lo, longEnd);
      Taken(ws, words[..], lo, longEnd, v);
      TakenRange(ws, maxBits, beginIdx, endIdx, v);
      TakenCount(BitsOf(ws), v);
      numSet := numSet - |v|;
    }
  }

  lemma {:induction false} TakenRange(ws: seq<Word>, maxBits: nat, beginIdx: nat, endIdx: nat, v: seq<nat>)
    requires Wide(ws) && |ws| == (maxBits + WORD_BITS - 1) / WORD_BITS && Within(BitsOf(ws), maxBits)
    requires beginIdx % WORD_BITS == 0 && (endIdx % WORD_BITS == 0 || endIdx == maxBits)
    requires forall x :: x in v <==>
      beginIdx / WORD_BITS <= x / WORD_BITS < LongEnd(maxBits, endIdx) && x % WORD_BITS in ws[x / WORD_BITS]
    ensures forall x :: x in v <==> x in BitsOf(ws) && beginIdx <= x < endIdx
    ensures forall k :: 0 <= k < |ws| ==>
      (beginIdx / WORD_BITS <= k < LongEnd(maxBits, endIdx) <==> beginIdx <= WORD_BITS * k < endIdx)
  {
    forall k | 0 <= k < |ws|
      ensures beginIdx / WORD_BITS <= k < LongEnd(maxBits, endIdx) <==> beginIdx <= WORD_BITS * k < endIdx
    {
      LongRange(maxBits, beginIdx, endIdx, WORD_BITS * k);
    }
    forall x: nat ensures x in v <==> x in BitsOf(ws) && beginIdx <= x < endIdx {
      BitsIn(ws, x);
      if x in BitsOf(ws) { LongRange(maxBits, beginIdx, endIdx, x); }
    }
  }

  // The last word to visit (excluded) for an end position.
  function LongEnd(maxBits: nat, endIdx: nat): (r: nat)
    ensures r <= (maxBits + WORD_BITS - 1) / WORD_BITS
  {
    var end := if endIdx == maxBits then (endIdx + WORD_BITS - 1) / WORD_BITS * WORD_BITS else endIdx;
    Min(end / WORD_BITS, (maxBits + WORD_BITS - 1) / WORD_BITS)
  }

  lemma {:induction false} LongRange(maxBits: nat, beginIdx: nat, endIdx: nat, x: nat)
    requires beginIdx % WORD_BITS == 0 && (endIdx % WORD_BITS == 0 || endIdx == maxBits) && x < maxBits
    ensures beginIdx / WORD_BITS <= x / WORD_BITS < LongEnd(maxBits, endIdx) <==> beginIdx <= x < endIdx
  {
  }

  lemma {:induction false} TakenCount(bits: set<nat>, v: seq<nat>)
    requires Ascending(v) && forall x :: x in v ==> x in bits
    ensures |v| <= |bits| && |bits - Elements(v)| == |bits| - |v|
  {
    DistinctCount(v);
    assert Elements(v) <= bits;
    assert bits == (bits - Elements(v)) + Elements(v);
  }

  lemma {:induction false} AscendingAppend(v: seq<nat>, more: seq<nat>, bound: nat)
    requires Ascending(v) && Ascending(more)
    requires forall x :: x in v ==> x < bound
    requires forall x :: x in more ==> x >= bound
    ensures Ascending(v + more)
  {
    forall i, j | 0 <= i < j < |v + more| ensures (v + more)[i] < (v + more)[j] {
      assert i < |v| ==> v[i] in v;
      assert j >= |v| ==> more[j - |v|] in more;
    }
  }

  // What is left after the words from lo to hi have been cleared.
  lemma {:induction false} Taken(ws: seq<Word>, ws': seq<Word>, lo: nat, hi: nat, v: seq<nat>)
    requires |ws'| == |ws| && Wide(ws)
    requires forall k :: 0 <= k < |ws| ==> ws'[k] == if lo <= k < hi then {} else ws[k]
    requires forall x :: x in v <==> lo <= x / WORD_BITS < hi && x / WORD_BITS < |ws| && x % WORD_BITS in ws[x / WORD_BITS]
    ensures BitsOf(ws') == BitsOf(ws) - Elements(v) && Wide(ws')
  {
    forall x: nat ensures x in BitsOf(ws') <==> x in BitsOf(ws) && x !in v {
      BitsIn(ws, x);
      BitsIn(ws', x);
    }
  }

  /** A pointer that walks over 0..size from either end; a value, copied on assignment. */
  datatype ScanPointer = ScanPointer(size: nat, idx: nat, forward: bool) {

    predicate Valid() {
      idx <= size
    }

    static function Start(size: nat, forward: bool): (p: ScanPointer)
      ensures p.Valid() && p.Low() == 0 && p.High() == size
    {
      ScanPointer(size, if forward then 0 else size, forward)
    }

    // What is still to be scanned lies between Low and High.
    function Low(): nat {
      if forward then idx else 0
    }

    function High(): nat {
      if forward then size else idx
    }

    function Remaining(): (r: nat)
      requires Valid()
      ensures r == High() - Low()
    {
      if forward then size - idx else idx
    }

    function Move(dist: nat): (p: ScanPointer)
      requires Valid()
      ensures p.Valid() && p.size == size && p.forward == forward
      ensures p.Remaining() == if dist <= Remaining() then Remaining() - dist else 0
      ensures Low() <= p.Low() <= p.High() <= High()
    {
      if forward then this.(idx := if idx + dist <= size then idx + dist else size)
      else if idx >= dist then this.(idx := idx - dist)
      else this.(idx := 0)
    }
  }

  function Min(a: nat, b: nat): nat {
    if a < b then a else b
  }

  function Max(a: nat, b: nat): nat {
    if a < b then b else a
  }

  // A move splits what was to be scanned into the part passed over and the part still to come.
  lemma {:induction false} MoveSplits(p: ScanPointer, dist: nat, k: nat)
    requires p.Valid()
    ensures
      var q := p.Move(dist);
      var lo, hi := Min(p.idx, q.idx), Max(p.idx, q.idx);
      && p.Low() <= lo <= hi <= p.High() && hi - lo == Min(dist, p.Remaining())
      && (p.Low() <= k < p.High() <==> (lo <= k < hi) || (q.Low() <= k < q.High()))
      && !(lo <= k < hi && q.Low() <= k < q.High())
  {
  }
}
