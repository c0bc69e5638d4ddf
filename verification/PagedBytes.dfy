/**
 Byte arrays that lie in pages of 4096 bytes: reading through the pages equals reading
 the flat bytes, for copies of any span, any nesting of sub-arrays, and iteration.
 */
module PagedBytes {
  import Striping

  type Byte = bv8

  datatype ByteArray =
    | Whole(pages: seq<seq<Byte>>, first: nat, size: nat)   // starting at `first` in the first page
    | Sub(orig: ByteArray, off: nat)                         // sub_page_byte_array

  function GetSize(a: ByteArray): int {
    match a
    case Whole(_, _, size) => size
    case Sub(orig, off) => GetSize(orig) - off
  }

  function OffsetInFirstPage(a: ByteArray): nat {
    match a
    case Whole(_, first, _) => first
    case Sub(orig, off) => (off + OffsetInFirstPage(orig)) % 4096
  }

  predicate ValidArray(a: ByteArray) {
    match a
    case Whole(pages, first, size) =>
      first < 4096 && first + size <= |pages| * 4096 && forall i :: 0 <= i < |pages| ==> |pages[i]| == 4096
    case Sub(orig, off) => ValidArray(orig) && off <= GetSize(orig)
  }

  // How many pages can be asked for.
  function NumPages(a: ByteArray): int {
    match a
    case Whole(pages, _, _) => |pages|
    case Sub(orig, off) => NumPages(orig) - (off + OffsetInFirstPage(orig)) / 4096
  }

  function GetPage(a: ByteArray, idx: nat): seq<Byte>
    requires idx < NumPages(a)
  {
    match a
    case Whole(pages, _, _) => pages[idx]
    case Sub(orig, off) => GetPage(orig, (off + OffsetInFirstPage(orig)) / 4096 + idx)
  }

  // The i-th byte of the flat array.
  function ByteAt(a: ByteArray, i: nat): Byte
    requires ValidArray(a) && i < GetSize(a)
    decreases a
  {
    match a
    case Whole(pages, first, _) => pages[(first + i) / 4096][(first + i) % 4096]
    case Sub(orig, off) => ByteAt(orig, off + i)
  }

  function Slice(a: ByteArray, lo: nat, n: nat): (r: seq<Byte>)
    requires ValidArray(a) && lo + n <= GetSize(a)
    ensures |r| == n && forall i :: 0 <= i < n ==> r[i] == ByteAt(a, lo + i)
  {
    seq(n, i requires 0 <= i < n => ByteAt(a, lo + i))
  }

  lemma {:induction false} Extent(a: ByteArray)
    requires ValidArray(a)
    ensures 0 <= GetSize(a) && OffsetInFirstPage(a) < 4096 && OffsetInFirstPage(a) + GetSize(a) <= NumPages(a) * 4096
  {
    if a.Sub? { Extent(a.orig); }
  }

  // Every byte is in the page, and at the place in the page, that its offset says.
  lemma {:induction false} PageByte(a: ByteArray, i: nat)
    requires ValidArray(a) && i < GetSize(a)
    ensures
      var at := OffsetInFirstPage(a) + i;
      at / 4096 < NumPages(a) && |GetPage(a, at / 4096)| == 4096 && GetPage(a, at / 4096)[at % 4096] == ByteAt(a, i)
  {
    Extent(a);
    if a.Sub? { PageByte(a.orig, a.off + i); }
  }

  lemma {:induction false} FullPage(a: ByteArray, idx: nat)
    requires ValidArray(a) && idx < NumPages(a)
    ensures |GetPage(a, idx)| == 4096
  {
    if a.Sub? { FullPage(a.orig, (a.off + OffsetInFirstPage(a.orig)) / 4096 + idx); }
  }

  // Part of one page is part of the flat bytes.
  lemma {:induction false} PagePart(a: ByteArray, at: nat, n: nat)
    requires ValidArray(a) && OffsetInFirstPage(a) <= at && at + n <= OffsetInFirstPage(a) + GetSize(a) && 0 < n
    requires at % 4096 + n <= 4096
    ensures at / 4096 < NumPages(a) && |GetPage(a, at / 4096)| == 4096
    ensures GetPage(a, at / 4096)[at % 4096..at % 4096 + n] == Slice(a, at - OffsetInFirstPage(a), n)
  {
    var lo := at - OffsetInFirstPage(a);
    PageByte(a, lo);
    var part, flat := GetPage(a, at / 4096)[at % 4096..at % 4096 + n], Slice(a, lo, n);
    forall i: nat | i < n ensures part[i] == flat[i] { PagePlace(a, at, n, i); }
    Equal(part, flat);
  }

  lemma {:induction false} Equal(s: seq<Byte>, t: seq<Byte>)
    requires |s| == |t| && forall i :: 0 <= i < |s| ==> s[i] == t[i]
    ensures s == t
  {
  }

  // One byte of it.
  lemma {:induction false} PagePlace(a: ByteArray, at: nat, n: nat, i: nat)
    requires ValidArray(a) && OffsetInFirstPage(a) <= at && at + n <= OffsetInFirstPage(a) + GetSize(a) && i < n
    requires at % 4096 + n <= 4096
    ensures at / 4096 < NumPages(a) && |GetPage(a, at / 4096)| == 4096
    ensures GetPage(a, at / 4096)[at % 4096 + i] == ByteAt(a, at - OffsetInFirstPage(a) + i)
  {
    SamePage(at, i);
    PageByte(a, at - OffsetInFirstPage(a) + i);
  }

  lemma {:induction false} SamePage(at: nat, i: nat)
    requires at % 4096 + i < 4096
    ensures (at + i) / 4096 == at / 4096 && (at + i) % 4096 == at % 4096 + i
  {
  }

  lemma {:induction false} SliceMore(a: ByteArray, lo: nat, n: nat, m: nat)
    requires ValidArray(a) && lo + n + m <= GetSize(a)
    ensures Slice(a, lo, n) + Slice(a, lo + n, m) == Slice(a, lo, n + m)
  {
  }

  // page_byte_array::memcpy.
  method Memcpy(a: ByteArray, relOff: nat, size: nat) returns (buf: seq<Byte>)
    requires ValidArray(a) && relOff + size <= GetSize(a)
    ensures buf == Slice(a, relOff, size)
  {
    if size == 0 {
      return [];
    }
    var off := OffsetInFirstPage(a) + relOff;
    var end := off + size;
    var pageBegin := off / 4096 * 4096;
    if end - pageBegin > 4096 {
      buf := CopyAcross(a, relOff, size, off);
    } else {
      PagePart(a, off, size);
      buf := GetPage(a, off / 4096)[off % 4096..off % 4096 + size];
    }
  }

  // The copy that crosses page boundaries: the rest of a page, whole pages, the beginning
  // of the last one.
  method CopyAcross(a: ByteArray, relOff: nat, size: nat, off: nat) returns (buf: seq<Byte>)
    requires ValidArray(a) && relOff + size <= GetSize(a) && off == OffsetInFirstPage(a) + relOff
    requires off % 4096 + size > 4096
    ensures buf == Slice(a, relOff, size)
  {
    buf := CopyRest(a, relOff, size, off);
    var pgIdx;
    buf, pgIdx := CopyPages(a, relOff, size, off, buf);
    buf := CopyLast(a, relOff, size, off, pgIdx, buf);
  }

  method CopyRest(a: ByteArray, relOff: nat, size: nat, off: nat) returns (buf: seq<Byte>)
    requires ValidArray(a) && relOff + size <= GetSize(a) && off == OffsetInFirstPage(a) + relOff
    requires off % 4096 + size > 4096
    ensures |buf| == 4096 - off % 4096 < size && buf == Slice(a, relOff, |buf|)
  {
    var part1 := 4096 - off % 4096;
    PagePart(a, off, part1);
    buf := GetPage(a, off / 4096)[off % 4096..off % 4096 + part1];
  }

  method CopyLast(a: ByteArray, relOff: nat, size: nat, off: nat, pgIdx: nat, before: seq<Byte>) returns (buf: seq<Byte>)
    requires ValidArray(a) && relOff + size <= GetSize(a) && off == OffsetInFirstPage(a) + relOff
    requires |before| <= size && off + |before| == pgIdx * 4096 && size - |before| < 4096 && before == Slice(a, relOff, |before|)
    ensures buf == Slice(a, relOff, size)
  {
    buf := before;
    var part2 := size - |buf|;
    if part2 > 0 {
      PageAt(pgIdx);
      PagePart(a, pgIdx * 4096, part2);
      SliceMore(a, relOff, |buf|, part2);
      buf := buf + GetPage(a, pgIdx)[0..part2];
    }
  }

  lemma {:induction false} PageAt(idx: nat)
    ensures idx * 4096 / 4096 == idx && idx * 4096 % 4096 == 0
  {
  }

  method CopyPages(a: ByteArray, relOff: nat, size: nat, off: nat, part1: seq<Byte>) returns (buf: seq<Byte>, pgIdx: nat)
    requires ValidArray(a) && relOff + size <= GetSize(a) && off == OffsetInFirstPage(a) + relOff
    requires |part1| == 4096 - off % 4096 < size && part1 == Slice(a, relOff, |part1|)
    ensures |buf| <= size && off + |buf| == pgIdx * 4096 && size - |buf| < 4096 && buf == Slice(a, relOff, |buf|)
  {
    var lastPgIdx := (off + size) / 4096;
    buf, pgIdx := part1, off / 4096 + 1;
    while pgIdx < lastPgIdx
      invariant pgIdx <= lastPgIdx
      invariant |buf| <= size && off + |buf| == pgIdx * 4096 && buf == Slice(a, relOff, |buf|)
    {
      buf := AppendPage(a, relOff, size, off, pgIdx, buf);
      pgIdx := pgIdx + 1;
    }
  }

  method AppendPage(a: ByteArray, relOff: nat, size: nat, off: nat, pgIdx: nat, before: seq<Byte>) returns (buf: seq<Byte>)
    requires ValidArray(a) && relOff + size <= GetSize(a) && off == OffsetInFirstPage(a) + relOff
    requires |before| + 4096 <= size && off + |before| == pgIdx * 4096 && before == Slice(a, relOff, |before|)
    ensures |buf| == |before| + 4096 && buf == Slice(a, relOff, |buf|)
  {
    PageAt(pgIdx);
    PagePart(a, pgIdx * 4096, 4096);
    SliceMore(a, relOff, |before|, 4096);
    var page := GetPage(a, pgIdx);
    assert page[0..4096] == page;
    buf := before + page;
  }

  // ----- the sequential iterator over elements of w bytes

  // No element of the range from off to end crosses a page boundary.
  ghost predicate Fits(off: nat, end: nat, w: nat) {
    && w > 0 && off <= end && (end - off) % w == 0
    && forall k: nat :: off < k * 4096 < end ==> (k * 4096 - off) % w == 0
  }

  // What the source asserts.
  predicate Asserted(off: nat, end: nat, w: nat)
    requires w > 0
  {
    off <= end && (end - off) % w == 0 && ((4096 - off % 4096) % w == 0 || end < 4096)
  }

  lemma {:induction false} Multiples(a: nat, b: nat, w: nat)
    requires w > 0 && a % w == 0 && b % w == 0
    ensures (a + b) % w == 0
  {
    var p, q := a / w, b / w;
    Striping.DivMod(a, w);
    Striping.DivMod(b, w);
    assert (p + q) * w == p * w + q * w;
    Striping.DivUnique(a + b, p + q, 0, w);
  }

  lemma {:induction false} ManyMultiples(k: nat, b: nat, w: nat)
    requires w > 0 && b % w == 0
    ensures (k * b) % w == 0
  {
    if k > 0 {
      ManyMultiples(k - 1, b, w);
      assert k * b == (k - 1) * b + b;
      Multiples((k - 1) * b, b, w);
    } else {
      assert k * b == 0;
    }
  }

  lemma {:induction false} Difference(a: nat, b: nat, w: nat)
    requires w > 0 && a % w == 0 && (a + b) % w == 0
    ensures b % w == 0
  {
    var p, q := a / w, (a + b) / w;
    Striping.DivMod(a, w);
    Striping.DivMod(a + b, w);
    if q < p { Striping.MulLess(q, p, w); }
    Products(q, p, w);
    Striping.DivUnique(b, q - p, 0, w);
  }

  lemma {:induction false} Products(q: nat, p: nat, w: nat)
    requires p <= q
    ensures (q - p) * w == q * w - p * w
  {
  }

  // What a caller can see to, besides the assertion: the element size divides the page
  // size, or the range ends in the first page, or it crosses at most one page boundary.
  predicate Unbroken(off: nat, end: nat, w: nat)
    requires w > 0
  {
    4096 % w == 0 || end < 4096 || end <= (off / 4096 + 2) * 4096
  }

  // How far the k-th page boundary is, counted in pages from the first one behind off.
  lemma {:induction false} Boundary(off: nat, k: nat)
    requires off < k * 4096
    ensures k > off / 4096 && k * 4096 - off == (k - off / 4096 - 1) * 4096 + (4096 - off % 4096)
  {
  }

  lemma {:induction false} UnbrokenFits(off: nat, end: nat, w: nat)
    requires w > 0 && Asserted(off, end, w) && Unbroken(off, end, w)
    ensures Fits(off, end, w)
  {
    forall k: nat | off < k * 4096 < end ensures (k * 4096 - off) % w == 0 {
      Boundary(off, k);
      var j := k - off / 4096 - 1;
      if j > 0 {
        assert k >= off / 4096 + 2;
        ManyMultiples(j, 4096, w);
      }
      Multiples(j * 4096, 4096 - off % 4096, w);
    }
  }

  lemma {:induction false} FitsUnbroken(off: nat, end: nat, w: nat)
    requires w > 0 && Asserted(off, end, w) && Fits(off, end, w)
    ensures Unbroken(off, end, w)
  {
    if end >= 4096 && end > (off / 4096 + 2) * 4096 {
      var k := off / 4096 + 2;
      Boundary(off, k);
      assert (k * 4096 - off) % w == 0;
      Difference(4096 - off % 4096, 4096, w);
    }
  }

  // Exactly when the asserted alignment keeps elements within pages.
  lemma {:induction false} AssertedFitsIff(off: nat, end: nat, w: nat)
    requires w > 0 && Asserted(off, end, w)
    ensures Fits(off, end, w) <==> Unbroken(off, end, w)
  {
    if Unbroken(off, end, w) { UnbrokenFits(off, end, w); }
    if Fits(off, end, w) { FitsUnbroken(off, end, w); }
  }

  // It is not enough in general: elements of three bytes from offset 1, over three pages.
  lemma {:induction false} AssertedDoesNotFit()
    ensures Asserted(1, 8194, 3) && !Fits(1, 8194, 3)
  {
    assert 1 < 2 * 4096 < 8194 && (2 * 4096 - 1) % 3 != 0;
  }

  class SeqIterator {
    const a: ByteArray
    const w: nat
    const start: nat
    const end: nat
    var off: nat
    // The current page, and the bytes of it still to be read.
    var page: nat
    var data: nat
    var dataEnd: nat
    ghost var pos: nat       // where the next element starts

    ghost predicate Shape() {
      && ValidArray(a) && Fits(start, end, w)
      && OffsetInFirstPage(a) <= start && end <= OffsetInFirstPage(a) + GetSize(a)
    }

    ghost predicate Valid()
      reads this
    {
      && Shape() && start <= pos <= end && (pos - start) % w == 0
      && (data < dataEnd ==> page * 4096 + data == pos && dataEnd == MinInt(4096, end - page * 4096) && off / 4096 == page)
      && (data >= dataEnd && pos < end ==> pos == off / 4096 * 4096 + 4096)
      && (data >= dataEnd && pos >= end ==> off / 4096 * 4096 + 4096 >= end)
      && data <= dataEnd
    }

    constructor (a: ByteArray, w: nat, byteOff: nat, byteEnd: nat)
      requires ValidArray(a) && byteOff <= byteEnd <= GetSize(a)
      requires w > 0 && Asserted(OffsetInFirstPage(a) + byteOff, OffsetInFirstPage(a) + byteEnd, w)
      requires Unbroken(OffsetInFirstPage(a) + byteOff, OffsetInFirstPage(a) + byteEnd, w)
      ensures Valid() && pos == start == OffsetInFirstPage(a) + byteOff && end == OffsetInFirstPage(a) + byteEnd
      ensures this.a == a && this.w == w
    {
      UnbrokenFits(OffsetInFirstPage(a) + byteOff, OffsetInFirstPage(a) + byteEnd, w);
      this.a, this.w := a, w;
      start, end := OffsetInFirstPage(a) + byteOff, OffsetInFirstPage(a) + byteEnd;
      off, pos := OffsetInFirstPage(a) + byteOff, OffsetInFirstPage(a) + byteOff;
      if byteOff == byteEnd {
        page, data, dataEnd := 0, 0, 0;
      } else {
        var o, e := OffsetInFirstPage(a) + byteOff, OffsetInFirstPage(a) + byteEnd;
        page, data := o / 4096, o % 4096;
        dataEnd := if e - o / 4096 * 4096 >= 4096 then 4096 else e - o / 4096 * 4096;
      }
    }

    // Moves on to the next page when the current one is used up.
    method HasNext() returns (more: bool)
      requires Valid()
      modifies this`off, this`page, this`data, this`dataEnd
      ensures Valid() && more == (pos < end) && (more ==> data < dataEnd)
      ensures more ==> old(data < dataEnd) ==> dataEnd - data == old(dataEnd - data)
    {
      if data < dataEnd {
        return true;
      }
      off := (off + 1 + 4095) / 4096 * 4096;
      if off < end {
        page, data, dataEnd := off / 4096, 0, if 4096 < end - off then 4096 else end - off;
        more := true;
      } else {
        more := false;
      }
    }

    function NumEntriesInPage(): int
      requires w > 0
      reads this
    {
      (dataEnd - data) / w
    }

    method Next() returns (x: seq<Byte>)
      requires Valid() && data < dataEnd
      modifies this`data, this`pos
      ensures Valid() && pos == old(pos) + w && old(pos) + w <= end
      ensures x == Slice(a, old(pos) - OffsetInFirstPage(a), w)
      ensures NumEntriesInPage() == old(NumEntriesInPage()) - 1
    {
      InPage();
      PagePart(a, pos, w);
      x := GetPage(a, page)[data..data + w];
      data, pos := data + w, pos + w;
    }

    // The element at hand ends in the current page, and so does the last one of the page.
    lemma {:induction false} InPage()
      requires Valid() && data < dataEnd
      ensures data + w <= dataEnd && (dataEnd - data) % w == 0 && pos + w <= end
      ensures pos / 4096 == page && pos % 4096 == data
      ensures (pos + w - start) % w == 0
      ensures (dataEnd - (data + w)) / w == (dataEnd - data) / w - 1
    {
      var last := page * 4096 + dataEnd;
      assert (last - start) % w == 0 by {
        if last < end { assert last == (page + 1) * 4096; }
      }
      Distance(start, pos, last, w);
      Multiples(pos - start, w, w);
    }
  }

  function MinInt(x: int, y: int): int {
    if x < y then x else y
  }

  // Between two element boundaries lies a whole number of elements.
  lemma {:induction false} Distance(start: nat, pos: nat, last: nat, w: nat)
    requires w > 0 && start <= pos < last && (pos - start) % w == 0 && (last - start) % w == 0
    ensures (last - pos) % w == 0 && pos + w <= last && w % w == 0
    ensures (last - (pos + w)) / w == (last - pos) / w - 1
  {
    var p, q := (pos - start) / w, (last - start) / w;
    Striping.DivMod(pos - start, w);
    Striping.DivMod(last - start, w);
    if q <= p { if q < p { Striping.MulLess(q, p, w); } }
    assert (q - p) * w == q * w - p * w;
    Striping.DivUnique(last - pos, q - p, 0, w);
    Striping.MulLess(p, q, w);
    assert (q - p - 1) * w == (q - p) * w - w;
    Striping.DivUnique(last - (pos + w), q - p - 1, 0, w);
    Striping.DivUnique(w, 1, 0, w);
  }

  // PAGE_FOREACH: although the inner bound shrinks while the index grows, every element is
  // visited once, in order, and the loops end.
  method ForEach(it: SeqIterator) returns (out: seq<seq<Byte>>)
    requires it.Valid() && it.pos == it.start
    modifies it
    ensures |out| * it.w == it.end - it.start
    ensures forall k :: 0 <= k < |out| ==>
      it.start + k * it.w + it.w <= it.end && out[k] == Slice(it.a, it.start + k * it.w - OffsetInFirstPage(it.a), it.w)
  {
    out := [];
    var more := it.HasNext();
    while more
      invariant it.Valid() && more == (it.pos < it.end) && (more ==> it.data < it.dataEnd)
      invariant Visited(it.a, it.w, it.start, it.end, it.pos, out)
      decreases it.end - it.pos
    {
      out := InnerLoop(it, out);
      more := it.HasNext();
    }
  }

  // Visits at least one element of the current page, and about half of them.
  method InnerLoop(it: SeqIterator, before: seq<seq<Byte>>) returns (out: seq<seq<Byte>>)
    requires it.Valid() && it.data < it.dataEnd && Visited(it.a, it.w, it.start, it.end, it.pos, before)
    modifies it`data, it`pos
    ensures it.Valid() && it.pos > old(it.pos) && Visited(it.a, it.w, it.start, it.end, it.pos, out)
  {
    out := before;
    var i := 0;
    it.InPage();
    SomeLeft(it.dataEnd - it.data, it.w);
    while i < it.NumEntriesInPage()
      invariant it.Valid() && 0 <= i && it.pos >= old(it.pos)
      invariant i == 0 ==> it.NumEntriesInPage() > 0
      invariant i > 0 ==> it.pos > old(it.pos)
      invariant Visited(it.a, it.w, it.start, it.end, it.pos, out)
      decreases it.end - it.pos
    {
      SomeLeft(it.dataEnd - it.data, it.w);
      var x := ReadOne(it, out);
      out := out + [x];
      i := i + 1;
    }
  }

  lemma {:induction false} SomeLeft(left: nat, w: nat)
    requires w > 0
    ensures left / w > 0 <==> left >= w
  {
    Striping.DivMod(left, w);
    if left / w > 0 { Striping.MulLess(0, left / w, w); }
  }

  method ReadOne(it: SeqIterator, ghost out: seq<seq<Byte>>) returns (x: seq<Byte>)
    requires it.Valid() && it.data < it.dataEnd && Visited(it.a, it.w, it.start, it.end, it.pos, out)
    modifies it`data, it`pos
    ensures it.Valid() && it.pos == old(it.pos) + it.w && Visited(it.a, it.w, it.start, it.end, it.pos, out + [x])
  {
    it.InPage();
    VisitedMore(it.a, it.w, it.start, it.end, it.pos, out);
    x := it.Next();
  }

  ghost predicate Visited(a: ByteArray, w: nat, start: nat, end: nat, pos: nat, out: seq<seq<Byte>>) {
    && ValidArray(a) && OffsetInFirstPage(a) <= start && end <= OffsetInFirstPage(a) + GetSize(a)
    && pos == start + |out| * w <= end
    && forall k :: 0 <= k < |out| ==>
         start + k * w + w <= end && out[k] == Slice(a, start + k * w - OffsetInFirstPage(a), w)
  }

  lemma {:induction false} VisitedMore(a: ByteArray, w: nat, start: nat, end: nat, pos: nat, out: seq<seq<Byte>>)
    requires Visited(a, w, start, end, pos, out) && pos + w <= end
    ensures Visited(a, w, start, end, pos + w, out + [Slice(a, pos - OffsetInFirstPage(a), w)])
  {
    assert (|out| + 1) * w == |out| * w + w;
  }
}
