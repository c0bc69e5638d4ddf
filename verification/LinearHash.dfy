/**
 Growing the cache by linear hashing: cell after cell is split in two, each page moving to
 the new cell if the hash function of the next level says so.
 */
module LinearHash {
  import opened CachePage
  import Striping

  const CONST_A: int := 27644437
  const CONST_P: int := 68718952447

  // The remainder of the source's language, which takes the sign of the dividend.
  function Rem(a: int, b: int): int
    requires b > 0
  {
    if a >= 0 then a % b else -((-a) % b)
  }

  function UniversalHash(v: int, modulo: int): int
    requires modulo > 0
  {
    Rem(Rem(v * CONST_A, CONST_P), modulo)
  }

  // What is hashed; a page without an id has index -1 and file -1.
  function KeyOf(id: PageId, factor: nat): int
    requires factor > 0
  {
    match id
    case Nothing => (if factor == 1 then -1 else 0) - 1
    case Page(file, index) => index / factor + file
  }

  // The state of the table: cells at the current level, cells split, the offset factor.
  datatype Table = Table(cells: nat, split: nat, factor: nat) {

    predicate Valid() {
      cells > 0 && split <= cells && factor > 0
    }

    function Hash(id: PageId): int
      requires Valid()
    {
      UniversalHash(KeyOf(id, factor), cells)
    }

    function Hash1(id: PageId): int
      requires Valid()
    {
      UniversalHash(KeyOf(id, factor), cells + cells)
    }

    // get_cell_offset.
    function Route(id: PageId): int
      requires Valid()
    {
      if Hash(id) < split then Hash1(id) else Hash(id)
    }

    function NumCells(): nat {
      cells + split
    }

    // One cell split; when all are, the table goes up a level.
    function Next(): Table
      requires Valid() && split < cells
    {
      if split + 1 == cells then Table(cells + cells, 0, factor) else Table(cells, split + 1, factor)
    }
  }

  lemma {:induction false} PageHash(id: PageId, factor: nat, m: nat)
    requires id.Page? && factor > 0 && m > 0
    ensures
      var x := (KeyOf(id, factor) * CONST_A) % CONST_P;
      KeyOf(id, factor) >= 0 && x >= 0 && UniversalHash(KeyOf(id, factor), m) == x % m
  {
  }

  // Modulo twice the number, a remainder stays or moves up by the number.
  lemma {:induction false} HalfOrNot(x: nat, m: nat)
    requires m > 0
    ensures x % (m + m) == x % m || x % (m + m) == x % m + m
  {
    var q, r := x / (m + m), x % (m + m);
    Striping.DivMod(x, m + m);
    assert q * (m + m) == (q + q) * m;
    if r < m {
      Striping.DivUnique(x, q + q, r, m);
    } else {
      assert (q + q + 1) * m == (q + q) * m + m;
      Striping.DivUnique(x, q + q + 1, r - m, m);
    }
  }

  lemma {:induction false} Hashes(t: Table, id: PageId)
    requires t.Valid() && id.Page?
    ensures 0 <= t.Hash(id) < t.cells && (t.Hash1(id) == t.Hash(id) || t.Hash1(id) == t.Hash(id) + t.cells)
  {
    PageHash(id, t.factor, t.cells);
    PageHash(id, t.factor, t.cells + t.cells);
    HalfOrNot((KeyOf(id, t.factor) * CONST_A) % CONST_P, t.cells);
  }

  // Every route leads to a cell of the table.
  lemma {:induction false} RouteInTable(t: Table, id: PageId)
    requires t.Valid() && id.Page?
    ensures 0 <= t.Route(id) < t.NumCells()
  {
    Hashes(t, id);
  }

  // Splitting a cell changes the route of exactly the pages that move.
  lemma {:induction false} RouteAfterSplit(t: Table, id: PageId)
    requires t.Valid() && t.split < t.cells && id.Page?
    ensures t.Next().Valid()
    ensures t.Next().Route(id) ==
      if t.Route(id) == t.split && t.Hash1(id) == t.split + t.cells then t.split + t.cells else t.Route(id)
  {
    Hashes(t, id);
    Hashes(t.Next(), id);
  }

  // ----- cells

  // A page frame; frames without memory are holes of the array.
  datatype Slot = Hole | Frame(id: PageId, data: nat, refs: nat, hits: nat)

  type Key = (PageId, nat)

  function KeyAt(x: Slot): multiset<Key> {
    if x.Hole? then multiset{} else multiset{(x.id, x.data)}
  }

  // The pages in the first n slots.
  function Keys(s: seq<Slot>, n: nat): multiset<Key>
    requires n <= |s|
  {
    if n == 0 then multiset{} else Keys(s, n - 1) + KeyAt(s[n - 1])
  }

  function AllKeys(s: seq<Slot>): multiset<Key> {
    Keys(s, |s|)
  }

  lemma {:induction false} Regroup(a: multiset<Key>, b: multiset<Key>, c: multiset<Key>)
    ensures (a + b) + c == a + (b + c) && (a + b) + c == (a + c) + b
  {
  }

  lemma {:induction false} Commute(a: multiset<Key>, b: multiset<Key>)
    ensures a + b == b + a
  {
  }

  lemma {:induction false} KeysSame(s: seq<Slot>, s': seq<Slot>, n: nat)
    requires n <= |s| && n <= |s'| && forall i :: 0 <= i < n ==> s[i] == s'[i]
    ensures Keys(s, n) == Keys(s', n)
  {
    if n > 0 { KeysSame(s, s', n - 1); }
  }

  lemma {:induction false} KeysUpdate(s: seq<Slot>, i: nat, x: Slot, n: nat)
    requires i < n <= |s|
    ensures Keys(s[i := x], n) + KeyAt(s[i]) == Keys(s, n) + KeyAt(x)
  {
    if i < n - 1 {
      KeysUpdate(s, i, x, n - 1);
      Regroup(Keys(s[i := x], n - 1), KeyAt(s[n - 1]), KeyAt(s[i]));
      Regroup(Keys(s, n - 1), KeyAt(s[n - 1]), KeyAt(x));
    } else {
      KeysSame(s, s[i := x], n - 1);
      Regroup(Keys(s, n - 1), KeyAt(s[n - 1]), KeyAt(x));
    }
  }

  lemma {:induction false} KeysSnoc(s: seq<Slot>, x: Slot)
    ensures AllKeys(s + [x]) == AllKeys(s) + KeyAt(x)
  {
    KeysSame(s, s + [x], |s|);
  }

  // The occupied slots below n, in increasing order.
  function Occupied(s: seq<Slot>, n: nat): seq<nat>
    requires n <= |s|
  {
    if n == 0 then [] else Occupied(s, n - 1) + if s[n - 1].Hole? then [] else [n - 1]
  }

  lemma {:induction false} OccupiedIn(s: seq<Slot>, n: nat, i: nat)
    requires n <= |s|
    ensures i in Occupied(s, n) <==> i < n && s[i].Frame?
  {
    if n > 0 { OccupiedIn(s, n - 1, i); }
  }

  lemma {:induction false} OccupiedIncreasing(s: seq<Slot>, n: nat)
    requires n <= |s|
    ensures forall i, j :: 0 <= i < j < |Occupied(s, n)| ==> Occupied(s, n)[i] < Occupied(s, n)[j]
  {
    if n > 0 {
      OccupiedIncreasing(s, n - 1);
      var v := Occupied(s, n - 1);
      forall i | 0 <= i < |v| ensures v[i] < n - 1 {
        assert v[i] in v;
        OccupiedIn(s, n - 1, v[i]);
      }
    }
  }

  // As many slots as keys.
  lemma {:induction false} OccupiedCount(s: seq<Slot>, n: nat)
    requires n <= |s|
    ensures |Occupied(s, n)| == |Keys(s, n)|
  {
    if n > 0 { OccupiedCount(s, n - 1); }
  }

  class PageCell {
    const buf: array<Slot>
    var maps: seq<nat>
    var numPages: nat

    // The map lists the occupied slots in increasing order.
    ghost predicate Valid()
      reads this, buf
    {
      maps == Occupied(buf[..], buf.Length) && numPages == |maps|
    }

    constructor (size: nat)
      ensures Valid() && buf.Length == size && numPages == 0 && fresh(buf) && forall i :: 0 <= i < size ==> buf[i].Hole?
    {
      buf := new Slot[size](_ => Hole);
      maps, numPages := [], 0;
      new;
      NoneOccupied(buf[..], size);
    }

    method RebuildMap()
      requires numPages == |AllKeys(buf[..])|
      modifies this`maps
      ensures Valid()
    {
      maps := [];
      for i := 0 to buf.Length
        invariant maps == Occupied(buf[..], i)
      {
        if buf[i].Frame? {
          maps := maps + [i];
        }
      }
      OccupiedCount(buf[..], buf.Length);
    }

    method Fill(i: nat, x: Slot)
      requires i < buf.Length && buf[i].Hole?
      modifies buf
      ensures buf[..] == old(buf[..])[i := x] && AllKeys(buf[..]) == old(AllKeys(buf[..])) + KeyAt(x)
    {
      KeysUpdate(buf[..], i, x, buf.Length);
      ghost var was := buf[..];
      buf[i] := x;
      assert buf[..] == was[i := x];
    }

    method Empty(i: nat)
      requires i < buf.Length
      modifies buf
      ensures buf[..] == old(buf[..])[i := Hole] && AllKeys(buf[..]) + KeyAt(old(buf[i])) == old(AllKeys(buf[..]))
    {
      KeysUpdate(buf[..], i, Hole, buf.Length);
      ghost var was := buf[..];
      buf[i] := Hole;
      assert buf[..] == was[i := Hole];
    }

    method FillNext(i: nat, pages: seq<Slot>, copied: nat, ghost start: multiset<Key>)
      requires i < buf.Length && buf[i].Hole? && copied < |pages| && AllKeys(buf[..]) == start + Keys(pages, copied)
      modifies buf
      ensures AllKeys(buf[..]) == start + Keys(pages, copied + 1)
      ensures buf[..] == old(buf[..])[i := pages[copied]]
    {
      Regroup(start, Keys(pages, copied), KeyAt(pages[copied]));
      Fill(i, pages[copied]);
    }

    // Copies pages into holes as long as there are any.
    method CopyIn(pages: seq<Slot>) returns (copied: nat, i: nat)
      requires forall i :: 0 <= i < |pages| ==> pages[i].Frame?
      modifies buf
      ensures copied <= |pages| && AllKeys(buf[..]) == old(AllKeys(buf[..])) + Keys(pages, copied)
      ensures Copied(old(buf[..]), buf[..], pages, i) && (copied == |pages| || i == buf.Length)
    {
      ghost var before, start := buf[..], AllKeys(buf[..]);
      copied, i := 0, 0;
      while i < buf.Length && copied < |pages|
        invariant i <= buf.Length && copied <= |pages|
        invariant AllKeys(buf[..]) == start + Keys(pages, copied)
        invariant Copied(before, buf[..], pages, i)
      {
        copied := CopyOne(before, start, pages, copied, i);
        i := i + 1;
      }
    }

    method CopyOne(ghost before: seq<Slot>, ghost start: multiset<Key>, pages: seq<Slot>, copied: nat, i: nat) returns (now: nat)
      requires i < buf.Length && copied < |pages| && pages[copied].Frame? && Copied(before, buf[..], pages, i)
      requires AllKeys(buf[..]) == start + Keys(pages, copied)
      modifies buf
      ensures copied <= now <= copied + 1 && AllKeys(buf[..]) == start + Keys(pages, now) && Copied(before, buf[..], pages, i + 1)
    {
      now := copied;
      CopiedMore(before, buf[..], pages, i, copied);
      if buf[i].Hole? {
        FillNext(i, pages, copied, start);
        now := copied + 1;
      }
    }

    // Puts pages into the holes of the array.
    method InjectPages(pages: seq<Slot>)
      requires Valid() && numPages + |pages| <= buf.Length && forall i :: 0 <= i < |pages| ==> pages[i].Frame?
      modifies this, buf
      ensures Valid() && numPages == old(numPages) + |pages| && AllKeys(buf[..]) == old(AllKeys(buf[..])) + AllKeys(pages)
      ensures Filled(old(buf[..]), buf[..], pages)
    {
      OccupiedCount(buf[..], buf.Length);
      ghost var before := buf[..];
      var copied, i := CopyIn(pages);
      AllCopied(before, buf[..], pages, copied, i);
      FrameCount(pages, |pages|);
      numPages := numPages + copied;
      RebuildMap();
    }

    // Looks at one page: one that stays gets a single hit.
    method Judge(t: Table, slot: nat) returns (moves: bool)
      requires t.Valid() && slot < buf.Length && buf[slot].Frame?
      modifies buf
      ensures moves == Moves(t, old(buf[slot])) && Alike(old(buf[..]), buf[..])
    {
      var x := buf[slot];
      if t.Hash1(x.id) != t.split + t.cells {
        buf[slot] := x.(hits := 1);
        return false;
      }
      moves := x.refs == 0;
    }

    // Finds the pages that belong to the new cell.
    method Classify(t: Table) returns (moving: seq<nat>)
      requires Valid() && t.Valid()
      modifies buf
      ensures Valid() && Alike(old(buf[..]), buf[..]) && Strictly(moving)
      ensures forall j: nat :: j in moving <==> j < buf.Length && Moves(t, buf[j])
      ensures forall i :: 0 <= i < |moving| ==> moving[i] < buf.Length && Moves(t, buf[moving[i]])
    {
      moving := [];
      ghost var before := buf[..];
      OccupiedIncreasing(before, buf.Length);
      for i := 0 to numPages
        invariant Alike(before, buf[..])
        invariant Judged(t, before, maps, i, moving)
      {
        OccupiedIn(before, buf.Length, maps[i]);
        var moves := Judge(t, maps[i]);
        JudgedMore(t, before, maps, i, moving);
        if moves {
          moving := moving + [maps[i]];
        }
      }
      AlikeKeys(before, buf[..], buf.Length);
      AllJudged(t, before, buf[..], maps, moving);
      assert forall i :: 0 <= i < |moving| ==> moving[i] in moving;
    }

    // The first pages, up to num, that have never been filled.
    method FindUnused(num: nat) returns (slots: seq<nat>)
      requires Valid()
      ensures |slots| <= num && Strictly(slots)
      ensures forall i :: 0 <= i < |slots| ==> slots[i] < buf.Length && buf[slots[i]].Frame? && buf[slots[i]].id.Nothing?
    {
      slots := [];
      OccupiedIncreasing(buf[..], buf.Length);
      var i := 0;
      while i < numPages && |slots| < num
        invariant i <= numPages && |slots| <= num && Strictly(slots)
        invariant forall k :: 0 <= k < |slots| ==>
          slots[k] < buf.Length && buf[slots[k]].Frame? && buf[slots[k]].id.Nothing? && (i < numPages ==> slots[k] < maps[i])
      {
        assert maps[i] in maps;
        OccupiedIn(buf[..], buf.Length, maps[i]);
        if buf[maps[i]].id.Nothing? {
          slots := slots + [maps[i]];
        }
        i := i + 1;
      }
    }

    // Takes the pages in the given slots out.
    method TakeOut(slots: seq<nat>) returns (pages: seq<Slot>)
      requires Valid() && Strictly(slots) && forall i :: 0 <= i < |slots| ==> slots[i] < buf.Length && buf[slots[i]].Frame?
      modifies this, buf
      ensures Valid() && numPages + |slots| == old(numPages) && Taken(old(buf[..]), buf[..], slots, |slots|, pages)
    {
      OccupiedCount(buf[..], buf.Length);
      ghost var before, count := buf[..], numPages;
      pages := [];
      NothingTaken(before, slots);
      for i := 0 to |slots|
        invariant numPages == |AllKeys(buf[..])| && numPages + i == count && Taken(before, buf[..], slots, i, pages)
      {
        ghost var was := buf[..];
        StillThere(before, was, slots, i);
        var x := TakeOne(slots[i]);
        TakenMore(before, was, buf[..], slots, i, pages, x);
        pages := pages + [x];
      }
      RebuildMap();
    }

    // Brings a cell with too few pages up to the minimum, as far as the free pages go.
    method AddPagesToMin(free: seq<nat>) returns (added: nat)
      requires Valid() && buf.Length == CELL_SIZE
      modifies this, buf
      ensures Valid() && added == ToMin(old(numPages), |free|) && numPages == old(numPages) + added
      ensures AllKeys(buf[..]) == old(AllKeys(buf[..])) + AllKeys(FreshPages(free[..added]))
      ensures Refilled(old(buf[..]), buf[..])
    {
      added := ToMin(numPages, |free|);
      ghost var before := buf[..];
      OccupiedFits(before, |before|);
      InjectPages(FreshPages(free[..added]));
      FreshFilled(before, buf[..], free[..added]);
    }

    method TakeOne(slot: nat) returns (x: Slot)
      requires slot < buf.Length && buf[slot].Frame? && numPages == |AllKeys(buf[..])|
      modifies this`numPages, buf
      ensures x == old(buf[slot]) && buf[..] == old(buf[..])[slot := Hole]
      ensures AllKeys(buf[..]) + KeyAt(x) == old(AllKeys(buf[..])) && numPages == |AllKeys(buf[..])| == old(numPages) - 1
    {
      x := buf[slot];
      Empty(slot);
      OneLess(AllKeys(buf[..]), x);
      numPages := numPages - 1;
    }
  }

  // The same pages in the same slots, with other hits.
  ghost predicate Alike(s: seq<Slot>, s': seq<Slot>) {
    && |s| == |s'|
    && forall j :: 0 <= j < |s| ==>
         s[j].Hole? == s'[j].Hole? && (s[j].Frame? ==> s'[j] == s[j].(hits := s'[j].hits))
  }

  lemma {:induction false} AlikeKeys(s: seq<Slot>, s': seq<Slot>, n: nat)
    requires Alike(s, s') && n <= |s|
    ensures Keys(s, n) == Keys(s', n) && Occupied(s, n) == Occupied(s', n)
  {
    if n > 0 { AlikeKeys(s, s', n - 1); }
  }

  // The page belongs to the new cell.
  predicate Moves(t: Table, x: Slot)
    requires t.Valid()
  {
    x.Frame? && t.Hash1(x.id) == t.split + t.cells && x.refs == 0
  }

  // moving lists the pages to move among those in the first i slots of the map.
  ghost predicate Judged(t: Table, s: seq<Slot>, maps: seq<nat>, i: nat, moving: seq<nat>)
    requires t.Valid()
  {
    && i <= |maps| && Strictly(moving)
    && (forall j: nat :: j in moving <==> j in maps[..i] && j < |s| && Moves(t, s[j]))
  }

  lemma {:induction false} JudgedMore(t: Table, s: seq<Slot>, maps: seq<nat>, i: nat, moving: seq<nat>)
    requires t.Valid() && Judged(t, s, maps, i, moving) && i < |maps| && Strictly(maps) && maps[i] < |s|
    ensures Judged(t, s, maps, i + 1, if Moves(t, s[maps[i]]) then moving + [maps[i]] else moving)
  {
    assert maps[..i + 1] == maps[..i] + [maps[i]];
    forall k | 0 <= k < |moving| ensures moving[k] < maps[i] {
      assert moving[k] in moving;
    }
  }

  lemma {:induction false} AllJudged(t: Table, before: seq<Slot>, after: seq<Slot>, maps: seq<nat>, moving: seq<nat>)
    requires t.Valid() && Alike(before, after) && maps == Occupied(before, |before|) && Judged(t, before, maps, |maps|, moving)
    ensures forall j: nat :: j in moving <==> j < |after| && Moves(t, after[j])
  {
    assert maps[..|maps|] == maps;
    forall j: nat ensures j in moving <==> j < |after| && Moves(t, after[j]) { OccupiedIn(before, |before|, j); }
  }

  // The first i slots are occupied, by what was there or by one of the pages.
  ghost predicate Copied(before: seq<Slot>, now: seq<Slot>, pages: seq<Slot>, i: nat) {
    && |before| == |now| && i <= |now|
    && (forall j :: 0 <= j < i ==> now[j].Frame? && (now[j] == before[j] || (before[j].Hole? && now[j] in pages)))
    && (forall j :: i <= j < |now| ==> now[j] == before[j])
  }

  // What was there is still there; what has come is one of the pages.
  ghost predicate Filled(before: seq<Slot>, after: seq<Slot>, pages: seq<Slot>) {
    && |before| == |after|
    && forall j :: 0 <= j < |after| ==>
         after[j] == before[j] || (before[j].Hole? && after[j] in pages)
  }

  lemma {:induction false} CopiedMore(before: seq<Slot>, now: seq<Slot>, pages: seq<Slot>, i: nat, k: nat)
    requires Copied(before, now, pages, i) && i < |now| && k < |pages| && pages[k].Frame?
    ensures if now[i].Hole? then Copied(before, now[i := pages[k]], pages, i + 1) else Copied(before, now, pages, i + 1)
  {
  }

  // The first i slots of the list have become holes.
  ghost predicate Emptied(before: seq<Slot>, now: seq<Slot>, slots: seq<nat>, i: nat) {
    && |before| == |now| && i <= |slots|
    && forall j :: 0 <= j < |now| ==> now[j] == if j in slots[..i] then Hole else before[j]
  }

  lemma {:induction false} StillThere(before: seq<Slot>, now: seq<Slot>, slots: seq<nat>, i: nat)
    requires Emptied(before, now, slots, i) && i < |slots| && Strictly(slots) && slots[i] < |before|
    ensures now[slots[i]] == before[slots[i]]
  {
    assert slots[i] !in slots[..i];
  }

  lemma {:induction false} EmptiedMore(before: seq<Slot>, after: seq<Slot>, slots: seq<nat>, i: nat)
    requires i < |slots| && Strictly(slots) && slots[i] < |before| == |after|
    requires forall j :: 0 <= j < |after| && j != slots[i] ==> after[j] == if j in slots[..i] then Hole else before[j]
    requires after[slots[i]].Hole?
    ensures Emptied(before, after, slots, i + 1)
  {
    TakenSlots(slots, i);
  }

  // The pages in the first i slots of the list have been taken out.
  ghost predicate Taken(before: seq<Slot>, now: seq<Slot>, slots: seq<nat>, i: nat, pages: seq<Slot>) {
    && Emptied(before, now, slots, i) && |pages| == i && AllKeys(now) + AllKeys(pages) == AllKeys(before)
    && forall k :: 0 <= k < i ==> slots[k] < |before| && pages[k] == before[slots[k]]
  }

  lemma {:induction false} NothingTaken(before: seq<Slot>, slots: seq<nat>)
    ensures Taken(before, before, slots, 0, [])
  {
    assert Keys([], 0) == multiset{};
  }

  lemma {:induction false} TakenMore(before: seq<Slot>, was: seq<Slot>, now: seq<Slot>, slots: seq<nat>, i: nat, pages: seq<Slot>, x: Slot)
    requires Taken(before, was, slots, i, pages) && i < |slots| && Strictly(slots) && slots[i] < |before|
    requires x == before[slots[i]] && now == was[slots[i] := Hole] && AllKeys(now) + KeyAt(x) == AllKeys(was)
    ensures Taken(before, now, slots, i + 1, pages + [x])
  {
    EmptiedMore(before, now, slots, i);
    Regroup(AllKeys(now), AllKeys(pages), KeyAt(x));
    KeysSnoc(pages, x);
  }

  lemma {:induction false} OneLess(a: multiset<Key>, x: Slot)
    requires x.Frame?
    ensures |a + KeyAt(x)| == |a| + 1
  {
  }

  lemma {:induction false} TakenSlots(slots: seq<nat>, i: nat)
    requires i < |slots| && Strictly(slots)
    ensures forall j :: j in slots[..i + 1] <==> j in slots[..i] || j == slots[i]
    ensures forall k :: i < k < |slots| ==> slots[k] != slots[i]
  {
    assert slots[..i + 1] == slots[..i] + [slots[i]];
  }

  predicate Strictly(v: seq<nat>) {
    forall i, j :: 0 <= i < j < |v| ==> v[i] < v[j]
  }

  lemma {:induction false} NoneOccupied(s: seq<Slot>, n: nat)
    requires n <= |s| && forall i :: 0 <= i < |s| ==> s[i].Hole?
    ensures Occupied(s, n) == []
  {
    if n > 0 { NoneOccupied(s, n - 1); }
  }

  lemma {:induction false} FrameCount(pages: seq<Slot>, n: nat)
    requires n <= |pages| && forall i :: 0 <= i < n ==> pages[i].Frame?
    ensures |Keys(pages, n)| == n
  {
    if n > 0 { FrameCount(pages, n - 1); }
  }

  // There are enough holes for all pages.
  lemma {:induction false} AllCopied(before: seq<Slot>, after: seq<Slot>, pages: seq<Slot>, copied: nat, i: nat)
    requires Copied(before, after, pages, i) && copied <= |pages| && |AllKeys(before)| + |pages| <= |after|
    requires forall i :: 0 <= i < |pages| ==> pages[i].Frame?
    requires AllKeys(after) == AllKeys(before) + Keys(pages, copied)
    requires copied == |pages| || i == |after|
    ensures copied == |pages| && Filled(before, after, pages)
  {
    FrameCount(pages, copied);
    if copied < |pages| { FrameCount(after, |after|); }
  }

  // A page of the old cell after the split: of those that belong to the new cell only
  // pages in use are left behind.
  ghost predicate Settled(t: Table, x: Slot)
    requires t.Valid()
  {
    x.Frame? && x.id.Page? ==> t.Hash1(x.id) != t.split + t.cells || x.refs > 0
  }

  ghost predicate Arrived(t: Table, x: Slot)
    requires t.Valid()
  {
    x.Frame? && x.id.Page? ==> t.Hash1(x.id) == t.split + t.cells
  }

  ghost predicate AllSettled(t: Table, s: seq<Slot>)
    requires t.Valid()
  {
    forall j :: 0 <= j < |s| ==> Settled(t, s[j])
  }

  ghost predicate AllArrived(t: Table, s: seq<Slot>)
    requires t.Valid()
  {
    forall j :: 0 <= j < |s| ==> Arrived(t, s[j])
  }

  // What is left when the given slots have been emptied.
  ghost predicate Without(before: seq<Slot>, after: seq<Slot>, slots: seq<nat>) {
    |before| == |after| && forall j :: 0 <= j < |after| ==> after[j] == if j in slots then Hole else before[j]
  }

  // Every page was there before or comes from one of the given slots of the other cell.
  ghost predicate Joined(before: seq<Slot>, after: seq<Slot>, other: seq<Slot>, slots: seq<nat>) {
    forall j :: 0 <= j < |after| && after[j].Frame? ==>
      (j < |before| && after[j] == before[j]) || exists k: nat :: k in slots && k < |other| && after[j] == other[k]
  }

  method MoveOver(cell: PageCell, expanded: PageCell, slots: seq<nat>)
    requires cell != expanded && cell.buf != expanded.buf && cell.Valid() && expanded.Valid()
    requires cell.numPages + expanded.numPages <= expanded.buf.Length && Strictly(slots)
    requires forall i :: 0 <= i < |slots| ==> slots[i] < cell.buf.Length && cell.buf[slots[i]].Frame?
    modifies cell, cell.buf, expanded, expanded.buf
    ensures cell.Valid() && expanded.Valid() && cell.numPages + expanded.numPages <= expanded.buf.Length
    ensures cell.numPages + |slots| == old(cell.numPages) && expanded.numPages == old(expanded.numPages) + |slots|
    ensures AllKeys(cell.buf[..]) + AllKeys(expanded.buf[..]) == old(AllKeys(cell.buf[..])) + old(AllKeys(expanded.buf[..]))
    ensures Without(old(cell.buf[..]), cell.buf[..], slots)
    ensures Joined(old(expanded.buf[..]), expanded.buf[..], old(cell.buf[..]), slots)
  {
    ghost var had, other := expanded.buf[..], cell.buf[..];
    var pages := cell.TakeOut(slots);
    ghost var kept := cell.buf[..];
    expanded.InjectPages(pages);
    MovedOver(other, kept, slots, pages, had, expanded.buf[..]);
  }

  lemma {:induction false} MovedOver(other: seq<Slot>, kept: seq<Slot>, slots: seq<nat>, pages: seq<Slot>, had: seq<Slot>, now: seq<Slot>)
    requires Taken(other, kept, slots, |slots|, pages) && |had| == |now| && AllKeys(now) == AllKeys(had) + AllKeys(pages)
    requires Filled(had, now, pages)
    ensures Without(other, kept, slots) && Joined(had, now, other, slots) && AllKeys(kept) + AllKeys(now) == AllKeys(other) + AllKeys(had)
  {
    assert slots[..|slots|] == slots;
    Regroup(AllKeys(kept), AllKeys(had), AllKeys(pages));
    JoinedPages(had, now, other, slots, pages);
  }

  lemma {:induction false} JoinedPages(before: seq<Slot>, after: seq<Slot>, other: seq<Slot>, slots: seq<nat>, pages: seq<Slot>)
    requires |before| == |after| && |pages| == |slots|
    requires forall i :: 0 <= i < |slots| ==> slots[i] < |other| && pages[i] == other[slots[i]]
    requires Filled(before, after, pages)
    ensures Joined(before, after, other, slots)
  {
    forall j | 0 <= j < |after| && after[j].Frame? && after[j] != before[j]
      ensures exists k: nat :: k in slots && k < |other| && after[j] == other[k]
    {
      var i :| 0 <= i < |pages| && pages[i] == after[j];
      assert slots[i] in slots;
    }
  }

  // Every page left in the old cell was there before, with as many references; pages in use
  // are still there.
  ghost predicate Remains(before: seq<Slot>, after: seq<Slot>) {
    && |before| == |after|
    && forall j :: 0 <= j < |after| ==>
         && (Named(after[j]) ==> SamePage(before[j], after[j]))
         && (Named(before[j]) && before[j].refs > 0 ==> SamePage(before[j], after[j]))
  }

  // A page frame that has been filled.
  predicate Named(x: Slot) {
    x.Frame? && x.id.Page?
  }

  predicate SamePage(x: Slot, y: Slot) {
    x.Frame? && y.Frame? && x.id == y.id && x.refs == y.refs
  }

  ghost predicate Unpinned(s: seq<Slot>) {
    forall j :: 0 <= j < |s| && s[j].Frame? ==> s[j].refs == 0
  }

  // No one uses a page frame that has never been filled.
  ghost predicate UnusedFree(s: seq<Slot>) {
    forall j :: 0 <= j < |s| && s[j].Frame? && !s[j].id.Page? ==> s[j].refs == 0
  }

  // Of the pages in the two cells of a split, those in use stay where they are.
  ghost predicate PinsStay(before: seq<Slot>, after: seq<Slot>, there: seq<Slot>, there': seq<Slot>) {
    && (Unpinned(before) ==> Unpinned(after))
    && (UnusedFree(before) ==> UnusedFree(after))
    && (UnusedFree(before) && Unpinned(there) ==> Unpinned(there'))
  }

  lemma {:induction false} MoveSettles(t: Table, before: seq<Slot>, judged: seq<Slot>, after: seq<Slot>, moving: seq<nat>)
    requires t.Valid() && Alike(before, judged) && Without(judged, after, moving)
    requires forall j: nat :: j in moving <==> j < |judged| && Moves(t, judged[j])
    ensures AllSettled(t, after) && Remains(before, after)
  {
    forall j: nat | j < |after|
      ensures Settled(t, after[j]) && (Named(after[j]) ==> SamePage(before[j], after[j]))
      ensures Named(before[j]) && before[j].refs > 0 ==> SamePage(before[j], after[j])
    {
      assert j in moving <==> Moves(t, judged[j]);
    }
  }

  lemma {:induction false} MovePins(t: Table, before: seq<Slot>, judged: seq<Slot>, after: seq<Slot>, there: seq<Slot>, there': seq<Slot>, moving: seq<nat>)
    requires t.Valid() && Alike(before, judged) && Without(judged, after, moving) && Joined(there, there', judged, moving)
    requires forall j: nat :: j in moving <==> j < |judged| && Moves(t, judged[j])
    ensures PinsStay(before, after, there, there')
  {
    forall j: nat | j < |after| && after[j].Frame? ensures SamePage(before[j], after[j]) {
      assert after[j] == judged[j];
    }
  }

  lemma {:induction false} MoveArrives(t: Table, before: seq<Slot>, after: seq<Slot>, judged: seq<Slot>, moving: seq<nat>)
    requires t.Valid() && AllArrived(t, before) && Joined(before, after, judged, moving)
    requires forall j: nat :: j in moving <==> j < |judged| && Moves(t, judged[j])
    ensures AllArrived(t, after)
  {
  }

  lemma {:induction false} NothingMoves(judged: seq<Slot>, there: seq<Slot>)
    ensures Without(judged, judged, []) && Joined(there, there, judged, [])
  {
  }

  // Moves the pages that belong to the new cell.
  method MoveMatching(t: Table, cell: PageCell, expanded: PageCell)
    requires t.Valid() && cell != expanded && cell.buf != expanded.buf && cell.Valid() && expanded.Valid()
    requires cell.numPages + expanded.numPages <= expanded.buf.Length && AllArrived(t, expanded.buf[..])
    modifies cell, cell.buf, expanded, expanded.buf
    ensures cell.Valid() && expanded.Valid() && cell.numPages + expanded.numPages <= expanded.buf.Length
    ensures cell.numPages + expanded.numPages == old(cell.numPages) + old(expanded.numPages)
    ensures AllKeys(cell.buf[..]) + AllKeys(expanded.buf[..]) == old(AllKeys(cell.buf[..])) + old(AllKeys(expanded.buf[..]))
    ensures AllSettled(t, cell.buf[..]) && AllArrived(t, expanded.buf[..]) && Remains(old(cell.buf[..]), cell.buf[..])
    ensures PinsStay(old(cell.buf[..]), cell.buf[..], old(expanded.buf[..]), expanded.buf[..])
  {
    ghost var before, there := cell.buf[..], expanded.buf[..];
    var moving := cell.Classify(t);
    ghost var judged := cell.buf[..];
    AlikeKeys(before, judged, cell.buf.Length);
    if moving != [] {
      MoveOver(cell, expanded, moving);
    } else {
      NothingMoves(judged, there);
    }
    MoveSettles(t, before, judged, cell.buf[..], moving);
    MoveArrives(t, there, expanded.buf[..], judged, moving);
    MovePins(t, before, judged, cell.buf[..], there, expanded.buf[..], moving);
  }

  // Splits a cell: no page is lost or doubled, and every page that no one uses ends up
  // where the hash function of the next level says.
  method Rehash(t: Table, cell: PageCell, expanded: PageCell, minSize: nat)
    requires t.Valid() && cell != expanded && cell.buf != expanded.buf && cell.Valid() && expanded.Valid()
    requires cell.numPages + expanded.numPages <= expanded.buf.Length && AllArrived(t, expanded.buf[..])
    modifies cell, cell.buf, expanded, expanded.buf
    ensures cell.Valid() && expanded.Valid()
    ensures cell.numPages + expanded.numPages == old(cell.numPages) + old(expanded.numPages)
    ensures AllKeys(cell.buf[..]) + AllKeys(expanded.buf[..]) == old(AllKeys(cell.buf[..])) + old(AllKeys(expanded.buf[..]))
    ensures AllSettled(t, cell.buf[..]) && AllArrived(t, expanded.buf[..]) && Remains(old(cell.buf[..]), cell.buf[..])
    ensures PinsStay(old(cell.buf[..]), cell.buf[..], old(expanded.buf[..]), expanded.buf[..])
  {
    MoveMatching(t, cell, expanded);
    // Empty pages fill the new cell up to the minimal size.
    if expanded.numPages < minSize {
      ghost var kept, there := cell.buf[..], expanded.buf[..];
      var unused := cell.FindUnused(minSize - expanded.numPages);
      MoveOver(cell, expanded, unused);
      UnusedMoved(t, kept, cell.buf[..], there, expanded.buf[..], unused);
    }
  }

  // Pages without an id may be in either cell.
  lemma {:induction false} UnusedMoved(t: Table, kept: seq<Slot>, kept': seq<Slot>, there: seq<Slot>, there': seq<Slot>, slots: seq<nat>)
    requires t.Valid() && AllSettled(t, kept) && AllArrived(t, there)
    requires Without(kept, kept', slots) && Joined(there, there', kept, slots)
    requires forall k: nat :: k in slots && k < |kept| ==> kept[k].Frame? && !kept[k].id.Page?
    ensures AllSettled(t, kept') && AllArrived(t, there')
    ensures Remains(kept, kept') && PinsStay(kept, kept', there, there')
  {
  }

  // ----- one split with what expand does about cells left with too few pages

  const CELL_SIZE: nat := 16
  const CELL_MIN_NUM_PAGES: nat := 8

  // Page frames for free memory.
  function FreshPages(free: seq<nat>): (r: seq<Slot>)
    ensures |r| == |free| && forall i :: 0 <= i < |r| ==> r[i] == Frame(Nothing, free[i], 0, 0)
  {
    seq(|free|, i requires 0 <= i < |free| => Frame(Nothing, free[i], 0, 0))
  }

  function ToMin(numPages: nat, free: nat): nat {
    if numPages >= CELL_MIN_NUM_PAGES then 0
    else if CELL_MIN_NUM_PAGES - numPages <= free then CELL_MIN_NUM_PAGES - numPages else free
  }

  function Surplus(numPages: nat, minSize: nat): nat {
    if numPages > minSize then numPages - minSize else 0
  }

  // Only frames without a page have been added.
  ghost predicate Refilled(before: seq<Slot>, after: seq<Slot>) {
    && |before| == |after|
    && forall j :: 0 <= j < |after| ==>
         after[j] == before[j] || (before[j].Hole? && after[j].Frame? && after[j].id.Nothing? && after[j].refs == 0)
  }

  lemma {:induction false} FreshFilled(before: seq<Slot>, after: seq<Slot>, free: seq<nat>)
    requires Filled(before, after, FreshPages(free))
    ensures Refilled(before, after)
  {
  }

  lemma {:induction false} KeysAppend(a: seq<Slot>, b: seq<Slot>)
    ensures AllKeys(a + b) == AllKeys(a) + AllKeys(b)
  {
    if b == [] {
      assert a + b == a;
    } else {
      var front, last := b[..|b| - 1], b[|b| - 1];
      KeysAppend(a, front);
      assert a + b == (a + front) + [last] && b == front + [last];
      KeysSnoc(a + front, last);
      KeysSnoc(front, last);
      Regroup(AllKeys(a), AllKeys(front), KeyAt(last));
    }
  }

  lemma {:induction false} FreeAppend(free: seq<nat>, i: nat, j: nat)
    requires i + j <= |free|
    ensures AllKeys(FreshPages(free[..i])) + AllKeys(FreshPages(free[i..][..j])) == AllKeys(FreshPages(free[..i + j]))
  {
    KeysAppend(FreshPages(free[..i]), FreshPages(free[i..][..j]));
    assert FreshPages(free[..i]) + FreshPages(free[i..][..j]) == FreshPages(free[..i + j]);
  }

  lemma {:induction false} Regroup4(a: multiset<Key>, b: multiset<Key>, x: multiset<Key>, y: multiset<Key>)
    ensures (a + x) + (b + y) == (a + b) + (x + y)
  {
  }

  // What a split does to the slots of the two cells.
  ghost predicate SplitInto(t: Table, before: seq<Slot>, kept: seq<Slot>, moved: seq<Slot>)
    requires t.Valid()
  {
    AllSettled(t, kept) && AllArrived(t, moved) && Remains(before, kept)
  }

  lemma {:induction false} RefilledSplit(t: Table, before: seq<Slot>, kept: seq<Slot>, moved: seq<Slot>, kept': seq<Slot>, moved': seq<Slot>)
    requires t.Valid() && SplitInto(t, before, kept, moved)
    requires Refilled(kept, kept') && Refilled(moved, moved')
    ensures SplitInto(t, before, kept', moved')
    ensures (Unpinned(kept) ==> Unpinned(kept')) && (UnusedFree(kept) ==> UnusedFree(kept')) && (Unpinned(moved) ==> Unpinned(moved'))
  {
    RefilledPins(kept, kept');
    RefilledPins(moved, moved');
    forall j: nat | j < |kept'|
      ensures Settled(t, kept'[j]) && (Named(kept'[j]) ==> SamePage(before[j], kept'[j]))
      ensures Named(before[j]) && before[j].refs > 0 ==> SamePage(before[j], kept'[j])
    {
      assert Settled(t, kept[j]);
    }
    forall j: nat | j < |moved'| ensures Arrived(t, moved'[j]) { assert Arrived(t, moved[j]); }
  }

  lemma {:induction false} RefilledPins(s: seq<Slot>, s': seq<Slot>)
    requires Refilled(s, s')
    ensures (Unpinned(s) ==> Unpinned(s')) && (UnusedFree(s) ==> UnusedFree(s'))
  {
  }

  lemma {:induction false} JoinedPins(s: seq<Slot>, s': seq<Slot>, other: seq<Slot>, slots: seq<nat>)
    requires Joined(s, s', other, slots) && Unpinned(other)
    ensures (Unpinned(s) ==> Unpinned(s')) && (UnusedFree(s) ==> UnusedFree(s'))
  {
  }

  // The numbers of pages of two cells after free pages have been supplied.
  function AfterSupply(k: nat, m: nat, minSize: nat, free: nat): (nat, nat) {
    if Surplus(m, minSize) + Surplus(k, minSize) <= free then (k + ToMin(k, free), m + ToMin(m, free - ToMin(k, free)))
    else (k, m)
  }

  // Free pages for the two cells, counted as the code counts them.
  method Supply(cell: PageCell, expanded: PageCell, minSize: nat, free: seq<nat>) returns (used: nat)
    requires cell != expanded && cell.buf != expanded.buf && cell.Valid() && expanded.Valid()
    requires cell.buf.Length == CELL_SIZE == expanded.buf.Length
    modifies cell, cell.buf, expanded, expanded.buf
    ensures cell.Valid() && expanded.Valid() && used <= |free| && used <= CELL_SIZE
    ensures Refilled(old(cell.buf[..]), cell.buf[..]) && Refilled(old(expanded.buf[..]), expanded.buf[..])
    ensures AllKeys(cell.buf[..]) + AllKeys(expanded.buf[..])
            == old(AllKeys(cell.buf[..])) + old(AllKeys(expanded.buf[..])) + AllKeys(FreshPages(free[..used]))
    ensures (cell.numPages, expanded.numPages) == AfterSupply(old(cell.numPages), old(expanded.numPages), minSize, |free|)
  {
    used := 0;
    if Surplus(expanded.numPages, minSize) + Surplus(cell.numPages, minSize) <= |free| {
      var first, second := SupplyBoth(cell, expanded, free);
      used := first + second;
    } else {
      NothingSupplied(AllKeys(cell.buf[..]) + AllKeys(expanded.buf[..]), free);
    }
  }

  method SupplyBoth(cell: PageCell, expanded: PageCell, free: seq<nat>) returns (first: nat, second: nat)
    requires cell != expanded && cell.buf != expanded.buf && cell.Valid() && expanded.Valid()
    requires cell.buf.Length == CELL_SIZE == expanded.buf.Length
    modifies cell, cell.buf, expanded, expanded.buf
    ensures cell.Valid() && expanded.Valid() && first + second <= |free| && first + second <= CELL_SIZE
    ensures Refilled(old(cell.buf[..]), cell.buf[..]) && Refilled(old(expanded.buf[..]), expanded.buf[..])
    ensures AllKeys(cell.buf[..]) + AllKeys(expanded.buf[..])
            == old(AllKeys(cell.buf[..])) + old(AllKeys(expanded.buf[..])) + AllKeys(FreshPages(free[..first + second]))
    ensures first == ToMin(old(cell.numPages), |free|) && cell.numPages == old(cell.numPages) + first
    ensures second == ToMin(old(expanded.numPages), |free| - first) && expanded.numPages == old(expanded.numPages) + second
  {
    ghost var a, b := AllKeys(cell.buf[..]), AllKeys(expanded.buf[..]);
    first := cell.AddPagesToMin(free);
    ghost var a' := AllKeys(cell.buf[..]);
    second := expanded.AddPagesToMin(free[first..]);
    Supplied(a, b, a', AllKeys(expanded.buf[..]), free, first, second);
  }

  lemma {:induction false} NothingSupplied(a: multiset<Key>, free: seq<nat>)
    ensures a == a + AllKeys(FreshPages(free[..0]))
  {
  }

  lemma {:induction false} Supplied(a: multiset<Key>, b: multiset<Key>, a': multiset<Key>, b': multiset<Key>, free: seq<nat>, i: nat, j: nat)
    requires i + j <= |free| && a' == a + AllKeys(FreshPages(free[..i])) && b' == b + AllKeys(FreshPages(free[i..][..j]))
    ensures a' + b' == a + b + AllKeys(FreshPages(free[..i + j]))
  {
    FreeAppend(free, i, j);
    Regroup4(a, b, AllKeys(FreshPages(free[..i])), AllKeys(FreshPages(free[i..][..j])));
  }

  // Takes all pages of the expanded cell back.
  method Merge(cell: PageCell, expanded: PageCell)
    requires cell != expanded && cell.buf != expanded.buf && cell.Valid() && expanded.Valid()
    requires cell.numPages + expanded.numPages <= cell.buf.Length && Unpinned(expanded.buf[..])
    modifies cell, cell.buf, expanded, expanded.buf
    ensures cell.Valid() && expanded.Valid() && expanded.numPages == 0
    ensures AllKeys(cell.buf[..]) + AllKeys(expanded.buf[..]) == old(AllKeys(cell.buf[..])) + old(AllKeys(expanded.buf[..]))
    ensures old(Unpinned(cell.buf[..])) ==> Unpinned(cell.buf[..])
    ensures old(UnusedFree(cell.buf[..])) ==> UnusedFree(cell.buf[..])
  {
    ghost var s, there, slots := expanded.buf[..], cell.buf[..], expanded.maps;
    MapSlots(s, slots);
    MoveOver(expanded, cell, expanded.maps);
    JoinedPins(there, cell.buf[..], s, slots);
    Commute(AllKeys(there), AllKeys(s));
    Commute(AllKeys(cell.buf[..]), AllKeys(expanded.buf[..]));
  }

  lemma {:induction false} MapSlots(s: seq<Slot>, maps: seq<nat>)
    requires maps == Occupied(s, |s|)
    ensures Strictly(maps) && forall i :: 0 <= i < |maps| ==> maps[i] < |s| && s[maps[i]].Frame?
  {
    OccupiedIncreasing(s, |s|);
    forall i | 0 <= i < |maps| ensures maps[i] < |s| && s[maps[i]].Frame? {
      assert maps[i] in maps;
      OccupiedIn(s, |s|, maps[i]);
    }
  }

  datatype Outcome = Halved | MergedBack | Overfull

  // The outcome when the split leaves k pages in the cell and moves m: too few pages in a half
  // and it is merged back, which asserts that one cell can hold the pages of both.
  function OutcomeOf(k: nat, m: nat, minSize: nat, free: nat): Outcome {
    var (k', m') := AfterSupply(k, m, minSize, free);
    Judgement(k', m', minSize)
  }

  function Judgement(k: nat, m: nat, minSize: nat): Outcome {
    if k >= minSize && m >= minSize then Halved else if k + m > CELL_SIZE then Overfull else MergedBack
  }

  // A minimal size over the one that cells are supplied up to: no cell is ever split. Otherwise
  // every cell is if there are enough free pages.
  lemma {:induction false} HalvedWhen(k: nat, m: nat, minSize: nat, free: nat)
    requires k + m <= CELL_SIZE
    ensures minSize > CELL_MIN_NUM_PAGES ==> !OutcomeOf(k, m, minSize, free).Halved?
    ensures minSize <= CELL_MIN_NUM_PAGES && free >= CELL_SIZE ==> OutcomeOf(k, m, minSize, free).Halved?
  {
  }

  // The sizes of cells and minimal sizes for which the merge's assertion can fail.
  predicate CanOverfill(pages: nat, minSize: nat) {
    || (minSize > CELL_MIN_NUM_PAGES && pages > CELL_MIN_NUM_PAGES)
    || (minSize == 8 && 10 <= pages <= 15)
    || (minSize == 7 && 11 <= pages <= 13)
  }

  // For a cell of that many pages the assertion holds, however the pages divide and however
  // many free pages there are, if and only if the sizes are not among those.
  lemma {:induction false} MergeFitsIff(pages: nat, minSize: nat)
    requires pages <= CELL_SIZE
    ensures (forall k: nat, m: nat, free: nat :: k + m == pages ==> !OutcomeOf(k, m, minSize, free).Overfull?)
            <==> !CanOverfill(pages, minSize)
  {
    if CanOverfill(pages, minSize) {
      var free := if minSize > 8 then 8 else minSize - 1;
      assert OutcomeOf(0, pages, minSize, free).Overfull?;
    } else {
      forall k: nat, m: nat, free: nat | k + m == pages ensures !OutcomeOf(k, m, minSize, free).Overfull? {
        NoOverfill(k, m, minSize, free);
      }
    }
  }

  lemma {:induction false} NoOverfill(k: nat, m: nat, minSize: nat, free: nat)
    requires k + m <= CELL_SIZE && !CanOverfill(k + m, minSize)
    ensures !OutcomeOf(k, m, minSize, free).Overfull?
  {
  }

  // Splits a cell and supplies both halves with free pages.
  method SplitAndSupply(t: Table, cell: PageCell, expanded: PageCell, minSize: nat, free: seq<nat>) returns (used: nat, ghost k: nat, ghost m: nat)
    requires t.Valid() && cell != expanded && cell.buf != expanded.buf && cell.Valid() && expanded.Valid()
    requires cell.buf.Length == CELL_SIZE == expanded.buf.Length && expanded.numPages == 0 && UnusedFree(cell.buf[..])
    modifies cell, cell.buf, expanded, expanded.buf
    ensures cell.Valid() && expanded.Valid() && used <= |free| && used <= CELL_SIZE
    ensures AllKeys(cell.buf[..]) + AllKeys(expanded.buf[..]) == old(AllKeys(cell.buf[..])) + AllKeys(FreshPages(free[..used]))
    ensures SplitInto(t, old(cell.buf[..]), cell.buf[..], expanded.buf[..])
    ensures UnusedFree(cell.buf[..]) && Unpinned(expanded.buf[..]) && (old(Unpinned(cell.buf[..])) ==> Unpinned(cell.buf[..]))
    ensures k + m == old(cell.numPages) && Judgement(cell.numPages, expanded.numPages, minSize) == OutcomeOf(k, m, minSize, |free|)
  {
    ghost var before := cell.buf[..];
    RehashEmpty(t, cell, expanded, minSize);
    ghost var kept, moved := cell.buf[..], expanded.buf[..];
    k, m := cell.numPages, expanded.numPages;
    used := Supply(cell, expanded, minSize, free);
    RefilledSplit(t, before, kept, moved, cell.buf[..], expanded.buf[..]);
  }

  method RehashEmpty(t: Table, cell: PageCell, expanded: PageCell, minSize: nat)
    requires t.Valid() && cell != expanded && cell.buf != expanded.buf && cell.Valid() && expanded.Valid()
    requires cell.buf.Length == CELL_SIZE == expanded.buf.Length && expanded.numPages == 0 && UnusedFree(cell.buf[..])
    modifies cell, cell.buf, expanded, expanded.buf
    ensures cell.Valid() && expanded.Valid() && cell.numPages + expanded.numPages == old(cell.numPages)
    ensures AllKeys(cell.buf[..]) + AllKeys(expanded.buf[..]) == old(AllKeys(cell.buf[..]))
    ensures SplitInto(t, old(cell.buf[..]), cell.buf[..], expanded.buf[..])
    ensures UnusedFree(cell.buf[..]) && Unpinned(expanded.buf[..]) && (old(Unpinned(cell.buf[..])) ==> Unpinned(cell.buf[..]))
  {
    ghost var before, there := cell.buf[..], expanded.buf[..];
    NoPages(there, expanded.maps);
    OccupiedFits(before, |before|);
    Rehash(t, cell, expanded, minSize);
  }

  // Splits a cell, or merges the halves back if one of them is still too small. The merge
  // asserts that one cell can hold the pages of both.
  method SplitCell(t: Table, cell: PageCell, expanded: PageCell, minSize: nat, free: seq<nat>) returns (o: Outcome, used: nat, ghost k: nat, ghost m: nat)
    requires t.Valid() && cell != expanded && cell.buf != expanded.buf && cell.Valid() && expanded.Valid()
    requires cell.buf.Length == CELL_SIZE == expanded.buf.Length && expanded.numPages == 0 && UnusedFree(cell.buf[..])
    modifies cell, cell.buf, expanded, expanded.buf
    ensures cell.Valid() && expanded.Valid() && used <= |free| && used <= CELL_SIZE
    ensures AllKeys(cell.buf[..]) + AllKeys(expanded.buf[..]) == old(AllKeys(cell.buf[..])) + AllKeys(FreshPages(free[..used]))
    ensures UnusedFree(cell.buf[..])
    ensures (old(Unpinned(cell.buf[..])) ==> Unpinned(cell.buf[..])) && (!o.MergedBack? ==> Unpinned(expanded.buf[..]))
    ensures o.Halved? ==> SplitInto(t, old(cell.buf[..]), cell.buf[..], expanded.buf[..])
    ensures o.MergedBack? ==> expanded.numPages == 0
    ensures k + m == old(cell.numPages) && o == OutcomeOf(k, m, minSize, |free|)
  {
    used, k, m := SplitAndSupply(t, cell, expanded, minSize, free);
    if expanded.numPages >= minSize && cell.numPages >= minSize {
      o := Halved;
      return;
    }
    if cell.numPages + expanded.numPages > CELL_SIZE {
      o := Overfull;
      return;
    }
    Merge(cell, expanded);
    o := MergedBack;
  }

  lemma {:induction false} NoPages(s: seq<Slot>, maps: seq<nat>)
    requires maps == Occupied(s, |s|) && maps == []
    ensures AllKeys(s) == multiset{} && forall j :: 0 <= j < |s| ==> s[j].Hole?
  {
    OccupiedCount(s, |s|);
    forall j: nat | j < |s| ensures s[j].Hole? { OccupiedIn(s, |s|, j); }
  }

  lemma {:induction false} OccupiedFits(s: seq<Slot>, n: nat)
    requires n <= |s|
    ensures |Occupied(s, n)| <= n
  {
    if n > 0 { OccupiedFits(s, n - 1); }
  }

  lemma {:induction false} KeyFrom(s: seq<Slot>, n: nat, k: Key)
    requires n <= |s| && k in Keys(s, n)
    ensures exists j :: 0 <= j < n && s[j].Frame? && (s[j].id, s[j].data) == k
  {
    if n > 0 && k !in KeyAt(s[n - 1]) { KeyFrom(s, n - 1, k); }
  }

  // A page someone uses and the split has to move.
  ghost predicate Stuck(t: Table, x: Slot)
    requires t.Valid()
  {
    Named(x) && t.Hash1(x.id) == t.split + t.cells && x.refs > 0
  }

  ghost predicate NoneStuck(t: Table, s: seq<Slot>)
    requires t.Valid()
  {
    forall j :: 0 <= j < |s| ==> !Stuck(t, s[j])
  }

  // When no page that has to move is in use, the pages are divided as the table wants it.
  lemma {:induction false} DividedAfter(t: Table, kept: seq<Slot>, moved: seq<Slot>)
    requires t.Valid() && AllSettled(t, kept) && NoneStuck(t, kept) && AllArrived(t, moved)
    ensures Divided(t, AllKeys(kept), AllKeys(moved))
  {
    forall k: Key | k in AllKeys(kept) && k.0.Page? ensures t.Hash1(k.0) != t.split + t.cells {
      KeyFrom(kept, |kept|, k);
    }
    forall k: Key | k in AllKeys(moved) && k.0.Page? ensures t.Hash1(k.0) == t.split + t.cells {
      KeyFrom(moved, |moved|, k);
    }
  }

  // ----- the whole table

  // Every page is in the cell its id is routed to.
  ghost predicate Placed(t: Table, cells: seq<multiset<Key>>) {
    && t.Valid() && |cells| == t.NumCells()
    && forall c: nat, k: Key :: c < |cells| && k in cells[c] && k.0.Page? ==> t.Route(k.0) == c
  }

  // What Rehash leaves in the old cell and in the new one when no page is in use.
  ghost predicate Divided(t: Table, kept: multiset<Key>, moved: multiset<Key>)
    requires t.Valid()
  {
    && (forall k: Key :: k in kept && k.0.Page? ==> t.Hash1(k.0) != t.split + t.cells)
    && (forall k: Key :: k in moved && k.0.Page? ==> t.Hash1(k.0) == t.split + t.cells)
  }

  // Page frames without a page.
  ghost predicate Blank(extra: multiset<Key>) {
    forall k: Key :: k in extra ==> !k.0.Page?
  }

  lemma {:induction false} FreshBlank(free: seq<nat>)
    ensures Blank(AllKeys(FreshPages(free)))
  {
    var s := FreshPages(free);
    forall k: Key | k in AllKeys(s) ensures !k.0.Page? { KeyFrom(s, |s|, k); }
  }

  // Splitting the next cell, and going up a level after the last one, keeps every page
  // where a lookup goes for it; page frames without a page may be added.
  lemma {:induction false} SplitKeepsPlaced(t: Table, cells: seq<multiset<Key>>, kept: multiset<Key>, moved: multiset<Key>, extra: multiset<Key>)
    requires Placed(t, cells) && t.split < t.cells && kept + moved == cells[t.split] + extra && Blank(extra) && Divided(t, kept, moved)
    ensures Placed(t.Next(), cells[t.split := kept] + [moved])
  {
    var after := cells[t.split := kept] + [moved];
    forall c: nat, k: Key | c < |after| && k in after[c] && k.0.Page? ensures t.Next().Route(k.0) == c {
      RouteAfterSplit(t, k.0);
      var was := if c == |cells| then t.split else c;
      assert k in kept + moved <==> k in cells[t.split] + extra;
      assert k in cells[was];
      Hashes(t, k.0);
    }
  }

  // After a split every page is where a lookup goes for it if and only if no page that has to
  // move is in use.
  lemma {:induction false} SplitPlacedIff(t: Table, cells: seq<multiset<Key>>, before: seq<Slot>, kept: seq<Slot>, moved: seq<Slot>, extra: multiset<Key>)
    requires Placed(t, cells) && t.split < t.cells && cells[t.split] == AllKeys(before) && SplitInto(t, before, kept, moved)
    requires AllKeys(kept) + AllKeys(moved) == AllKeys(before) + extra && Blank(extra)
    ensures Placed(t.Next(), cells[t.split := AllKeys(kept)] + [AllKeys(moved)]) <==> NoneStuck(t, before)
  {
    if NoneStuck(t, before) {
      KeptDivided(t, before, kept, moved);
      SplitKeepsPlaced(t, cells, AllKeys(kept), AllKeys(moved), extra);
    } else {
      var j :| 0 <= j < |before| && Stuck(t, before[j]);
      var after := cells[t.split := AllKeys(kept)] + [AllKeys(moved)];
      assert SamePage(before[j], kept[j]);
      KeyIn(kept, |kept|, j);
      RouteAfterSplit(t, kept[j].id);
      assert (kept[j].id, kept[j].data) in after[t.split];
      Hashes(t, kept[j].id);
    }
  }

  lemma {:induction false} KeptDivided(t: Table, before: seq<Slot>, kept: seq<Slot>, moved: seq<Slot>)
    requires t.Valid() && SplitInto(t, before, kept, moved) && NoneStuck(t, before)
    ensures Divided(t, AllKeys(kept), AllKeys(moved))
  {
    forall j | 0 <= j < |kept| ensures !Stuck(t, kept[j]) { assert !Stuck(t, before[j]); }
    DividedAfter(t, kept, moved);
  }

  lemma {:induction false} KeyIn(s: seq<Slot>, n: nat, j: nat)
    requires j < n <= |s| && s[j].Frame?
    ensures (s[j].id, s[j].data) in Keys(s, n)
  {
    if j < n - 1 { KeyIn(s, n - 1, j); }
  }

  // All pages of the cells.
  function Total(cells: seq<multiset<Key>>): multiset<Key> {
    if cells == [] then multiset{} else Total(cells[..|cells| - 1]) + cells[|cells| - 1]
  }

  lemma {:induction false} TotalUpdate(cells: seq<multiset<Key>>, i: nat, x: multiset<Key>)
    requires i < |cells|
    ensures Total(cells[i := x]) + cells[i] == Total(cells) + x
  {
    var front, last := cells[..|cells| - 1], cells[|cells| - 1];
    if i < |front| {
      TotalUpdate(front, i, x);
      assert cells[i := x][..|front|] == front[i := x];
      Regroup(Total(front[i := x]), last, cells[i]);
      Regroup(Total(front), last, x);
    } else {
      assert cells[i := x][..|front|] == front;
      Regroup(Total(front), last, x);
    }
  }

  lemma {:induction false} TotalTwo(cells: seq<multiset<Key>>, i: nat, j: nat, x: multiset<Key>, y: multiset<Key>, extra: multiset<Key>)
    requires i < j < |cells| && x + y == cells[i] + cells[j] + extra
    ensures Total(cells[i := x][j := y]) == Total(cells) + extra
  {
    TotalUpdate(cells, i, x);
    TotalUpdate(cells[i := x], j, y);
    TwoSums(Total(cells), Total(cells[i := x]), Total(cells[i := x][j := y]), cells[i], cells[j], x, y, extra);
  }

  lemma {:induction false} TwoSums(s: multiset<Key>, s1: multiset<Key>, s2: multiset<Key>, a: multiset<Key>, b: multiset<Key>, x: multiset<Key>, y: multiset<Key>, extra: multiset<Key>)
    requires s1 + a == s + x && s2 + b == s1 + y && x + y == a + b + extra
    ensures s2 == s + extra
  {
    forall k ensures s2[k] == (s + extra)[k] {
      assert (s1 + a)[k] == (s + x)[k] && (s2 + b)[k] == (s1 + y)[k] && (x + y)[k] == (a + b + extra)[k];
    }
  }

  predicate Apart(cells: seq<PageCell>) {
    forall i, j :: 0 <= i < j < |cells| ==> cells[i] != cells[j] && cells[i].buf != cells[j].buf
  }

  // What there is to know of a cell between two splits.
  datatype View = View(slots: seq<Slot>, numPages: nat, valid: bool)

  ghost function ViewOf(c: PageCell): View
    reads c, c.buf
  {
    View(c.buf[..], c.numPages, c.Valid() && c.buf.Length == CELL_SIZE)
  }

  ghost function Views(cells: seq<PageCell>): (r: seq<View>)
    reads cells, set c | c in cells :: c.buf
    ensures |r| == |cells| && forall i :: 0 <= i < |cells| ==> r[i] == ViewOf(cells[i])
  {
    if cells == [] then [] else Views(cells[..|cells| - 1]) + [ViewOf(cells[|cells| - 1])]
  }

  function Held(vs: seq<View>): (r: seq<multiset<Key>>)
    ensures |r| == |vs| && forall i :: 0 <= i < |vs| ==> r[i] == AllKeys(vs[i].slots)
  {
    seq(|vs|, i requires 0 <= i < |vs| => AllKeys(vs[i].slots))
  }

  // The cells of the table, and behind them the empty cells it is to grow into.
  ghost predicate InTable(t: Table, vs: seq<View>) {
    && t.Valid() && t.split < t.cells && t.NumCells() <= |vs|
    && (forall i :: 0 <= i < |vs| ==> vs[i].valid && UnusedFree(vs[i].slots))
    && (forall i :: t.NumCells() <= i < |vs| ==> vs[i].numPages == 0 && AllKeys(vs[i].slots) == multiset{})
  }

  ghost predicate PlacedIn(t: Table, vs: seq<View>) {
    InTable(t, vs) && Placed(t, Held(vs)[..t.NumCells()])
  }

  ghost predicate NonePinned(vs: seq<View>) {
    forall i :: 0 <= i < |vs| ==> Unpinned(vs[i].slots)
  }

  // The outcome of a split of the next cell: the views of it and of the new cell.
  ghost predicate Outcomes(t: Table, was: View, x: View, y: View, o: Outcome, extra: multiset<Key>)
    requires t.Valid()
  {
    && x.valid && y.valid && UnusedFree(x.slots)
    && AllKeys(x.slots) + AllKeys(y.slots) == AllKeys(was.slots) + extra && Blank(extra)
    && (Unpinned(was.slots) ==> Unpinned(x.slots))
    && (!o.MergedBack? ==> Unpinned(y.slots))
    && (o.Halved? ==> SplitInto(t, was.slots, x.slots, y.slots))
    && (o.MergedBack? ==> y.numPages == 0 && AllKeys(y.slots) == multiset{} && forall j :: 0 <= j < |y.slots| ==> y.slots[j].Hole?)
  }

  function NextOf(t: Table, o: Outcome): Table
    requires t.Valid() && t.split < t.cells
  {
    if o.Halved? then t.Next() else t
  }

  // What the outcome means for the table.
  lemma {:induction false} AfterSplit(t: Table, vs: seq<View>, vs': seq<View>, x: View, y: View, o: Outcome, extra: multiset<Key>)
    requires PlacedIn(t, vs) && t.cells + t.cells <= |vs| && Outcomes(t, vs[t.split], x, y, o, extra)
    requires vs' == vs[t.split := x][t.split + t.cells := y]
    ensures Total(Held(vs')) == Total(Held(vs)) + extra
    ensures !o.Overfull? ==> InTable(NextOf(t, o), vs')
    ensures o.Halved? ==> (PlacedIn(t.Next(), vs') <==> NoneStuck(t, vs[t.split].slots))
    ensures o.MergedBack? ==> PlacedIn(t, vs')
    ensures NonePinned(vs) ==> NonePinned(vs')
  {
    TotalKept(t, vs, vs', x, y, o, extra);
    TableAfter(t, vs, x, y, o, extra);
    PinsAfter(t, vs, x, y, o, extra);
    if o.Halved? {
      HalvedAfter(t, vs, vs', x, y, extra);
    } else if o.MergedBack? {
      MergedAfter(t, vs, vs', x, y, extra);
    }
  }

  lemma {:induction false} TotalKept(t: Table, vs: seq<View>, vs': seq<View>, x: View, y: View, o: Outcome, extra: multiset<Key>)
    requires InTable(t, vs) && t.cells + t.cells <= |vs| && Outcomes(t, vs[t.split], x, y, o, extra)
    requires vs' == vs[t.split := x][t.split + t.cells := y]
    ensures Total(Held(vs')) == Total(Held(vs)) + extra
  {
    HeldUpdate(vs, t.split, x, t.split + t.cells, y);
    TotalAfter(t, Held(vs), Held(vs'), AllKeys(x.slots), AllKeys(y.slots), extra);
  }

  lemma {:induction false} HalvedAfter(t: Table, vs: seq<View>, vs': seq<View>, x: View, y: View, extra: multiset<Key>)
    requires PlacedIn(t, vs) && t.cells + t.cells <= |vs| && Outcomes(t, vs[t.split], x, y, Halved, extra)
    requires vs' == vs[t.split := x][t.split + t.cells := y]
    requires InTable(t.Next(), vs')
    ensures PlacedIn(t.Next(), vs') <==> NoneStuck(t, vs[t.split].slots)
  {
    NextPlaced(t, vs');
    HalvedHeld(t, vs, vs', x, y, extra);
  }

  lemma {:induction false} HalvedHeld(t: Table, vs: seq<View>, vs': seq<View>, x: View, y: View, extra: multiset<Key>)
    requires PlacedIn(t, vs) && t.cells + t.cells <= |vs| && Outcomes(t, vs[t.split], x, y, Halved, extra)
    requires vs' == vs[t.split := x][t.split + t.cells := y]
    ensures Placed(t.Next(), Held(vs')[..t.NumCells() + 1]) <==> NoneStuck(t, vs[t.split].slots)
  {
    HeldUpdate(vs, t.split, x, t.split + t.cells, y);
    HalvedPlaced(t, Held(vs), Held(vs'), vs[t.split].slots, x.slots, y.slots, extra);
  }

  lemma {:induction false} OneCellMore(t: Table)
    requires t.Valid() && t.split < t.cells
    ensures t.Next().NumCells() == t.NumCells() + 1
  {
  }

  lemma {:induction false} NextPlaced(t: Table, vs: seq<View>)
    requires t.Valid() && t.split < t.cells && InTable(t.Next(), vs)
    ensures PlacedIn(t.Next(), vs) <==> t.NumCells() + 1 <= |vs| && Placed(t.Next(), Held(vs)[..t.NumCells() + 1])
  {
    OneCellMore(t);
  }

  lemma {:induction false} MergedAfter(t: Table, vs: seq<View>, vs': seq<View>, x: View, y: View, extra: multiset<Key>)
    requires PlacedIn(t, vs) && t.cells + t.cells <= |vs| && Outcomes(t, vs[t.split], x, y, MergedBack, extra)
    requires vs' == vs[t.split := x][t.split + t.cells := y]
    requires InTable(t, vs')
    ensures PlacedIn(t, vs')
  {
    HeldUpdate(vs, t.split, x, t.split + t.cells, y);
    assert AllKeys(x.slots) + AllKeys(y.slots) == AllKeys(x.slots);
    MergedBackPlaced(t, Held(vs), Held(vs'), AllKeys(x.slots), AllKeys(y.slots), extra);
  }

  lemma {:induction false} TotalAfter(t: Table, held: seq<multiset<Key>>, now: seq<multiset<Key>>, k: multiset<Key>, m: multiset<Key>, extra: multiset<Key>)
    requires t.cells > 0 && t.split + t.cells < |held| && held[t.split + t.cells] == multiset{} && k + m == held[t.split] + extra
    requires now == held[t.split := k][t.split + t.cells := m]
    ensures Total(now) == Total(held) + extra
  {
    TotalTwo(held, t.split, t.split + t.cells, k, m, extra);
  }

  lemma {:induction false} HeldUpdate(vs: seq<View>, i: nat, x: View, j: nat, y: View)
    requires i < |vs| && j < |vs|
    ensures Held(vs[i := x][j := y]) == Held(vs)[i := AllKeys(x.slots)][j := AllKeys(y.slots)]
  {
  }

  lemma {:induction false} TableAfter(t: Table, vs: seq<View>, x: View, y: View, o: Outcome, extra: multiset<Key>)
    requires InTable(t, vs) && t.cells + t.cells <= |vs| && Outcomes(t, vs[t.split], x, y, o, extra)
    ensures !o.Overfull? ==> InTable(NextOf(t, o), vs[t.split := x][t.split + t.cells := y])
  {
    EmptyUnused(y.slots);
  }

  lemma {:induction false} EmptyUnused(s: seq<Slot>)
    ensures (Unpinned(s) ==> UnusedFree(s)) && ((forall j :: 0 <= j < |s| ==> s[j].Hole?) ==> UnusedFree(s))
  {
  }

  lemma {:induction false} PinsAfter(t: Table, vs: seq<View>, x: View, y: View, o: Outcome, extra: multiset<Key>)
    requires InTable(t, vs) && t.cells + t.cells <= |vs| && Outcomes(t, vs[t.split], x, y, o, extra)
    ensures NonePinned(vs) ==> NonePinned(vs[t.split := x][t.split + t.cells := y])
  {
  }

  lemma {:induction false} HalvedPlaced(t: Table, held: seq<multiset<Key>>, now: seq<multiset<Key>>, before: seq<Slot>, kept: seq<Slot>, moved: seq<Slot>, extra: multiset<Key>)
    requires t.Valid() && t.split < t.cells && t.cells + t.cells <= |held| && Placed(t, held[..t.NumCells()])
    requires held[t.split] == AllKeys(before) && SplitInto(t, before, kept, moved)
    requires AllKeys(kept) + AllKeys(moved) == AllKeys(before) + extra && Blank(extra)
    requires now == held[t.split := AllKeys(kept)][t.NumCells() := AllKeys(moved)]
    ensures Placed(t.Next(), now[..t.NumCells() + 1]) <==> NoneStuck(t, before)
  {
    FirstCells(held, now, t.split, t.NumCells(), AllKeys(kept), AllKeys(moved));
    SplitPlacedIff(t, held[..t.NumCells()], before, kept, moved, extra);
  }

  lemma {:induction false} MergedBackPlaced(t: Table, held: seq<multiset<Key>>, now: seq<multiset<Key>>, k: multiset<Key>, m: multiset<Key>, extra: multiset<Key>)
    requires t.Valid() && t.split < t.cells && t.cells + t.cells <= |held| && Placed(t, held[..t.NumCells()])
    requires k == held[t.split] + extra && Blank(extra) && now == held[t.split := k][t.NumCells() := m]
    ensures Placed(t, now[..t.NumCells()])
  {
    FirstCells(held, now, t.split, t.NumCells(), k, m);
    MergedPlaced(t, held[..t.NumCells()], k, extra);
  }

  lemma {:induction false} FirstCells(held: seq<multiset<Key>>, now: seq<multiset<Key>>, i: nat, n: nat, k: multiset<Key>, m: multiset<Key>)
    requires i < n < |held| && now == held[i := k][n := m]
    ensures now[..n] == held[..n][i := k] && now[..n + 1] == held[..n][i := k] + [m]
  {
  }

  lemma {:induction false} MergedPlaced(t: Table, cells: seq<multiset<Key>>, kept: multiset<Key>, extra: multiset<Key>)
    requires Placed(t, cells) && t.split < t.cells && kept == cells[t.split] + extra && Blank(extra)
    ensures Placed(t, cells[t.split := kept])
  {
  }

  // Splits the next cell. Afterwards every page is where a lookup goes for it if and only if no
  // page that has to move was in use; no page is lost or doubled either way.
  method SplitNext(t: Table, cells: seq<PageCell>, minSize: nat, free: seq<nat>) returns (t': Table, o: Outcome, used: nat)
    requires Apart(cells) && t.cells + t.cells <= |cells| && PlacedIn(t, Views(cells))
    modifies cells[t.split], cells[t.split].buf, cells[t.split + t.cells], cells[t.split + t.cells].buf
    ensures used <= |free| && used <= CELL_SIZE && t' == NextOf(t, o)
    ensures Total(Held(Views(cells))) == Total(Held(old(Views(cells)))) + AllKeys(FreshPages(free[..used]))
    ensures !o.Overfull? ==> InTable(t', Views(cells))
    ensures o.Halved? ==> (PlacedIn(t', Views(cells)) <==> NoneStuck(t, old(Views(cells))[t.split].slots))
    ensures o.MergedBack? ==> PlacedIn(t', Views(cells))
    ensures NonePinned(old(Views(cells))) ==> NonePinned(Views(cells))
    ensures minSize > CELL_MIN_NUM_PAGES ==> !o.Halved?
    ensures minSize <= CELL_MIN_NUM_PAGES && |free| >= CELL_SIZE ==> o.Halved?
  {
    var cell, expanded := cells[t.split], cells[t.split + t.cells];
    ghost var was := Views(cells);
    ghost var x, y;
    o, used, x, y := SplitViews(t, cell, expanded, minSize, free);
    t' := NextOf(t, o);
    forall k | 0 <= k < |cells| && k != t.split && k != t.split + t.cells ensures ViewOf(cells[k]) == was[k] {
      assert was[k] == old(ViewOf(cells[k]));
    }
    TwoChanged(was, Views(cells), t.split, t.split + t.cells);
    AfterSplit(t, was, Views(cells), x, y, o, AllKeys(FreshPages(free[..used])));
  }

  lemma {:induction false} TwoChanged(was: seq<View>, now: seq<View>, i: nat, j: nat)
    requires i < j < |was| == |now| && forall k :: 0 <= k < |was| && k != i && k != j ==> now[k] == was[k]
    ensures now == was[i := now[i]][j := now[j]]
  {
  }

  method SplitViews(t: Table, cell: PageCell, expanded: PageCell, minSize: nat, free: seq<nat>)
    returns (o: Outcome, used: nat, ghost x: View, ghost y: View)
    requires t.Valid() && cell != expanded && cell.buf != expanded.buf && ViewOf(cell).valid && ViewOf(expanded).valid
    requires expanded.numPages == 0 && UnusedFree(cell.buf[..])
    modifies cell, cell.buf, expanded, expanded.buf
    ensures used <= |free| && used <= CELL_SIZE && x == ViewOf(cell) && y == ViewOf(expanded)
    ensures Outcomes(t, old(ViewOf(cell)), x, y, o, AllKeys(FreshPages(free[..used])))
    ensures minSize > CELL_MIN_NUM_PAGES ==> !o.Halved?
    ensures minSize <= CELL_MIN_NUM_PAGES && |free| >= CELL_SIZE ==> o.Halved?
  {
    ghost var was, k, m := ViewOf(cell), 0, 0;
    OccupiedFits(cell.buf[..], cell.buf.Length);
    o, used, k, m := SplitCell(t, cell, expanded, minSize, free);
    x, y := ViewOf(cell), ViewOf(expanded);
    HalvedWhen(k, m, minSize, |free|);
    IsOutcome(t, was, x, y, o, free[..used], expanded.maps);
  }

  lemma {:induction false} IsOutcome(t: Table, was: View, x: View, y: View, o: Outcome, pages: seq<nat>, maps: seq<nat>)
    requires t.Valid() && x.valid && y.valid && UnusedFree(x.slots)
    requires AllKeys(x.slots) + AllKeys(y.slots) == AllKeys(was.slots) + AllKeys(FreshPages(pages))
    requires (Unpinned(was.slots) ==> Unpinned(x.slots)) && (!o.MergedBack? ==> Unpinned(y.slots))
    requires o.Halved? ==> SplitInto(t, was.slots, x.slots, y.slots)
    requires o.MergedBack? ==> y.numPages == 0 && maps == [] == Occupied(y.slots, |y.slots|)
    ensures Outcomes(t, was, x, y, o, AllKeys(FreshPages(pages)))
  {
    FreshBlank(pages);
    if o.MergedBack? { NoPages(y.slots, maps); }
  }

  // Splits cell after cell until the table goes up a level or a cell cannot be split. With no
  // page in use, every page is then where a lookup goes for it, and none is lost or doubled.
  method SplitLevel(t: Table, cells: seq<PageCell>, minSize: nat, free: seq<nat>) returns (t': Table, o: Outcome, used: nat)
    requires Apart(cells) && t.cells + t.cells <= |cells| && PlacedIn(t, Views(cells)) && NonePinned(Views(cells))
    modifies cells, set c | c in cells :: c.buf
    ensures used <= |free| && Total(Held(Views(cells))) == Total(Held(old(Views(cells)))) + AllKeys(FreshPages(free[..used]))
    ensures !o.Overfull? ==> PlacedIn(t', Views(cells)) && NonePinned(Views(cells))
    ensures o.Halved? ==> t' == Table(t.cells + t.cells, 0, t.factor)
    ensures minSize > CELL_MIN_NUM_PAGES ==> !o.Halved?
    ensures minSize <= CELL_MIN_NUM_PAGES && |free| >= ToSplit(t, t) * CELL_SIZE ==> o.Halved?
  {
    ghost var was := Views(cells);
    t', o, used := SplitAll(t, cells, minSize, free);
    EndSoFar(t, was, t', Views(cells), o, minSize, free, used);
  }

  method SplitAll(t: Table, cells: seq<PageCell>, minSize: nat, free: seq<nat>) returns (t': Table, o: Outcome, used: nat)
    requires Apart(cells) && t.cells + t.cells <= |cells| && PlacedIn(t, Views(cells)) && NonePinned(Views(cells))
    modifies cells, set c | c in cells :: c.buf
    ensures SoFar(t, old(Views(cells)), t', Views(cells), o, minSize, free, used) && !(o.Halved? && t'.cells == t.cells)
  {
    t', o, used := t, Halved, 0;
    ghost var was := Views(cells);
    StartSoFar(t, was, minSize, free);
    while o.Halved? && t'.cells == t.cells
      invariant SoFar(t, was, t', Views(cells), o, minSize, free, used)
      decreases o.Halved?, ToSplit(t, t')
    {
      var more: nat;
      t', o, more := SplitOneSoFar(t, was, t', cells, minSize, free, used);
      used := used + more;
    }
  }

  method SplitOneSoFar(t: Table, ghost was: seq<View>, from: Table, cells: seq<PageCell>, minSize: nat, free: seq<nat>, used: nat)
    returns (t': Table, o: Outcome, more: nat)
    requires Apart(cells) && t.Valid() && t.cells + t.cells <= |cells| && from.cells == t.cells
    requires SoFar(t, was, from, Views(cells), Halved, minSize, free, used)
    modifies cells, set c | c in cells :: c.buf
    ensures SoFar(t, was, t', Views(cells), o, minSize, free, used + more)
    ensures o.Halved? ==> ToSplit(t, t') < ToSplit(t, from)
  {
    ghost var now := Views(cells);
    t', o, more := SplitOneOf(from, cells, minSize, free[used..]);
    NextSoFar(t, was, from, now, t', Views(cells), o, minSize, free, used, more);
  }

  lemma {:induction false} StartSoFar(t: Table, was: seq<View>, minSize: nat, free: seq<nat>)
    requires PlacedIn(t, was) && NonePinned(was)
    ensures SoFar(t, was, t, was, Halved, minSize, free, 0)
  {
    NoneUsed(Total(Held(was)), free);
  }

  lemma {:induction false} EndSoFar(t: Table, was: seq<View>, t': Table, now: seq<View>, o: Outcome, minSize: nat, free: seq<nat>, used: nat)
    requires t.Valid() && t.split < t.cells && SoFar(t, was, t', now, o, minSize, free, used) && !(o.Halved? && t'.cells == t.cells)
    ensures used <= |free| && Total(Held(now)) == Total(Held(was)) + AllKeys(FreshPages(free[..used]))
    ensures !o.Overfull? ==> PlacedIn(t', now) && NonePinned(now)
    ensures o.Halved? ==> t' == Table(t.cells + t.cells, 0, t.factor)
    ensures minSize > CELL_MIN_NUM_PAGES ==> !o.Halved?
    ensures minSize <= CELL_MIN_NUM_PAGES && |free| >= ToSplit(t, t) * CELL_SIZE ==> o.Halved?
  {
  }

  // What holds while the cells are split one after the other.
  ghost predicate SoFar(t: Table, was: seq<View>, t': Table, now: seq<View>, o: Outcome, minSize: nat, free: seq<nat>, used: nat) {
    && used <= |free| && Total(Held(now)) == Total(Held(was)) + AllKeys(FreshPages(free[..used]))
    && (!o.Overfull? ==> PlacedIn(t', now) && NonePinned(now))
    && Going(t, t') && (minSize > CELL_MIN_NUM_PAGES ==> !o.Halved? || t' == t)
    && (minSize <= CELL_MIN_NUM_PAGES && |free| >= ToSplit(t, t) * CELL_SIZE ==>
          o.Halved? && |free| - used >= ToSplit(t, t') * CELL_SIZE)
  }

  lemma {:induction false} NextSoFar(t: Table, was: seq<View>, from: Table, now: seq<View>, t': Table, now': seq<View>, o: Outcome, minSize: nat, free: seq<nat>, used: nat, more: nat)
    requires t.Valid() && SoFar(t, was, from, now, Halved, minSize, free, used) && from.cells == t.cells
    requires more <= |free| - used && more <= CELL_SIZE && t' == NextOf(from, o)
    requires Total(Held(now')) == Total(Held(now)) + AllKeys(FreshPages(free[used..][..more]))
    requires !o.Overfull? ==> PlacedIn(t', now') && NonePinned(now')
    requires minSize > CELL_MIN_NUM_PAGES ==> !o.Halved?
    requires minSize <= CELL_MIN_NUM_PAGES && |free| - used >= CELL_SIZE ==> o.Halved?
    ensures SoFar(t, was, t', now', o, minSize, free, used + more)
    ensures o.Halved? ==> ToSplit(t, t') < ToSplit(t, from)
  {
    UsedMore(Total(Held(was)), free, used, more);
    NextGoing(t, from);
  }

  // The same, of a table among whose cells no page is in use.
  method SplitOneOf(t: Table, cells: seq<PageCell>, minSize: nat, free: seq<nat>) returns (t': Table, o: Outcome, used: nat)
    requires Apart(cells) && t.cells + t.cells <= |cells| && PlacedIn(t, Views(cells)) && NonePinned(Views(cells))
    modifies cells, set c | c in cells :: c.buf
    ensures used <= |free| && used <= CELL_SIZE && t' == NextOf(t, o)
    ensures Total(Held(Views(cells))) == Total(Held(old(Views(cells)))) + AllKeys(FreshPages(free[..used]))
    ensures !o.Overfull? ==> PlacedIn(t', Views(cells)) && NonePinned(Views(cells))
    ensures minSize > CELL_MIN_NUM_PAGES ==> !o.Halved?
    ensures minSize <= CELL_MIN_NUM_PAGES && |free| >= CELL_SIZE ==> o.Halved?
  {
    ghost var was := Views(cells);
    var cell, expanded := cells[t.split], cells[t.split + t.cells];
    assert cell in cells && expanded in cells;
    assert cell.buf in (set c | c in cells :: c.buf) && expanded.buf in (set c | c in cells :: c.buf);
    t', o, used := SplitNext(t, cells, minSize, free);
    UnpinnedUnstuck(t, was[t.split].slots);
  }

  lemma {:induction false} UnpinnedUnstuck(t: Table, s: seq<Slot>)
    requires t.Valid()
    ensures Unpinned(s) ==> NoneStuck(t, s)
  {
  }

  ghost predicate Going(t: Table, t': Table) {
    t'.factor == t.factor && ((t'.cells == t.cells && t.split <= t'.split < t.cells) || t' == Table(t.cells + t.cells, 0, t.factor))
  }

  // The cells of the level still to be split.
  function ToSplit(t: Table, t': Table): nat {
    if t'.cells == t.cells && t'.split < t.cells then t.cells - t'.split else 0
  }

  lemma {:induction false} NextGoing(t: Table, t': Table)
    requires t.Valid() && Going(t, t') && t'.cells == t.cells
    ensures Going(t, t'.Next()) && ToSplit(t, t'.Next()) == ToSplit(t, t') - 1
  {
  }

  lemma {:induction false} NoneUsed(was: multiset<Key>, free: seq<nat>)
    ensures was == was + AllKeys(FreshPages(free[..0]))
  {
  }

  lemma {:induction false} UsedMore(was: multiset<Key>, free: seq<nat>, used: nat, more: nat)
    requires used + more <= |free|
    ensures was + AllKeys(FreshPages(free[..used])) + AllKeys(FreshPages(free[used..][..more])) == was + AllKeys(FreshPages(free[..used + more]))
  {
    FreeAppend(free, used, more);
  }
}
