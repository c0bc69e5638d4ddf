/** One cell of the page cache: lookups that evict on a miss, and releases of references. */
module HashCell {
  import opened CachePage
  import opened ClockEviction

  const MAX_HITS: nat := 255

  datatype Op = Search(id: PageId) | Peek(id: PageId) | Release(i: nat) | Write(i: nat)

  // What the properties over sequences of operations speak about.
  datatype Snapshot = Snapshot(ids: seq<PageId>, refs: seq<nat>, hits: seq<nat>)

  ghost predicate Unique(ids: seq<PageId>) {
    forall i, j :: 0 <= i < j < |ids| && ids[i].Page? ==> ids[i] != ids[j]
  }

  // A page with references keeps its id.
  ghost predicate PinsKept(s: Snapshot, s': Snapshot) {
    && |s.ids| == |s.refs| == |s'.ids|
    && forall i :: 0 <= i < |s.ids| && s.refs[i] > 0 ==> s'.ids[i] == s.ids[i]
  }

  ghost predicate Good(s: Snapshot) {
    Unique(s.ids) && forall i :: 0 <= i < |s.hits| ==> s.hits[i] <= MAX_HITS
  }

  // The eviction policy a cache is built with.
  datatype Policy = Counting(gclock: GClock) | OneBit(clock: Clock) {
    function State(): object {
      match this
      case Counting(g) => g
      case OneBit(c) => c
    }
  }

  class Cell {
    const size: nat
    const ids: array<PageId>
    const refs: array<nat>
    const hits: array<nat>
    const dirty: array<bool>
    const oldDirty: array<bool>
    const policy: Policy

    ghost predicate Shape() {
      && size > 0 && ids.Length == refs.Length == hits.Length == dirty.Length == oldDirty.Length == size
      && refs != hits && dirty != oldDirty
    }

    ghost function Now(): Snapshot
      reads ids, refs, hits
    {
      Snapshot(ids[..], refs[..], hits[..])
    }

    ghost predicate Valid()
      reads ids, refs, hits
    {
      Shape() && Good(Now())
    }

    constructor (size: nat, policy: Policy)
      requires size > 0
      ensures Valid() && this.size == size && this.policy == policy && fresh(ids) && fresh(refs) && fresh(hits)
      ensures forall i :: 0 <= i < size ==> ids[i] == Nothing && refs[i] == 0
    {
      this.size := size;
      ids := new PageId[size](_ => Nothing);
      refs := new nat[size](_ => 0);
      hits := new nat[size](_ => 0);
      dirty := new bool[size](_ => false);
      oldDirty := new bool[size](_ => false);
      this.policy := policy;
    }

    // The frame that holds the id, or -1.
    method Find(id: PageId) returns (i: int)
      requires Valid() && id.Page?
      ensures -1 <= i < size && (i >= 0 <==> id in ids[..]) && (i >= 0 ==> ids[i] == id)
    {
      i := 0;
      while i < size
        invariant 0 <= i <= size && forall j :: 0 <= j < i ==> ids[j] != id
      {
        if ids[i] == id {
          return;
        }
        i := i + 1;
      }
      i := -1;
    }

    // A lookup that has no other effect than a reference.
    method PeekPage(id: PageId) returns (ret: int)
      requires Valid() && id.Page?
      modifies refs
      ensures Valid() && ids[..] == old(ids[..]) && hits[..] == old(hits[..])
      ensures -1 <= ret < size && (ret >= 0 <==> id in ids[..]) && (ret >= 0 ==> ids[ret] == id)
      ensures refs[..] == if ret < 0 then old(refs[..]) else old(refs[..])[ret := old(refs[ret]) + 1]
    {
      ret := Find(id);
      if ret >= 0 {
        refs[ret] := refs[ret] + 1;
      }
    }

    // Asks the policy for a victim.
    method FindVictim() returns (ret: int)
      requires Shape()
      modifies hits, policy.State()
      ensures -1 <= ret < size && (ret >= 0 ==> refs[ret] == 0)
      ensures forall i :: 0 <= i < size ==> hits[i] <= old(hits[i])
    {
      var pinned := seq(size, i requires 0 <= i < refs.Length reads refs => refs[i] > 0);
      ghost var probes;
      match policy
      case Counting(g) => ret, probes := g.EvictPage(pinned, dirty[..], hits);
      case OneBit(c) => ret, probes := c.EvictPage(pinned, dirty[..], hits);
    }

    // Makes room by evicting an unreferenced page.
    method Evict(id: PageId) returns (ret: int)
      requires Valid() && id.Page? && id !in ids[..]
      modifies ids, hits, dirty, oldDirty, policy.State()
      ensures Valid() && -1 <= ret < size
      ensures ret < 0 ==> ids[..] == old(ids[..])
      ensures ret >= 0 ==> refs[ret] == 0 && ids[..] == old(ids[..])[ret := id]
    {
      ret := FindVictim();
      assert forall i :: 0 <= i < size ==> hits[i] <= old(hits[i]) == old(Now()).hits[i];
      if ret >= 0 {
        if dirty[ret] && !oldDirty[ret] {
          dirty[ret], oldDirty[ret] := false, true;
        }
        UniqueAfter(ids[..], ret, id);
        ghost var before := ids[..];
        ids[ret] := id;
        assert ids[..] == before[ret := id];
      }
    }

    // Halves all hits when the page's count is full, then counts the hit.
    method CountHit(i: nat)
      requires Valid() && i < size
      modifies hits
      ensures Valid() && hits[i] > 0
      ensures forall j :: 0 <= j < size && j != i ==> hits[j] == old(hits[j]) || hits[j] == old(hits[j]) / 2
    {
      assert forall j :: 0 <= j < size ==> hits[j] == Now().hits[j];
      if hits[i] == MAX_HITS {
        for k := 0 to size
          invariant forall j :: 0 <= j < size ==> hits[j] == (if j < k then old(hits[j]) / 2 else old(hits[j]))
        {
          hits[k] := hits[k] / 2;
        }
      }
      hits[i] := hits[i] + 1;
    }

    // A lookup: a hit exactly when the page is resident; otherwise an unreferenced page
    // gives way, or nothing happens because none was found.
    method SearchPage(id: PageId) returns (ret: int)
      requires Valid() && id.Page?
      modifies ids, refs, hits, dirty, oldDirty, policy.State()
      ensures Valid() && -1 <= ret < size
      ensures id in old(ids[..]) ==> ret >= 0 && ids[..] == old(ids[..]) && ids[ret] == id
      ensures id !in old(ids[..]) && ret >= 0 ==> old(refs[ret]) == 0 && ids[..] == old(ids[..])[ret := id]
      ensures ret < 0 ==> id !in old(ids[..]) && ids[..] == old(ids[..]) && refs[..] == old(refs[..])
      ensures ret >= 0 ==> refs[..] == old(refs[..])[ret := old(refs[ret]) + 1] && hits[ret] > 0
    {
      ret := Find(id);
      if ret < 0 {
        ret := Evict(id);
        if ret < 0 {
          return;
        }
      }
      refs[ret] := refs[ret] + 1;
      CountHit(ret);
    }

    method ReleasePage(i: nat)
      requires Valid() && i < size && refs[i] > 0
      modifies refs
      ensures Valid() && ids[..] == old(ids[..]) && hits[..] == old(hits[..])
      ensures refs[..] == old(refs[..])[i := old(refs[i]) - 1]
    {
      refs[i] := refs[i] - 1;
    }

    // One operation of a client; releases without a reference do not occur.
    method Do(op: Op)
      requires Valid()
      modifies ids, refs, hits, dirty, oldDirty, policy.State()
      ensures Valid() && PinsKept(old(Now()), Now())
    {
      ghost var before := Now();
      match op
      case Search(id) =>
        if id.Page? {
          var r := SearchPage(id);
        }
      case Peek(id) =>
        if id.Page? {
          var r := PeekPage(id);
        }
      case Release(i) =>
        if i < size && refs[i] > 0 {
          ReleasePage(i);
        }
      case Write(i) =>
        if i < size {
          dirty[i] := true;
        }
    }
  }

  lemma {:induction false} UniqueAfter(ids: seq<PageId>, k: nat, id: PageId)
    requires Unique(ids) && k < |ids| && id !in ids
    ensures Unique(ids[k := id])
  {
  }

  // Over any sequence of operations: no id is in two frames, no pinned page changes its
  // id, no count exceeds a byte.
  method Run(c: Cell, ops: seq<Op>) returns (ghost trace: seq<Snapshot>)
    requires c.Valid()
    modifies c.ids, c.refs, c.hits, c.dirty, c.oldDirty, c.policy.State()
    ensures c.Valid() && |trace| == |ops| + 1 && trace[0] == old(c.Now()) && trace[|ops|] == c.Now()
    ensures forall t :: 0 <= t <= |ops| ==> Good(trace[t])
    ensures forall t, u :: 0 <= t < u <= |ops| && u == t + 1 ==> PinsKept(trace[t], trace[u])
  {
    trace := [c.Now()];
    for i := 0 to |ops|
      invariant c.Valid() && |trace| == i + 1 && trace[0] == old(c.Now()) && trace[i] == c.Now()
      invariant forall t :: 0 <= t <= i ==> Good(trace[t])
      invariant forall t, u :: 0 <= t < u <= i && u == t + 1 ==> PinsKept(trace[t], trace[u])
    {
      c.Do(ops[i]);
      trace := trace + [c.Now()];
    }
  }

  // A page that stays referenced stays what it is.
  lemma {:induction false} PinnedKeepsId(trace: seq<Snapshot>, t: nat, u: nat, i: nat)
    requires t <= u < |trace| && i < |trace[t].ids|
    requires forall v, w :: t <= v < w <= u && w == v + 1 ==> PinsKept(trace[v], trace[w])
    requires forall v :: t <= v < u ==> i < |trace[v].refs| && trace[v].refs[i] > 0
    ensures i < |trace[u].ids| && trace[u].ids[i] == trace[t].ids[i]
  {
    if t < u {
      PinnedKeepsId(trace, t, u - 1, i);
      assert PinsKept(trace[u - 1], trace[u]);
    }
  }
}
