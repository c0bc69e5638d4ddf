/** The stolen-vertex bitmap and the two counters always agree with who holds what. */
module LevelSteal {
  import opened LevelState
  import opened LevelInvariant
  import opened LevelCore

  // Every worker's steal state after a step of worker t.
  lemma {:induction false} StealAfter(cfg: Config, s: State, t: nat, op: Op, k: nat)
    requires cfg.Valid() && Enabled(cfg, s, By(t, op)) && k < cfg.n
    requires op.StealSome? || op.Prepare? || op.MarkOne? || op.CountStolen? ==> s.ws[t].victim != t
    requires op.ReturnPart? && s.ws[t].pc.i == t ==> OfPart(s.ws[t].h.completed, t) == {}
    requires op.ClearOne? ==> s.ws[t].pc.i != t
    ensures |Workers(cfg, s, t, op)| == cfg.n
    ensures
      var w := s.ws[t];
      var st' := Workers(cfg, s, t, op)[k].st;
      if k == t then st' == NextSteal(w.st, op)
      else if k == Peer(w, t, op) then st' == TouchedSteal(w, s.ws[k].st, op)
      else st' == s.ws[k].st
  {
    Frame(cfg, s, t, op, k);
    assert s.ws[t].st.back + {} == s.ws[t].st.back;
  }

  // What a step does to an item somebody else than its owner has fetched before.
  lemma {:induction false} ItemAfter(cfg: Config, s: State, t: nat, op: Op, x: Item)
    requires Core(cfg, s) && Enabled(cfg, s, By(t, op)) && Foreign(s, x)
    ensures
      var s' := Apply(cfg, s, By(t, op));
      && Foreign(s', x) && s'.fetchedBy[x] == s.fetchedBy[x]
      && Holder(s', x).h == (if s.fetchedBy[x] == t then NextHands(cfg, s.ws[t], t, op)
                             else if op.StealSome? && s.fetchedBy[x] == s.ws[t].victim then
                               Holder(s, x).h.(queue := Holder(s, x).h.queue - op.got)
                             else Holder(s, x).h)
      && Holder(s', x).pc == (if s.fetchedBy[x] == t then NextPc(cfg, s, t, op) else Holder(s, x).pc)
      && (Fetching(op) ==> x !in op.got)
  {
    if Fetching(op) { GotUnfetched(cfg, s, t, op); }
    FetchedAfter(cfg, s, t, op, x);
    HandsAfter(cfg, s, t, op, s.fetchedBy[x]);
  }

  // What an operation of worker t does to a stolen main vertex it holds already, or does not hold.
  lemma {:induction false} ItemMover(cfg: Config, s: State, t: nat, op: Op, x: Item)
    requires Shaped(cfg, s, t, op) && x.Main? && x.part != t
    requires Fetching(op) ==> x !in op.got
    ensures
      var h := s.ws[t].h;
      var h' := NextHands(cfg, s.ws[t], t, op);
      && (Holds(h', x) <==> Holds(h, x) && op != ClearOne(x))
      && (x in h'.toMark <==> x in h.toMark && op != MarkOne(x))
      && (x in h'.batch <==> x in h.batch && !op.AccountBatch?)
      && (x in h'.returning <==> (x in h.returning && op != ClearOne(x))
                                 || (op.ReturnPart? && x in h.completed && x.part == s.ws[t].pc.i))
  {
  }

  // The places of a stolen main vertex before and after a step.
  lemma {:induction false} PlacesAfter(cfg: Config, s: State, t: nat, op: Op, x: Item)
    requires Core(cfg, s) && Enabled(cfg, s, By(t, op)) && Foreign(s, x) && x.Main?
    ensures
      var s' := Apply(cfg, s, By(t, op));
      var mine := s.fetchedBy[x] == t;
      var h := Holder(s, x).h;
      && Foreign(s', x) && s'.fetchedBy[x] == s.fetchedBy[x]
      && var h' := Holder(s', x).h;
      && Holder(s', x).pc == (if mine then NextPc(cfg, s, t, op) else Holder(s, x).pc)
      && (Holds(h', x) <==> Holds(h, x) && !(mine && op == ClearOne(x)))
      && (x in h'.toMark <==> x in h.toMark && !(mine && op == MarkOne(x)))
      && (x in h'.batch <==> x in h.batch && !(mine && op.AccountBatch?))
      && (x in h'.returning <==> (x in h.returning && !(mine && op == ClearOne(x)))
                                 || (mine && op.ReturnPart? && x in h.completed && x.part == s.ws[t].pc.i))
  {
    ItemAfter(cfg, s, t, op, x);
    assert ItemShape(cfg, s.ws[t].pc, s.ws[t].victim, s.ws[t].h, t);
    if s.fetchedBy[x] == t {
      ItemMover(cfg, s, t, op, x);
    }
  }

  // What an operation of worker t newly steals.
  lemma {:induction false} FreshlyStolen(cfg: Config, s: State, t: nat, op: Op, x: Item)
    requires Core(cfg, s) && Enabled(cfg, s, By(t, op))
    requires x !in s.fetchedBy
    ensures
      var s' := Apply(cfg, s, By(t, op));
      && (Foreign(s', x) <==> op.StealSome? && x in op.got)
      && (Foreign(s', x) ==> PreSpin(s', x) && PreCount(s', x) && x.part == s.ws[t].victim && s'.fetchedBy[x] == t
                             && Holder(s', x).pc.Prep? && (x.Main? ==> x in Holder(s', x).h.toMark))
  {
    if Fetching(op) { GotUnfetched(cfg, s, t, op); }
    FetchedAfter(cfg, s, t, op, x);
    HandsAfter(cfg, s, t, op, t);
  }

  lemma {:induction false} StealingMover(cfg: Config, s: State, t: nat, op: Op)
    requires cfg.Valid() && Enabled(cfg, s, By(t, op)) && Limbo(s.ws[t].pc)
    ensures Stealing(NextPc(cfg, s, t, op)) <==> Stealing(s.ws[t].pc) && !op.CountStolen?
    ensures Waiting(NextPc(cfg, s, t, op)) <==> Waiting(s.ws[t].pc) && !op.SpinExit?
    ensures Limbo(NextPc(cfg, s, t, op)) <==> !op.AccountBatch?
  {
  }

  lemma {:induction false} EverMarkedAfter(cfg: Config, s: State, t: nat, op: Op, x: Item)
    requires Core(cfg, s) && Enabled(cfg, s, By(t, op)) && x.Main?
    ensures
      var s' := Apply(cfg, s, By(t, op));
      EverMarked(s', x) <==> EverMarked(s, x) || (op == MarkOne(x) && Foreign(s, x) && s.fetchedBy[x] == t)
  {
    OwnFetchStays(cfg, s, t, op, x);
    if Foreign(s, x) {
      PlacesAfter(cfg, s, t, op, x);
    } else if x !in s.fetchedBy {
      FreshlyStolen(cfg, s, t, op, x);
    }
  }

  lemma {:induction false} InHandsAfter(cfg: Config, s: State, t: nat, op: Op, x: Item)
    requires Core(cfg, s) && Enabled(cfg, s, By(t, op)) && x.Main? && Foreign(s, x)
    ensures
      var s' := Apply(cfg, s, By(t, op));
      InHands(s', x) <==> InHands(s, x) && !(op == ClearOne(x) && s.fetchedBy[x] == t)
  {
    PlacesAfter(cfg, s, t, op, x);
  }

  lemma {:induction false} PreCountAfter(cfg: Config, s: State, t: nat, op: Op, x: Item)
    requires Core(cfg, s) && Enabled(cfg, s, By(t, op)) && x.Main? && Foreign(s, x)
    ensures
      var s' := Apply(cfg, s, By(t, op));
      && (PreCount(s', x) <==> PreCount(s, x) && !(op.CountStolen? && s.fetchedBy[x] == t))
      && (PreSpin(s', x) <==> PreSpin(s, x) && !(op.SpinExit? && s.fetchedBy[x] == t))
  {
    PlacesAfter(cfg, s, t, op, x);
    assert ItemShape(cfg, s.ws[t].pc, s.ws[t].victim, s.ws[t].h, t);
    if Limbo(s.ws[t].pc) {
      StealingMover(cfg, s, t, op);
    }
  }

  lemma {:induction false} GivenBackAfter(cfg: Config, s: State, t: nat, op: Op, x: Item)
    requires Core(cfg, s) && Enabled(cfg, s, By(t, op)) && x.Main? && Foreign(s, x)
    ensures
      var s' := Apply(cfg, s, By(t, op));
      GivenBack(s', x) <==> GivenBack(s, x) || (op.ReturnPart? && s.fetchedBy[x] == t && x in s.ws[t].h.completed && x.part == s.ws[t].pc.i)
  {
    PlacesAfter(cfg, s, t, op, x);
  }

  // An item fetched by its owner is never stolen.
  lemma {:induction false} OwnFetchStays(cfg: Config, s: State, t: nat, op: Op, x: Item)
    requires Core(cfg, s) && Enabled(cfg, s, By(t, op))
    ensures x in s.fetchedBy && !Foreign(s, x) ==> !Foreign(Apply(cfg, s, By(t, op)), x)
  {
    if Fetching(op) { GotUnfetched(cfg, s, t, op); }
    FetchedAfter(cfg, s, t, op, x);
  }

  // The side conditions of StealAfter, and what the touched records hold.
  lemma {:induction false} Reach(cfg: Config, s: State, t: nat, op: Op)
    requires Core(cfg, s) && Enabled(cfg, s, By(t, op))
    ensures op.StealSome? || op.Prepare? || op.MarkOne? || op.CountStolen? ==> s.ws[t].victim != t && s.ws[t].victim < cfg.n
    ensures op.ReturnPart? && s.ws[t].pc.i == t ==> OfPart(s.ws[t].h.completed, t) == {}
    ensures op.ClearOne? ==> s.ws[t].pc.i != t && op.x.Main? && op.x.part == s.ws[t].pc.i
    ensures op.MarkOne? ==> op.x.Main? && op.x.part == s.ws[t].victim && op.x in s.fetchedBy && s.fetchedBy[op.x] == t
    ensures op.ClearOne? ==> op.x in s.fetchedBy && s.fetchedBy[op.x] == t && EverMarked(s, op.x) && InHands(s, op.x)
    ensures op.MarkOne? ==> !EverMarked(s, op.x) && InHands(s, op.x) && Foreign(s, op.x)
  {
    var w := s.ws[t];
    if op.StealSome? { GotUnfetched(cfg, s, t, op); }
    assert ItemShape(cfg, w.pc, w.victim, w.h, t) && HeldOwned(s, t);
    if op.MarkOne? { assert op.x in w.h.batch; assert Holds(w.h, op.x); }
    if op.ClearOne? { assert Holds(w.h, op.x); }
  }

  lemma {:induction false} BitsStep(cfg: Config, s: State, t: nat, op: Op, k: nat, d: nat)
    requires Core(cfg, s) && Enabled(cfg, s, By(t, op)) && k < cfg.n && !(op.SwapQueues? && k == t)
    requires d in s.ws[k].st.bits <==> EverMarked(s, Main(k, d)) && InHands(s, Main(k, d))
    ensures
      var s' := Apply(cfg, s, By(t, op));
      && At(s', k)
      && (d in s'.ws[k].st.bits <==> EverMarked(s', Main(k, d)) && InHands(s', Main(k, d)))
  {
    var x := Main(k, d);
    Reach(cfg, s, t, op);
    StealAfter(cfg, s, t, op, k);
    EverMarkedAfter(cfg, s, t, op, x);
    if Foreign(s, x) { InHandsAfter(cfg, s, t, op, x); }
    BitsTouched(s.ws[t], s.ws[k].st, t, op, d);
  }

  // The only steps that touch a bit set or clear it.
  lemma {:induction false} BitsTouched(w: Worker, st: StealState, t: nat, op: Op, d: nat)
    ensures !op.SwapQueues? ==> NextSteal(st, op).bits == st.bits
    ensures
      var b := TouchedSteal(w, st, op).bits;
      if op.MarkOne? && op.x.id == d then d in b
      else if op.ClearOne? && op.x.id == d then d !in b
      else d in b <==> d in st.bits
  {
  }

  lemma {:induction false} TakenTouched(w: Worker, st: StealState, op: Op)
    ensures !op.SwapQueues? ==> NextSteal(st, op).taken == st.taken && NextSteal(st, op).numStolen == st.numStolen
    ensures
      var st' := TouchedSteal(w, st, op);
      var more := if op.CountStolen? then Mains(w.h.batch) else {};
      st'.taken == st.taken + more && st'.numStolen == st.numStolen + |more|
  {
  }

  predicate StolenFrom(s: State, k: nat, x: Item) {
    x.Main? && x.part == k && Foreign(s, x)
  }

  // A main vertex stolen from k after the step was stolen from k before, or is fresh loot.
  lemma {:induction false} StolenFromAfter(cfg: Config, s: State, t: nat, op: Op, k: nat, x: Item)
    requires Core(cfg, s) && Enabled(cfg, s, By(t, op))
    ensures
      var s' := Apply(cfg, s, By(t, op));
      StolenFrom(s', k, x) <==> StolenFrom(s, k, x) || (x.Main? && x.part == k && op.StealSome? && x in op.got)
  {
    OwnFetchStays(cfg, s, t, op, x);
    if Fetching(op) { GotUnfetched(cfg, s, t, op); }
    if Foreign(s, x) {
      ItemAfter(cfg, s, t, op, x);
    } else if x !in s.fetchedBy {
      FreshlyStolen(cfg, s, t, op, x);
    }
  }

  // The vertices about to be counted as stolen by worker t.
  lemma {:induction false} CountedNow(cfg: Config, s: State, t: nat, x: Item)
    requires Core(cfg, s) && Enabled(cfg, s, By(t, CountStolen))
    ensures x in Mains(s.ws[t].h.batch) <==> StolenFrom(s, s.ws[t].victim, x) && PreCount(s, x) && s.fetchedBy[x] == t
  {
    assert ItemShape(cfg, s.ws[t].pc, s.ws[t].victim, s.ws[t].h, t) && HeldOwned(s, t);
    StolenBatch(s, t, x);
  }

  // A thief's batch, as long as it has not been counted.
  lemma {:induction false} StolenBatch(s: State, t: nat, x: Item)
    requires At(s, t) && HeldOwned(s, t) && Stealing(s.ws[t].pc) && StealShape(s.ws[t].pc, s.ws[t].victim, s.ws[t].h, t)
    ensures x in Mains(s.ws[t].h.batch) <==> StolenFrom(s, s.ws[t].victim, x) && PreCount(s, x) && s.fetchedBy[x] == t
  {
    if x in s.ws[t].h.batch { assert Holds(s.ws[t].h, x); }
  }

  lemma {:induction false} TakenStep(cfg: Config, s: State, t: nat, op: Op, k: nat, x: Item)
    requires Core(cfg, s) && Enabled(cfg, s, By(t, op)) && k < cfg.n && !(op.SwapQueues? && k == t)
    requires x in s.ws[k].st.taken <==> StolenFrom(s, k, x) && !PreCount(s, x)
    ensures
      var s' := Apply(cfg, s, By(t, op));
      && At(s', k)
      && (x in s'.ws[k].st.taken <==> StolenFrom(s', k, x) && !PreCount(s', x))
  {
    Reach(cfg, s, t, op);
    StealAfter(cfg, s, t, op, k);
    TakenTouched(s.ws[t], s.ws[k].st, op);
    StolenFromAfter(cfg, s, t, op, k, x);
    if op.CountStolen? { CountedNow(cfg, s, t, x); }
    if StolenFrom(s, k, x) {
      PreCountAfter(cfg, s, t, op, x);
    } else if op.StealSome? && x in op.got {
      GotUnfetched(cfg, s, t, op);
      FreshlyStolen(cfg, s, t, op, x);
    }
  }

  lemma {:induction false} TakenCount(cfg: Config, s: State, t: nat, op: Op, k: nat)
    requires Core(cfg, s) && Enabled(cfg, s, By(t, op)) && k < cfg.n && !(op.SwapQueues? && k == t)
    requires TakenExact(s, k)
    ensures At(Apply(cfg, s, By(t, op)), k) && TakenExact(Apply(cfg, s, By(t, op)), k)
  {
    var s' := Apply(cfg, s, By(t, op));
    Reach(cfg, s, t, op);
    StealAfter(cfg, s, t, op, k);
    TakenTouched(s.ws[t], s.ws[k].st, op);
    forall x ensures x in s'.ws[k].st.taken <==> x.Main? && x.part == k && Foreign(s', x) && !PreCount(s', x) {
      assert x in s.ws[k].st.taken <==> StolenFrom(s, k, x) && !PreCount(s, x);
      TakenStep(cfg, s, t, op, k, x);
    }
    if op.CountStolen? && k == s.ws[t].victim { TakenApart(cfg, s, t); }
  }

  lemma {:induction false} TakenApart(cfg: Config, s: State, t: nat)
    requires Core(cfg, s) && Enabled(cfg, s, By(t, CountStolen)) && TakenExact(s, s.ws[t].victim)
    ensures Mains(s.ws[t].h.batch) !! s.ws[s.ws[t].victim].st.taken
  {
    forall x | x in Mains(s.ws[t].h.batch) ensures x !in s.ws[s.ws[t].victim].st.taken { CountedNow(cfg, s, t, x); }
  }

  lemma {:induction false} BackTouched(w: Worker, st: StealState, op: Op)
    requires op.ReturnPart? ==> w.pc.Return?
    ensures !op.SwapQueues? ==> NextSteal(st, op).back == st.back && NextSteal(st, op).numReturned == st.numReturned
    ensures
      var st' := TouchedSteal(w, st, op);
      var more := if op.ReturnPart? then OfPart(w.h.completed, w.pc.i) else {};
      st'.back == st.back + more && st'.numReturned == st.numReturned + |more|
  {
  }

  lemma {:induction false} ReturnedNow(cfg: Config, s: State, t: nat, x: Item)
    requires Core(cfg, s) && Enabled(cfg, s, By(t, ReturnPart))
    requires x in OfPart(s.ws[t].h.completed, s.ws[t].pc.i)
    ensures StolenFrom(s, s.ws[t].pc.i, x) && s.fetchedBy[x] == t && !GivenBack(s, x)
  {
    assert ItemShape(cfg, s.ws[t].pc, s.ws[t].victim, s.ws[t].h, t) && HeldOwned(s, t);
    assert Holds(s.ws[t].h, x);
  }

  // Vertices just stolen are not on their way back.
  lemma {:induction false} StolenNotBack(cfg: Config, s: State, t: nat, op: Op, x: Item)
    requires Core(cfg, s) && Enabled(cfg, s, By(t, op)) && op.StealSome? && x in op.got
    ensures !GivenBack(Apply(cfg, s, By(t, op)), x)
  {
    GotUnfetched(cfg, s, t, op);
    FreshlyStolen(cfg, s, t, op, x);
    HandsAfter(cfg, s, t, op, t);
    CoreAt(cfg, s, t);
    NothingReturning(cfg, s.ws[t].pc, s.ws[t].h, t, op);
  }

  lemma {:induction false} NothingReturning(cfg: Config, pc: Pc, h: Hands, t: nat, op: Op)
    requires pc.Steal? && ReturnShape(cfg, pc, h, t)
    ensures h.returning == {}
  {
  }

  lemma {:induction false} BackStep(cfg: Config, s: State, t: nat, op: Op, k: nat, x: Item)
    requires Core(cfg, s) && Enabled(cfg, s, By(t, op)) && k < cfg.n && !(op.SwapQueues? && k == t)
    requires x in s.ws[k].st.back <==> StolenFrom(s, k, x) && GivenBack(s, x)
    ensures
      var s' := Apply(cfg, s, By(t, op));
      && At(s', k)
      && (x in s'.ws[k].st.back <==> StolenFrom(s', k, x) && GivenBack(s', x))
  {
    Reach(cfg, s, t, op);
    StealAfter(cfg, s, t, op, k);
    BackTouched(s.ws[t], s.ws[k].st, op);
    StolenFromAfter(cfg, s, t, op, k, x);
    if op.ReturnPart? && x in OfPart(s.ws[t].h.completed, s.ws[t].pc.i) { ReturnedNow(cfg, s, t, x); }
    if StolenFrom(s, k, x) {
      GivenBackAfter(cfg, s, t, op, x);
    } else if op.StealSome? && x in op.got {
      StolenNotBack(cfg, s, t, op, x);
    }
  }

  lemma {:induction false} BackCount(cfg: Config, s: State, t: nat, op: Op, k: nat)
    requires Core(cfg, s) && Enabled(cfg, s, By(t, op)) && k < cfg.n && !(op.SwapQueues? && k == t)
    requires BackExact(s, k)
    ensures At(Apply(cfg, s, By(t, op)), k) && BackExact(Apply(cfg, s, By(t, op)), k)
  {
    var s' := Apply(cfg, s, By(t, op));
    Reach(cfg, s, t, op);
    StealAfter(cfg, s, t, op, k);
    BackTouched(s.ws[t], s.ws[k].st, op);
    if op.ReturnPart? && k == s.ws[t].pc.i { BackApart(cfg, s, t, k); }
    BackKept(cfg, s, t, op, k);
  }

  lemma {:induction false} BackKept(cfg: Config, s: State, t: nat, op: Op, k: nat)
    requires Core(cfg, s) && Enabled(cfg, s, By(t, op)) && k < cfg.n && !(op.SwapQueues? && k == t)
    requires BackExact(s, k)
    ensures
      var s' := Apply(cfg, s, By(t, op));
      At(s', k) && forall x :: x in s'.ws[k].st.back <==> x.Main? && x.part == k && GivenBack(s', x)
  {
    var s' := Apply(cfg, s, By(t, op));
    HandsAfter(cfg, s, t, op, k);
    forall x ensures x in s'.ws[k].st.back <==> x.Main? && x.part == k && GivenBack(s', x) {
      assert x in s.ws[k].st.back <==> StolenFrom(s, k, x) && GivenBack(s, x);
      BackStep(cfg, s, t, op, k, x);
    }
  }

  lemma {:induction false} BackApart(cfg: Config, s: State, t: nat, k: nat)
    requires Core(cfg, s) && Enabled(cfg, s, By(t, ReturnPart)) && k == s.ws[t].pc.i < cfg.n && BackExact(s, k)
    ensures OfPart(s.ws[t].h.completed, k) !! s.ws[k].st.back
  {
    forall x | x in OfPart(s.ws[t].h.completed, k) ensures x !in s.ws[k].st.back { ReturnedNow(cfg, s, t, x); }
  }

  // A partition that has been reset is left alone until the next level.
  lemma {:induction false} ResetStays(cfg: Config, s: State, t: nat, op: Op, k: nat)
    requires Core(cfg, s) && Enabled(cfg, s, By(t, op)) && k < cfg.n && Swapped(s.ws[k].pc) && ResetSteal(s.ws[k].st)
    ensures At(Apply(cfg, s, By(t, op)), k) && ResetSteal(Apply(cfg, s, By(t, op)).ws[k].st)
  {
    Reach(cfg, s, t, op);
    StealAfter(cfg, s, t, op, k);
    SwappedAlone(cfg, s, t, op, k);
  }

  lemma {:induction false} SwappedAlone(cfg: Config, s: State, t: nat, op: Op, k: nat)
    requires Core(cfg, s) && Enabled(cfg, s, By(t, op)) && k < cfg.n && Swapped(s.ws[k].pc)
    ensures k == t ==> op.ArriveOne?
    ensures k != t && k == Peer(s.ws[t], t, op) ==> op.FlushPart? || op.FlushEarly? || op.Send?
  {
    assert !s.ws[t].pc.Stopped?;
    assert Post(s.ws[t].pc);
    PostPeer(cfg, s, t, op);
  }

  lemma {:induction false} PostPeer(cfg: Config, s: State, t: nat, op: Op)
    requires cfg.Valid() && Enabled(cfg, s, By(t, op)) && Post(s.ws[t].pc)
    ensures Peer(s.ws[t], t, op) == t
    ensures Swapped(s.ws[t].pc) ==> op.ArriveOne?
  {
  }

  lemma {:induction false} StolenStep(cfg: Config, s: State, t: nat, op: Op)
    requires Core(cfg, s) && Stolen(cfg, s) && Enabled(cfg, s, By(t, op))
    ensures |Apply(cfg, s, By(t, op)).ws| == cfg.n && Stolen(cfg, Apply(cfg, s, By(t, op)))
  {
    var s' := Apply(cfg, s, By(t, op));
    HandsAfter(cfg, s, t, op, t);
    forall k | 0 <= k < cfg.n
      ensures if Swapped(s'.ws[k].pc) then ResetSteal(s'.ws[k].st) else BitsExact(s', k) && TakenExact(s', k) && BackExact(s', k)
    {
      StolenAt(cfg, s, t, op, k);
    }
  }

  lemma {:induction false} StolenAt(cfg: Config, s: State, t: nat, op: Op, k: nat)
    requires Core(cfg, s) && Stolen(cfg, s) && Enabled(cfg, s, By(t, op)) && k < cfg.n
    ensures
      var s' := Apply(cfg, s, By(t, op));
      && At(s', k)
      && if Swapped(s'.ws[k].pc) then ResetSteal(s'.ws[k].st) else BitsExact(s', k) && TakenExact(s', k) && BackExact(s', k)
  {
    var s' := Apply(cfg, s, By(t, op));
    Reach(cfg, s, t, op);
    HandsAfter(cfg, s, t, op, k);
    SwappedMover(cfg, s, t, op);
    if op.SwapQueues? && k == t {
      StealAfter(cfg, s, t, op, k);
    } else if Swapped(s.ws[k].pc) {
      ResetStays(cfg, s, t, op, k);
    } else {
      BitsKept(cfg, s, t, op, k);
      TakenCount(cfg, s, t, op, k);
      BackCount(cfg, s, t, op, k);
    }
  }

  lemma {:induction false} BitsKept(cfg: Config, s: State, t: nat, op: Op, k: nat)
    requires Core(cfg, s) && Enabled(cfg, s, By(t, op)) && k < cfg.n && !(op.SwapQueues? && k == t)
    requires BitsExact(s, k)
    ensures At(Apply(cfg, s, By(t, op)), k) && BitsExact(Apply(cfg, s, By(t, op)), k)
  {
    var s' := Apply(cfg, s, By(t, op));
    HandsAfter(cfg, s, t, op, k);
    forall d ensures d in s'.ws[k].st.bits <==> EverMarked(s', Main(k, d)) && InHands(s', Main(k, d)) {
      BitsStep(cfg, s, t, op, k, d);
    }
  }
}
