module LevelCore {
  import opened LevelState
  import opened LevelInvariant

  // A step of worker t changes the records of t and of the peer, and no other.
  lemma {:induction false} Frame(cfg: Config, s: State, t: nat, op: Op, k: nat)
    requires cfg.Valid() && Enabled(cfg, s, By(t, op)) && k < cfg.n
    ensures |Workers(cfg, s, t, op)| == cfg.n
    ensures
      var w' := Workers(cfg, s, t, op)[k];
      var p := Peer(s.ws[t], t, op);
      if k == t then w' == if p == t then Touched(s.ws[t], Mover(cfg, s, t, op), op) else Mover(cfg, s, t, op)
      else if k == p then w' == Touched(s.ws[t], s.ws[k], op)
      else w' == s.ws[k]
  {
  }

  ghost predicate Shaped(cfg: Config, s: State, t: nat, op: Op) {
    && cfg.Valid() && Enabled(cfg, s, By(t, op)) 
    && ItemShape(cfg, s.ws[t].pc, s.ws[t].victim, s.ws[t].h, t)
  }

  // The operations that move items.
  predicate Handling(op: Op) {
    || op.ReturnPart? || op.ClearOne? || op.FetchSome? || op.StealSome? || op.MarkOne?
    || op.AccountBatch? || op.Complete? || op.EndIteration? || op.SwapQueues?
  }

  lemma {:induction false} Quiet(cfg: Config, w: Worker, t: nat, op: Op)
    requires !Handling(op)
    ensures NextHands(cfg, w, t, op) == w.h
  {
  }

  // Where an operation that moves no items can lead from.
  lemma {:induction false} QuietPc(cfg: Config, s: State, t: nat, op: Op)
    requires cfg.Valid() && Enabled(cfg, s, By(t, op)) && !Handling(op)
    ensures
      var pc := s.ws[t].pc;
      var pc' := NextPc(cfg, s, t, op);
      && (Idle(pc') ==> Idle(pc) || op.LoopTest?)
      && (LootGone(pc') ==> LootGone(pc) || (op.ReturnDone? && pc.last))
      && (pc'.Steal? ==> pc.Steal? || op.FetchNone?)
      && (pc'.Arrive? || pc'.Barrier2? <==> (pc.Arrive? || pc.Barrier2?))
  {
  }

  lemma {:induction false} QuietSteal(cfg: Config, s: State, t: nat, op: Op)
    requires cfg.Valid() && Enabled(cfg, s, By(t, op)) && !Handling(op)
    ensures
      var pc := s.ws[t].pc;
      var pc' := NextPc(cfg, s, t, op);
      && (Stealing(pc') ==> Stealing(pc) && NextVictim(cfg, s.ws[t], t, op) == s.ws[t].victim)
      && (Limbo(pc) ==> Limbo(pc'))
      && (pc'.Prep? ==> pc.Prep?)
      && (pc'.Mark? ==> pc.Mark? || pc.Prep?)
      && ((pc.Prep? || pc.Mark?) && !pc'.Prep? && !pc'.Mark? ==> op.MarkDone?)
  {
  }

  lemma {:induction false} StealShapeMover(cfg: Config, s: State, t: nat, op: Op)
    requires Shaped(cfg, s, t, op)
    requires forall x :: x in s.ws[s.ws[t].victim].h.queue ==> x.part == s.ws[t].victim
    ensures StealShape(NextPc(cfg, s, t, op), NextVictim(cfg, s.ws[t], t, op), NextHands(cfg, s.ws[t], t, op), t)
  {
    if Handling(op) {
      StealShapeHandling(cfg, s, t, op);
    } else {
      Quiet(cfg, s.ws[t], t, op);
      QuietSteal(cfg, s, t, op);
    }
  }

  // The operations on items that are not in the stolen batch.
  lemma {:induction false} StealShapeAside(cfg: Config, s: State, t: nat, op: Op)
    requires Shaped(cfg, s, t, op) && Handling(op) && !op.FetchSome? && !op.StealSome? && !op.MarkOne? && !op.AccountBatch?
    ensures StealShape(NextPc(cfg, s, t, op), s.ws[t].victim, NextHands(cfg, s.ws[t], t, op), t)
  {
    AsidePc(cfg, s, t, op);
    AsideHands(cfg, s.ws[t], t, op);
  }

  lemma {:induction false} AsidePc(cfg: Config, s: State, t: nat, op: Op)
    requires cfg.Valid() && Enabled(cfg, s, By(t, op))
    requires Handling(op) && !op.FetchSome? && !op.StealSome? && !op.MarkOne? && !op.AccountBatch?
    ensures !Limbo(s.ws[t].pc) && !Limbo(NextPc(cfg, s, t, op))
  {
  }

  lemma {:induction false} AsideHands(cfg: Config, w: Worker, t: nat, op: Op)
    requires (op.ReturnPart? ==> w.pc.Return?) && !op.FetchSome? && !op.StealSome? && !op.MarkOne? && !op.AccountBatch?
    ensures NextHands(cfg, w, t, op).batch == w.h.batch && NextHands(cfg, w, t, op).toMark == w.h.toMark
  {
  }

  lemma {:induction false} StealShapeHandling(cfg: Config, s: State, t: nat, op: Op)
    requires Shaped(cfg, s, t, op) && Handling(op)
    requires forall x :: x in s.ws[s.ws[t].victim].h.queue ==> x.part == s.ws[t].victim
    ensures StealShape(NextPc(cfg, s, t, op), NextVictim(cfg, s.ws[t], t, op), NextHands(cfg, s.ws[t], t, op), t)
  {
    assert NextVictim(cfg, s.ws[t], t, op) == s.ws[t].victim;
    if !op.FetchSome? && !op.StealSome? && !op.MarkOne? && !op.AccountBatch? {
      StealShapeAside(cfg, s, t, op);
    }
  }

  lemma {:induction false} ReturnShapeMover(cfg: Config, s: State, t: nat, op: Op)
    requires Shaped(cfg, s, t, op)
    requires forall x :: x in s.ws[t].h.running ==> x.part < cfg.n
    ensures ReturnShape(cfg, NextPc(cfg, s, t, op), NextHands(cfg, s.ws[t], t, op), t)
  {
    if Handling(op) {
      ReturnShapeHandling(cfg, s, t, op);
    } else {
      Quiet(cfg, s.ws[t], t, op);
      QuietReturn(cfg, s, t, op);
    }
  }

  lemma {:induction false} QuietReturn(cfg: Config, s: State, t: nat, op: Op)
    requires Shaped(cfg, s, t, op) && !Handling(op)
    ensures ReturnShape(cfg, NextPc(cfg, s, t, op), s.ws[t].h, t)
  {
    QuietReturnPc(cfg, s, t, op);
    QuietReturnShape(cfg, s.ws[t].pc, NextPc(cfg, s, t, op), s.ws[t].h, t);
  }

  // The next part to be returned, the first one, or none.
  predicate PartAfter(pc: Pc, pc': Pc, h: Hands) {
    && (pc'.Return? ==> pc'.i == 0 || (pc.Clear? && pc'.i == pc.i + 1) || pc' == pc)
    && (pc'.Clear? ==> pc' == pc)
    && (pc.Clear? && !pc'.Clear? ==> h.returning == {})
  }

  lemma {:induction false} QuietReturnPc(cfg: Config, s: State, t: nat, op: Op)
    requires cfg.Valid() && Enabled(cfg, s, By(t, op)) && !Handling(op)
    ensures PartAfter(s.ws[t].pc, NextPc(cfg, s, t, op), s.ws[t].h)
  {
  }

  lemma {:induction false} QuietReturnShape(cfg: Config, pc: Pc, pc': Pc, h: Hands, t: nat)
    requires ReturnShape(cfg, pc, h, t) && PartAfter(pc, pc', h)
    ensures ReturnShape(cfg, pc', h, t)
  {
  }

  lemma {:induction false} ReturnShapeHandling(cfg: Config, s: State, t: nat, op: Op)
    requires Shaped(cfg, s, t, op) && Handling(op)
    requires forall x :: x in s.ws[t].h.running ==> x.part < cfg.n
    ensures ReturnShape(cfg, NextPc(cfg, s, t, op), NextHands(cfg, s.ws[t], t, op), t)
  {
    if op.ReturnPart? {
      PartTaken(cfg, s.ws[t].pc, s.ws[t].h, t);
    } else if op.ClearOne? {
      OneCleared(cfg, s.ws[t].pc, s.ws[t].h, t, op.x);
    } else {
      HandlingElsewhere(cfg, s, t, op);
      if op.Complete? {
        OneCompleted(cfg, s.ws[t].pc, s.ws[t].h, t, op.x);
      } else {
        LootLeft(cfg, s.ws[t], t, op);
        ShapeElsewhere(cfg, s.ws[t].pc, NextPc(cfg, s, t, op), s.ws[t].h, NextHands(cfg, s.ws[t], t, op), t);
      }
    }
  }

  // The loot of one partition is taken up to be returned.
  lemma {:induction false} PartTaken(cfg: Config, pc: Pc, h: Hands, t: nat)
    requires ReturnShape(cfg, pc, h, t) && pc.Return? && pc.i < cfg.n
    ensures
      var got := OfPart(h.completed, pc.i);
      var h' := h.(completed := h.completed - got, returning := got);
      ReturnShape(cfg, if got == {} then Return(pc.i + 1, pc.last) else Clear(pc.i, pc.last), h', t)
  {
  }

  lemma {:induction false} OneCleared(cfg: Config, pc: Pc, h: Hands, t: nat, x: Item)
    requires ReturnShape(cfg, pc, h, t) && pc.Clear?
    ensures ReturnShape(cfg, pc, h.(returning := h.returning - {x}), t)
  {
  }

  lemma {:induction false} OneCompleted(cfg: Config, pc: Pc, h: Hands, t: nat, x: Item)
    requires ReturnShape(cfg, pc, h, t) && pc.Work? && x.part < cfg.n
    ensures
      ReturnShape(cfg, pc, h.(running := h.running - {x}, finished := h.finished + 1,
        completed := if x.Main? && x.part != t then h.completed + {x} else h.completed), t)
  {
  }

  // The other operations on items are not part of returning loot.
  lemma {:induction false} HandlingElsewhere(cfg: Config, s: State, t: nat, op: Op)
    requires cfg.Valid() && Enabled(cfg, s, By(t, op)) && Handling(op) && !op.ReturnPart? && !op.ClearOne?
    ensures
      var pc, pc' := s.ws[t].pc, NextPc(cfg, s, t, op);
      !pc.Return? && !pc.Clear? && !pc'.Return? && !pc'.Clear? && (op.Complete? ==> pc' == pc && pc.Work? && op.x in s.ws[t].h.running)
  {
  }

  lemma {:induction false} LootLeft(cfg: Config, w: Worker, t: nat, op: Op)
    requires !op.ReturnPart? && !op.ClearOne? && !op.Complete?
    ensures NextHands(cfg, w, t, op).completed == w.h.completed && NextHands(cfg, w, t, op).returning == w.h.returning
  {
  }

  lemma {:induction false} ShapeElsewhere(cfg: Config, pc: Pc, pc': Pc, h: Hands, h': Hands, t: nat)
    requires ReturnShape(cfg, pc, h, t) && h'.completed == h.completed && h'.returning == h.returning
    requires !pc.Return? && !pc.Clear? && !pc'.Return? && !pc'.Clear?
    ensures ReturnShape(cfg, pc', h', t)
  {
  }

  lemma {:induction false} EmptyShapeMover(cfg: Config, s: State, t: nat, op: Op)
    requires Shaped(cfg, s, t, op)
    ensures EmptyShape(NextPc(cfg, s, t, op), NextHands(cfg, s.ws[t], t, op))
  {
    var h := s.ws[t].h;
    if Handling(op) {
      EmptyShapeHandling(cfg, s, t, op);
    } else {
      Quiet(cfg, s.ws[t], t, op);
      QuietPc(cfg, s, t, op);
    }
  }

  lemma {:induction false} EmptyShapeHandling(cfg: Config, s: State, t: nat, op: Op)
    requires Shaped(cfg, s, t, op) && Handling(op)
    ensures EmptyShape(NextPc(cfg, s, t, op), NextHands(cfg, s.ws[t], t, op))
  {
    HandlingPc(cfg, s, t, op);
    HandlingHands(cfg, s.ws[t], t, op);
  }

  lemma {:induction false} HandlingPc(cfg: Config, s: State, t: nat, op: Op)
    requires cfg.Valid() && Enabled(cfg, s, By(t, op)) && Handling(op)
    ensures
      var pc := s.ws[t].pc;
      var pc' := NextPc(cfg, s, t, op);
      && (Idle(pc') ==> Idle(pc))
      && (LootGone(pc') ==> LootGone(pc))
      && !pc'.Steal? && !pc'.Barrier2?
      && (pc'.Arrive? <==> op.SwapQueues?)
      && (op.AccountBatch? || op.Complete? ==> !Idle(pc'))
  {
  }

  lemma {:induction false} HandlingHands(cfg: Config, w: Worker, t: nat, op: Op)
    requires Handling(op) && (op.ReturnPart? ==> w.pc.Return?)
    ensures
      var h' := NextHands(cfg, w, t, op);
      && (!op.AccountBatch? ==> h'.running <= w.h.running)
      && (!op.Complete? ==> h'.completed <= w.h.completed)
      && (!op.SwapQueues? ==> h'.queue <= w.h.queue)
  {
  }

  lemma {:induction false} DisjointMover(cfg: Config, s: State, t: nat, op: Op)
    requires Shaped(cfg, s, t, op)
    requires Fetching(op) ==> forall x :: x in op.got ==> !Holds(s.ws[t].h, x)
    ensures
      var h := NextHands(cfg, s.ws[t], t, op);
      h.batch !! h.running !! h.completed !! h.returning && h.started == h.finished + |h.running|
  {
    if Handling(op) {
      DisjointHands(cfg, s.ws[t], t, op);
      StartedHands(cfg, s.ws[t], t, op);
    } else {
      Quiet(cfg, s.ws[t], t, op);
    }
  }

  lemma {:induction false} DisjointHands(cfg: Config, w: Worker, t: nat, op: Op)
    requires w.h.batch !! w.h.running !! w.h.completed !! w.h.returning && (op.ReturnPart? ==> w.pc.Return? && w.h.returning == {})
    requires Fetching(op) ==> forall x :: x in op.got ==> !Holds(w.h, x)
    requires op.Complete? ==> op.x in w.h.running
    ensures var h := NextHands(cfg, w, t, op); h.batch !! h.running !! h.completed !! h.returning
  {
  }

  lemma {:induction false} StartedHands(cfg: Config, w: Worker, t: nat, op: Op)
    requires w.h.started == w.h.finished + |w.h.running| && w.h.batch !! w.h.running
    requires (op.ReturnPart? ==> w.pc.Return?) && (op.EndIteration? ==> w.h.running == {}) && (op.Complete? ==> op.x in w.h.running)
    ensures var h := NextHands(cfg, w, t, op); h.started == h.finished + |h.running|
  {
  }

  // The items and program counters of all workers after a step of worker t.
  lemma {:induction false} HandsAfter(cfg: Config, s: State, t: nat, op: Op, k: nat)
    requires cfg.Valid() && Enabled(cfg, s, By(t, op)) && k < cfg.n
    requires op.StealSome? ==> s.ws[t].victim != t
    ensures |Workers(cfg, s, t, op)| == cfg.n
    ensures
      var w := s.ws[k];
      var w' := Workers(cfg, s, t, op)[k];
      && w'.pc == (if k == t then NextPc(cfg, s, t, op) else w.pc)
      && w'.victim == (if k == t then NextVictim(cfg, w, t, op) else w.victim)
      && w'.h == (if k == t then NextHands(cfg, w, t, op)
                  else if op.StealSome? && k == s.ws[t].victim then w.h.(queue := w.h.queue - op.got)
                  else w.h)
  {
    Frame(cfg, s, t, op, k);
  }

  predicate Fetching(op: Op) {
    op.FetchSome? || op.StealSome?
  }

  lemma {:induction false} FetchedAfter(cfg: Config, s: State, t: nat, op: Op, x: Item)
    requires cfg.Valid() && Enabled(cfg, s, By(t, op))
    ensures
      var f := Apply(cfg, s, By(t, op)).fetchedBy;
      if Fetching(op) && x in op.got then x in f && f[x] == t
      else if x in s.fetchedBy then x in f && f[x] == s.fetchedBy[x]
      else x !in f
  {
  }

  lemma {:induction false} ActiveAfter(cfg: Config, s: State, t: nat, op: Op)
    requires cfg.Valid() && Enabled(cfg, s, By(t, op))
    ensures Apply(cfg, s, By(t, op)).active == s.active && Apply(cfg, s, By(t, op)).closing == s.closing
  {
  }

  // An operation takes nothing into a worker's hands but what it fetches.
  lemma {:induction false} HeldMover(cfg: Config, w: Worker, t: nat, op: Op, x: Item)
    requires (op.ReturnPart? ==> w.pc.Return?) && (op.Complete? ==> op.x in w.h.running)
    ensures Holds(NextHands(cfg, w, t, op), x) ==> Holds(w.h, x) || (Fetching(op) && x in op.got)
  {
  }

  lemma {:induction false} QueueAfterMover(cfg: Config, w: Worker, t: nat, op: Op)
    requires !op.SwapQueues? && (op.ReturnPart? ==> w.pc.Return?)
    ensures NextHands(cfg, w, t, op).queue == if op.FetchSome? then w.h.queue - op.got else w.h.queue
  {
  }

  lemma {:induction false} SwappedMover(cfg: Config, s: State, t: nat, op: Op)
    requires cfg.Valid() && Enabled(cfg, s, By(t, op))
    ensures Swapped(NextPc(cfg, s, t, op)) == (Swapped(s.ws[t].pc) || op.SwapQueues?)
  {
  }

  lemma {:induction false} QueueOwnedStep(cfg: Config, s: State, t: nat, op: Op, k: nat)
    requires cfg.Valid() && Enabled(cfg, s, By(t, op)) && k < cfg.n && QueueOwned(s, k)
    requires op.StealSome? ==> s.ws[t].victim != t && QueueOwned(s, s.ws[t].victim)
    requires op.FetchSome? ==> QueueOwned(s, t)
    ensures At(Apply(cfg, s, By(t, op)), k) && QueueOwned(Apply(cfg, s, By(t, op)), k)
  {
    var s' := Apply(cfg, s, By(t, op));
    HandsAfter(cfg, s, t, op, k);
    SwappedMover(cfg, s, t, op);
    ActiveAfter(cfg, s, t, op);
    if op.SwapQueues? {
    } else {
      QueueAfterMover(cfg, s.ws[t], t, op);
      var v := if op.StealSome? then s.ws[t].victim else t;
      forall x | x in s'.ws[k].h.queue ensures x.part == k && (!Swapped(s'.ws[k].pc) ==> x in s.active && x !in s'.fetchedBy) {
        FetchedAfter(cfg, s, t, op, x);
        assert x in s.ws[k].h.queue;
        assert Fetching(op) && x in op.got ==> x.part == v;
      }
    }
  }

  lemma {:induction false} HeldOwnedStep(cfg: Config, s: State, t: nat, op: Op, k: nat)
    requires cfg.Valid() && Enabled(cfg, s, By(t, op)) && k < cfg.n && HeldOwned(s, k)
    requires op.StealSome? ==> s.ws[t].victim != t
    requires Fetching(op) ==> forall x :: x in op.got ==> x !in s.fetchedBy
    ensures At(Apply(cfg, s, By(t, op)), k) && HeldOwned(Apply(cfg, s, By(t, op)), k)
  {
    var s' := Apply(cfg, s, By(t, op));
    HandsAfter(cfg, s, t, op, k);
    forall x | Holds(s'.ws[k].h, x) ensures x in s'.fetchedBy && s'.fetchedBy[x] == k {
      FetchedAfter(cfg, s, t, op, x);
      HeldMover(cfg, s.ws[t], t, op, x);
    }
  }

  // The invariant at one worker.
  lemma {:induction false} CoreAt(cfg: Config, s: State, k: nat)
    requires Core(cfg, s) && k < cfg.n
    ensures ItemShape(cfg, s.ws[k].pc, s.ws[k].victim, s.ws[k].h, k) && QueueOwned(s, k) && HeldOwned(s, k)
    ensures Post(s.ws[k].pc) == s.closing && (s.decided ==> s.closing && s.ws[k].pc.Barrier2?)
  {
  }

  // What a fetch hands out is unfetched and of the partition fetched from.
  lemma {:induction false} GotUnfetched(cfg: Config, s: State, t: nat, op: Op)
    requires Core(cfg, s) && Enabled(cfg, s, By(t, op)) && Fetching(op)
    ensures
      var v := if op.StealSome? then s.ws[t].victim else t;
      && v < cfg.n && (op.StealSome? ==> v != t)
      && !Swapped(s.ws[v].pc)
      && forall x :: x in op.got ==> x.part == v && x in s.active && x !in s.fetchedBy
  {
    var v := if op.StealSome? then s.ws[t].victim else t;
    CoreAt(cfg, s, t);
    StealsFrom(cfg, s, t, op);
    CoreAt(cfg, s, v);
    GotAt(s, v, op.got);
  }

  lemma {:induction false} StealsFrom(cfg: Config, s: State, t: nat, op: Op)
    requires cfg.Valid() && Enabled(cfg, s, By(t, op)) && Fetching(op) && Post(s.ws[t].pc) == s.closing
    requires ItemShape(cfg, s.ws[t].pc, s.ws[t].victim, s.ws[t].h, t) && EmptyShape(s.ws[t].pc, s.ws[t].h)
    ensures !s.closing && s.ws[t].victim < cfg.n
    ensures if op.StealSome? then op.got <= s.ws[s.ws[t].victim].h.queue && op.got != {} && s.ws[t].h.queue == {} else op.got <= s.ws[t].h.queue
  {
  }

  lemma {:induction false} GotAt(s: State, v: nat, got: set<Item>)
    requires At(s, v) && QueueOwned(s, v) && !Swapped(s.ws[v].pc) && got <= s.ws[v].h.queue
    ensures forall x :: x in got ==> x.part == v && x in s.active && x !in s.fetchedBy
  {
  }

  lemma {:induction false} ActiveCovered(cfg: Config, s: State, t: nat, op: Op, x: Item)
    requires Core(cfg, s) && Enabled(cfg, s, By(t, op)) && x in s.active
    ensures var s' := Apply(cfg, s, By(t, op)); x in s'.fetchedBy || (x.part < |s'.ws| && x in s'.ws[x.part].h.queue)
  {
    if Fetching(op) { GotUnfetched(cfg, s, t, op); }
    FetchedAfter(cfg, s, t, op, x);
    if x !in s.fetchedBy {
      assert x in s.ws[x.part].h.queue;
      assert ItemShape(cfg, s.ws[t].pc, s.ws[t].victim, s.ws[t].h, t);
      QueueKeeps(cfg, s, t, op, x);
    }
  }

  lemma {:induction false} QueueKeeps(cfg: Config, s: State, t: nat, op: Op, x: Item)
    requires cfg.Valid() && Enabled(cfg, s, By(t, op)) && x.part < cfg.n && x in s.ws[x.part].h.queue
    requires (op.StealSome? ==> s.ws[t].victim != t) && EmptyShape(s.ws[t].pc, s.ws[t].h)
    ensures
      var s' := Apply(cfg, s, By(t, op));
      |s'.ws| == cfg.n && (x in s'.ws[x.part].h.queue || (Fetching(op) && x in op.got))
  {
    HandsAfter(cfg, s, t, op, x.part);
    if !op.SwapQueues? { QueueAfterMover(cfg, s.ws[t], t, op); }
  }

  lemma {:induction false} OwnedStep(cfg: Config, s: State, t: nat, op: Op)
    requires Core(cfg, s) && Enabled(cfg, s, By(t, op))
    ensures |Apply(cfg, s, By(t, op)).ws| == cfg.n && Owned(cfg, Apply(cfg, s, By(t, op)))
  {
    var s' := Apply(cfg, s, By(t, op));
    if Fetching(op) { GotUnfetched(cfg, s, t, op); }
    HandsAfter(cfg, s, t, op, 0);
    ActiveAfter(cfg, s, t, op);
    forall k | 0 <= k < cfg.n ensures QueueOwned(s', k) {
      QueueOwnedStep(cfg, s, t, op, k);
    }
    forall k | 0 <= k < cfg.n ensures HeldOwned(s', k) {
      HeldOwnedStep(cfg, s, t, op, k);
    }
    forall x | x in s'.fetchedBy ensures x in s'.active && s'.fetchedBy[x] < cfg.n {
      FetchedAfter(cfg, s, t, op, x);
    }
    forall x | x in s'.active ensures x in s'.fetchedBy || x in s'.ws[x.part].h.queue {
      ActiveCovered(cfg, s, t, op, x);
    }
  }

  lemma {:induction false} ItemShapesStep(cfg: Config, s: State, t: nat, op: Op)
    requires Core(cfg, s) && Enabled(cfg, s, By(t, op))
    ensures |Apply(cfg, s, By(t, op)).ws| == cfg.n && ItemShapes(cfg, Apply(cfg, s, By(t, op)))
  {
    var s' := Apply(cfg, s, By(t, op));
    if Fetching(op) { GotUnfetched(cfg, s, t, op); }
    HandsAfter(cfg, s, t, op, t);
    forall k | 0 <= k < cfg.n ensures ItemShape(cfg, s'.ws[k].pc, s'.ws[k].victim, s'.ws[k].h, k) {
      HandsAfter(cfg, s, t, op, k);
      assert ItemShape(cfg, s.ws[k].pc, s.ws[k].victim, s.ws[k].h, k);
      if k == t { ItemShapeMover(cfg, s, t, op); }
    }
  }

  lemma {:induction false} ItemShapeMover(cfg: Config, s: State, t: nat, op: Op)
    requires Core(cfg, s) && Enabled(cfg, s, By(t, op))
    ensures ItemShape(cfg, NextPc(cfg, s, t, op), NextVictim(cfg, s.ws[t], t, op), NextHands(cfg, s.ws[t], t, op), t)
  {
    var w := s.ws[t];
    var v := w.victim;
    assert ItemShape(cfg, w.pc, v, w.h, t);
    assert QueueOwned(s, t) && QueueOwned(s, v) && HeldOwned(s, t);
    forall x | x in w.h.running ensures x.part < cfg.n { assert Holds(w.h, x); }
    StealShapeMover(cfg, s, t, op);
    ReturnShapeMover(cfg, s, t, op);
    EmptyShapeMover(cfg, s, t, op);
    if Fetching(op) {
      GotUnfetched(cfg, s, t, op);
      assert forall x :: x in op.got ==> !Holds(w.h, x);
    }
    DisjointMover(cfg, s, t, op);
  }

  lemma {:induction false} PhaseStep(cfg: Config, s: State, t: nat, op: Op)
    requires Core(cfg, s) && Enabled(cfg, s, By(t, op))
    ensures |Apply(cfg, s, By(t, op)).ws| == cfg.n
    ensures var s' := Apply(cfg, s, By(t, op)); forall k :: 0 <= k < cfg.n ==> Post(s'.ws[k].pc) == s'.closing
    ensures var s' := Apply(cfg, s, By(t, op)); forall k :: 0 <= k < cfg.n ==> !s'.ws[k].pc.Stopped?
  {
    var s' := Apply(cfg, s, By(t, op));
    if Fetching(op) { GotUnfetched(cfg, s, t, op); }
    HandsAfter(cfg, s, t, op, t);
    ActiveAfter(cfg, s, t, op);
    PostMover(cfg, s, t, op);
    assert !s.ws[t].pc.Stopped?;
    forall k | 0 <= k < cfg.n ensures Post(s'.ws[k].pc) == s'.closing && !s'.ws[k].pc.Stopped? {
      HandsAfter(cfg, s, t, op, k);
    }
  }

  // Only the first barrier leads past the first barrier.
  lemma {:induction false} PostMover(cfg: Config, s: State, t: nat, op: Op)
    requires cfg.Valid() && Enabled(cfg, s, By(t, op))
    ensures Post(NextPc(cfg, s, t, op)) == Post(s.ws[t].pc) && !NextPc(cfg, s, t, op).Stopped? && !s.ws[t].pc.Stopped?
  {
  }

  lemma {:induction false} BatchMover(cfg: Config, w: Worker, t: nat, op: Op)
    requires op.ReturnPart? ==> w.pc.Return?
    ensures NextHands(cfg, w, t, op).batch == if Fetching(op) then op.got else if op.AccountBatch? then {} else w.h.batch
  {
  }

  lemma {:induction false} CountsAfter(cfg: Config, s: State, t: nat, op: Op)
    requires cfg.Valid() && Enabled(cfg, s, By(t, op))
    ensures
      var s' := Apply(cfg, s, By(t, op));
      && s'.processed == (if op.AccountBatch? then s.processed + s.ws[t].h.batch else s.processed)
      && (!op.ArriveOne? ==> s'.remaining == s.remaining - if op.AccountBatch? then |s.ws[t].h.batch| else 0)
      && (!op.ArriveOne? ==> s'.decided == s.decided && s'.isComplete == s.isComplete && s'.level == s.level)
      && (!op.ArriveOne? ==> s'.here == s.here && s'.counted == s.counted && s'.tot == s.tot && s'.arrived == s.arrived)
      && (op.ArriveOne? && !s'.decided ==> s'.remaining == s.remaining)
  {
  }

  // The batch of worker k after a step of worker t.
  lemma {:induction false} BatchAfter(cfg: Config, s: State, t: nat, op: Op, k: nat)
    requires cfg.Valid() && Enabled(cfg, s, By(t, op)) && k < cfg.n
    requires op.StealSome? ==> s.ws[t].victim != t
    ensures
      Workers(cfg, s, t, op)[k].h.batch ==
      if k == t && Fetching(op) then op.got else if k == t && op.AccountBatch? then {} else s.ws[k].h.batch
  {
    HandsAfter(cfg, s, t, op, k);
    BatchMover(cfg, s.ws[t], t, op);
  }

  lemma {:induction false} ProcessedStep(cfg: Config, s: State, t: nat, op: Op, x: Item)
    requires cfg.Valid() && Enabled(cfg, s, By(t, op)) && (op.StealSome? ==> s.ws[t].victim != t)
    requires x in s.processed <==> Accounted(s, x)
    requires x in s.fetchedBy ==> s.fetchedBy[x] < cfg.n
    requires Fetching(op) ==> (x in op.got ==> x !in s.fetchedBy) && s.ws[t].h.batch == {}
    requires x in s.ws[t].h.batch ==> x in s.fetchedBy && s.fetchedBy[x] == t
    ensures var s' := Apply(cfg, s, By(t, op)); x in s'.processed <==> Accounted(s', x)
  {
    FetchedAfter(cfg, s, t, op, x);
    CountsAfter(cfg, s, t, op);
    BatchAfter(cfg, s, t, op, t);
    if x in s.fetchedBy {
      BatchAfter(cfg, s, t, op, s.fetchedBy[x]);
    }
  }

  lemma {:induction false} ProcessedAfter(cfg: Config, s: State, t: nat, op: Op)
    requires Core(cfg, s) && Enabled(cfg, s, By(t, op))
    ensures var s' := Apply(cfg, s, By(t, op)); forall x :: x in s'.processed <==> Accounted(s', x)
  {
    var s' := Apply(cfg, s, By(t, op));
    forall x ensures x in s'.processed <==> Accounted(s', x) { ProcessedAt(cfg, s, t, op, x); }
  }

  lemma {:induction false} ProcessedAt(cfg: Config, s: State, t: nat, op: Op, x: Item)
    requires Core(cfg, s) && Enabled(cfg, s, By(t, op))
    ensures var s' := Apply(cfg, s, By(t, op)); x in s'.processed <==> Accounted(s', x)
  {
    if Fetching(op) { GotUnfetched(cfg, s, t, op); }
    CoreAt(cfg, s, t);
    assert x in s.ws[t].h.batch ==> Holds(s.ws[t].h, x);
    assert x in s.processed <==> Accounted(s, x);
    ProcessedStep(cfg, s, t, op, x);
  }

  lemma {:induction false} CountedStep(cfg: Config, s: State, t: nat, op: Op)
    requires Core(cfg, s) && Enabled(cfg, s, By(t, op))
    ensures |Apply(cfg, s, By(t, op)).ws| == cfg.n && Owned(cfg, Apply(cfg, s, By(t, op)))
    ensures Counted(Apply(cfg, s, By(t, op)))
  {
    OwnedStep(cfg, s, t, op);
    ProcessedAfter(cfg, s, t, op);
    CountsAfter(cfg, s, t, op);
    ActiveAfter(cfg, s, t, op);
    if op.AccountBatch? {
      AccountedApart(cfg, s, t);
    }
  }

  // A batch is subtracted from the global count once.
  lemma {:induction false} AccountedApart(cfg: Config, s: State, t: nat)
    requires Core(cfg, s) && t < cfg.n
    ensures s.processed !! s.ws[t].h.batch
    ensures s.ws[t].pc.Account? ==> !s.decided
  {
    forall x | x in s.ws[t].h.batch ensures x !in s.processed {
      assert HeldOwned(s, t) && Holds(s.ws[t].h, x);
    }
  }
}
