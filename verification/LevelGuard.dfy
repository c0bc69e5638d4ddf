/**
 The guard protocol: a thief leaves steal_vertices only when the owner is outside its
 guarded section or inside one that checks the bitmap.
 */
module LevelGuard {
  import opened LevelState
  import opened LevelInvariant
  import opened LevelCore
  import opened LevelSteal

  lemma {:induction false} GuardMover(cfg: Config, s: State, t: nat, op: Op)
    requires cfg.Valid() && Enabled(cfg, s, By(t, op)) && GuardOdd(s.ws[t])
    ensures (NextSteal(s.ws[t].st, op).guard % 2 == 1) == Guarded(NextPc(cfg, s, t, op))
  {
  }

  lemma {:induction false} GuardTouched(w: Worker, st: StealState, op: Op)
    ensures
      var st' := TouchedSteal(w, st, op);
      st'.guard == st.guard && st'.check == st.check && st'.mode == st.mode
      && st'.prepare == st.prepare + if op.Prepare? then 1 else 0
  {
  }

  lemma {:induction false} GuardStep(cfg: Config, s: State, t: nat, op: Op, k: nat)
    requires Core(cfg, s) && Enabled(cfg, s, By(t, op)) && k < cfg.n && GuardOdd(s.ws[k])
    ensures At(Apply(cfg, s, By(t, op)), k) && GuardOdd(Apply(cfg, s, By(t, op)).ws[k])
  {
    Reach(cfg, s, t, op);
    StealAfter(cfg, s, t, op, k);
    HandsAfter(cfg, s, t, op, k);
    GuardTouched(s.ws[t], s.ws[k].st, op);
    if k == t { GuardMover(cfg, s, t, op); }
  }

  // A thief's progress through steal_vertices, for main vertices and vertical parts alike.
  lemma {:induction false} WaitingAfter(cfg: Config, s: State, t: nat, op: Op, x: Item)
    requires Core(cfg, s) && Enabled(cfg, s, By(t, op)) && Foreign(s, x)
    ensures
      var s' := Apply(cfg, s, By(t, op));
      var mine := s.fetchedBy[x] == t;
      && Foreign(s', x)
      && (PreSpin(s', x) <==> PreSpin(s, x) && !(mine && op.SpinExit?))
      && (Unannounced(s', x) <==> Unannounced(s, x) && !(mine && op.Prepare?))
  {
    ItemAfter(cfg, s, t, op, x);
    BatchMover(cfg, s.ws[t], t, op);
    assert ItemShape(cfg, s.ws[t].pc, s.ws[t].victim, s.ws[t].h, t);
    if Limbo(s.ws[t].pc) {
      StealingMover(cfg, s, t, op);
      PrepMover(cfg, s, t, op);
    }
  }

  lemma {:induction false} PrepMover(cfg: Config, s: State, t: nat, op: Op)
    requires cfg.Valid() && Enabled(cfg, s, By(t, op)) && Limbo(s.ws[t].pc)
    ensures NextPc(cfg, s, t, op).Prep? <==> s.ws[t].pc.Prep? && !op.Prepare?
    ensures op.Prepare? ==> s.ws[t].pc.Prep?
  {
  }

  // A stealing worker's batch comes from its victim.
  lemma {:induction false} VictimOf(cfg: Config, s: State, t: nat, x: Item)
    requires Core(cfg, s) && t < cfg.n && x in s.ws[t].h.batch && Stealing(s.ws[t].pc)
    ensures x.part == s.ws[t].victim && Foreign(s, x) && s.fetchedBy[x] == t
  {
    assert ItemShape(cfg, s.ws[t].pc, s.ws[t].victim, s.ws[t].h, t) && HeldOwned(s, t);
    assert Holds(s.ws[t].h, x);
  }

  lemma {:induction false} ForeignBefore(cfg: Config, s: State, t: nat, op: Op, x: Item)
    requires Core(cfg, s) && Enabled(cfg, s, By(t, op))
    requires Foreign(Apply(cfg, s, By(t, op)), x)
    ensures Foreign(s, x) || (op.StealSome? && x !in s.fetchedBy && x in op.got)
  {
    OwnFetchStays(cfg, s, t, op, x);
    if x !in s.fetchedBy { FreshlyStolen(cfg, s, t, op, x); }
  }

  lemma {:induction false} UnannouncedStep(cfg: Config, s: State, t: nat, op: Op, k: nat, x: Item)
    requires Core(cfg, s) && Enabled(cfg, s, By(t, op)) && k < cfg.n && x.part == k
    requires Foreign(s, x) ==> Unannounced(s, x)
    requires !(op.Prepare? && s.ws[t].victim == k)
    ensures var s' := Apply(cfg, s, By(t, op)); Foreign(s', x) ==> Unannounced(s', x)
  {
    if Foreign(Apply(cfg, s, By(t, op)), x) {
      ForeignBefore(cfg, s, t, op, x);
      if Foreign(s, x) {
        WaitingAfter(cfg, s, t, op, x);
        if s.fetchedBy[x] == t { VictimOf(cfg, s, t, x); }
      } else {
        FreshlyStolen(cfg, s, t, op, x);
      }
    }
  }

  lemma {:induction false} PreSpinStep(cfg: Config, s: State, t: nat, op: Op, k: nat, x: Item)
    requires Core(cfg, s) && Enabled(cfg, s, By(t, op)) && k < cfg.n && x.part == k
    requires Foreign(s, x) ==> PreSpin(s, x)
    requires s.ws[k].st.guard % 2 == 1
    ensures var s' := Apply(cfg, s, By(t, op)); Foreign(s', x) ==> PreSpin(s', x)
  {
    if Foreign(Apply(cfg, s, By(t, op)), x) {
      ForeignBefore(cfg, s, t, op, x);
      if Foreign(s, x) {
        WaitingAfter(cfg, s, t, op, x);
        if s.fetchedBy[x] == t { VictimOf(cfg, s, t, x); }
      } else {
        FreshlyStolen(cfg, s, t, op, x);
      }
    }
  }

  // How the owner gets to process messages without checking.
  lemma {:induction false} DecidingMover(cfg: Config, s: State, t: nat, op: Op)
    requires cfg.Valid() && Enabled(cfg, s, By(t, op))
    ensures
      var st' := NextSteal(s.ws[t].st, op);
      Deciding(NextPc(cfg, s, t, op)) && !st'.check ==>
        if op.LoadPrepare? then s.ws[t].st.prepare == 0
        else Deciding(s.ws[t].pc) && !s.ws[t].st.check
    ensures !op.SwapQueues? ==> NextSteal(s.ws[t].st, op).prepare == s.ws[t].st.prepare
  {
  }

  lemma {:induction false} NoIntruderStep(cfg: Config, s: State, t: nat, op: Op, k: nat)
    requires Core(cfg, s) && Enabled(cfg, s, By(t, op)) && k < cfg.n && !(op.SwapQueues? && k == t)
    requires NoIntruder(s, k) && GuardOdd(s.ws[k])
    ensures At(Apply(cfg, s, By(t, op)), k) && NoIntruder(Apply(cfg, s, By(t, op)), k)
  {
    var s' := Apply(cfg, s, By(t, op));
    Reach(cfg, s, t, op);
    StealAfter(cfg, s, t, op, k);
    HandsAfter(cfg, s, t, op, k);
    GuardTouched(s.ws[t], s.ws[k].st, op);
    DecidingMover(cfg, s, t, op);
    if s'.ws[k].st.prepare == 0 {
      forall x | Foreign(s', x) && x.part == k ensures Unannounced(s', x) {
        UnannouncedStep(cfg, s, t, op, k, x);
      }
    }
    if Deciding(s'.ws[k].pc) && !s'.ws[k].st.check {
      forall x | Foreign(s', x) && x.part == k ensures PreSpin(s', x) {
        PreSpinStep(cfg, s, t, op, k, x);
      }
    }
  }
}
