/** The invariant holds initially, every step keeps it, so it holds over every run. */
module LevelRuns {
  import opened LevelState
  import opened LevelInvariant
  import opened LevelCore
  import opened LevelBarrier
  import opened LevelSteal
  import opened LevelGuard
  import opened LevelSafety
  import opened LevelMail

  // ----- a step of one worker

  lemma {:induction false} PostIs(cfg: Config, s: State, t: nat)
    requires |s.ws| == cfg.n && Phase(cfg, s) && t < cfg.n
    ensures Post(s.ws[t].pc) == s.closing && (s.decided ==> s.closing && s.ws[t].pc.Barrier2?)
  {
  }

  // A worker about to arrive at the second barrier.
  lemma {:induction false} Arriving(cfg: Config, s: State, t: nat)
    requires Core(cfg, s) && Enabled(cfg, s, By(t, ArriveOne))
    ensures s.closing && !s.decided && forall x :: x in s.ws[t].h.queue ==> x.part == t
  {
    ArrivesFrom(cfg, s, t);
    CoreAt(cfg, s, t);
  }

  lemma {:induction false} ArrivesFrom(cfg: Config, s: State, t: nat)
    requires cfg.Valid() && Enabled(cfg, s, By(t, ArriveOne))
    ensures t < cfg.n && s.ws[t].pc.Arrive?
  {
  }

  lemma {:induction false} ArrivingStep(cfg: Config, s: State, t: nat)
    requires Core(cfg, s) && Arrived(cfg, s) && Enabled(cfg, s, By(t, ArriveOne))
    ensures |Apply(cfg, s, By(t, ArriveOne)).ws| == cfg.n && Arrived(cfg, Apply(cfg, s, By(t, ArriveOne)))
    ensures
      var s' := Apply(cfg, s, By(t, ArriveOne));
      s'.decided ==> s'.closing && forall k :: 0 <= k < cfg.n ==> s'.ws[k].pc.Barrier2?
  {
    Arriving(cfg, s, t);
    ArriveStep(cfg, s, t);
  }

  // Once the level is decided nobody moves until all pass the barrier.
  lemma {:induction false} StillUndecided(cfg: Config, s: State, t: nat, op: Op)
    requires Core(cfg, s) && Enabled(cfg, s, By(t, op)) && !op.ArriveOne?
    ensures !s.decided && !Apply(cfg, s, By(t, op)).decided
    ensures (op.StealSome? || op.AccountBatch? ==> !s.closing) && (op.StealSome? ==> s.ws[t].victim != t)
  {
    CoreAt(cfg, s, t);
    NotHere(cfg, s, t, op);
    CountsAfter(cfg, s, t, op);
    if op.StealSome? { Reach(cfg, s, t, op); }
  }

  lemma {:induction false} ArrivedByStep(cfg: Config, s: State, t: nat, op: Op)
    requires Core(cfg, s) && Arrived(cfg, s) && Enabled(cfg, s, By(t, op))
    ensures |Apply(cfg, s, By(t, op)).ws| == cfg.n && Arrived(cfg, Apply(cfg, s, By(t, op)))
    ensures
      var s' := Apply(cfg, s, By(t, op));
      s'.decided ==> s'.closing && forall k :: 0 <= k < cfg.n ==> s'.ws[k].pc.Barrier2?
  {
    if op.ArriveOne? {
      ArrivingStep(cfg, s, t);
    } else {
      StillUndecided(cfg, s, t, op);
      ArrivedStep(cfg, s, t, op);
    }
  }

  lemma {:induction false} CoreStep(cfg: Config, s: State, t: nat, op: Op)
    requires Core(cfg, s) && Arrived(cfg, s) && Enabled(cfg, s, By(t, op))
    ensures Core(cfg, Apply(cfg, s, By(t, op)))
  {
    PhaseStep(cfg, s, t, op);
    ArrivedByStep(cfg, s, t, op);
    ItemShapesStep(cfg, s, t, op);
    CountedStep(cfg, s, t, op);
    ActiveAfter(cfg, s, t, op);
  }

  lemma {:induction false} ByStep(cfg: Config, s: State, t: nat, op: Op)
    requires Inv(cfg, s) && Enabled(cfg, s, By(t, op))
    ensures Inv(cfg, Apply(cfg, s, By(t, op)))
  {
    CoreStep(cfg, s, t, op);
    ArrivedByStep(cfg, s, t, op);
    StolenStep(cfg, s, t, op);
    SafeStep(cfg, s, t, op);
    MailedStep(cfg, s, t, op);
  }

  // ----- the first barrier

  lemma {:induction false} Barrier1Worker(cfg: Config, s: State, k: nat)
    requires cfg.Valid() && Enabled(cfg, s, PassBarrier1) && k < cfg.n
    ensures
      var s' := Apply(cfg, s, PassBarrier1);
      && |s'.ws| == cfg.n && s'.ws[k] == s.ws[k].(pc := ReplayStart(true))
      && s.ws[k].pc.Barrier1?
  {
  }

  lemma {:induction false} Barrier1Hands(cfg: Config, s: State, k: nat)
    requires cfg.Valid() && Enabled(cfg, s, PassBarrier1) && k < cfg.n
    requires ItemShape(cfg, s.ws[k].pc, s.ws[k].victim, s.ws[k].h, k) && QueueOwned(s, k) && HeldOwned(s, k)
    ensures
      var s' := Apply(cfg, s, PassBarrier1);
      && At(s', k) && ItemShape(cfg, s'.ws[k].pc, s'.ws[k].victim, s'.ws[k].h, k) && QueueOwned(s', k) && HeldOwned(s', k)
  {
    Barrier1Worker(cfg, s, k);
  }

  lemma {:induction false} Barrier1Owned(cfg: Config, s: State)
    requires Core(cfg, s) && Enabled(cfg, s, PassBarrier1)
    ensures var s' := Apply(cfg, s, PassBarrier1); |s'.ws| == cfg.n && ItemShapes(cfg, s') && Owned(cfg, s') && Counted(s')
  {
    var s' := Apply(cfg, s, PassBarrier1);
    forall t | 0 <= t < cfg.n
      ensures s'.ws[t].h == s.ws[t].h
      ensures ItemShape(cfg, s'.ws[t].pc, s'.ws[t].victim, s'.ws[t].h, t) && QueueOwned(s', t) && HeldOwned(s', t)
    {
      assert ItemShape(cfg, s.ws[t].pc, s.ws[t].victim, s.ws[t].h, t) && QueueOwned(s, t) && HeldOwned(s, t);
      Barrier1Hands(cfg, s, t);
    }
    forall x ensures Accounted(s', x) == Accounted(s, x) { }
    assert forall x :: x in s.processed <==> Accounted(s, x);
  }

  // A worker whose loot is gone has nothing in its hands.
  lemma {:induction false} HandsEmpty(cfg: Config, pc: Pc, victim: nat, h: Hands, t: nat)
    requires ItemShape(cfg, pc, victim, h, t) && LootGone(pc)
    ensures h.batch == {} && h.running == {} && h.completed == {} && h.returning == {} && h.started == h.finished
    ensures !Stealing(pc) && (!pc.Arrive? && !pc.Barrier2? ==> h.queue == {})
  {
  }

  lemma {:induction false} DoneAtBarrier1(cfg: Config, s: State, x: Item)
    requires Core(cfg, s) && Enabled(cfg, s, PassBarrier1) && x in s.active
    ensures x in s.processed
  {
    var o := x.part;
    HandsEmpty(cfg, s.ws[o].pc, s.ws[o].victim, s.ws[o].h, o);
    var u := s.fetchedBy[x];
    HandsEmpty(cfg, s.ws[u].pc, s.ws[u].victim, s.ws[u].h, u);
    assert Accounted(s, x);
  }

  lemma {:induction false} ProcessedActive(cfg: Config, s: State)
    requires |s.ws| == cfg.n && Owned(cfg, s) && Counted(s)
    ensures s.processed <= s.active
  {
    forall x | x in s.processed ensures x in s.active { assert Accounted(s, x); }
  }

  lemma {:induction false} AllDone(cfg: Config, s: State)
    requires Core(cfg, s) && Enabled(cfg, s, PassBarrier1)
    ensures s.active <= s.processed
  {
    forall x | x in s.active ensures x in s.processed { DoneAtBarrier1(cfg, s, x); }
  }

  lemma {:induction false} NothingRemains(s: State)
    requires Counted(s) && s.processed <= s.active <= s.processed && !s.decided
    ensures s.remaining == 0 && s.processed == s.active
  {
    assert s.processed == s.active;
  }

  // At the first barrier every active item has been accounted for.
  lemma {:induction false} NoneLeft(cfg: Config, s: State)
    requires Core(cfg, s) && Enabled(cfg, s, PassBarrier1)
    ensures s.remaining == 0 && s.processed == s.active && !s.closing && !s.decided
  {
    CoreAt(cfg, s, 0);
    AllDone(cfg, s);
    ProcessedActive(cfg, s);
    NothingRemains(s);
  }

  lemma {:induction false} Barrier1Counts(cfg: Config, s: State)
    requires cfg.Valid() && Enabled(cfg, s, PassBarrier1) && Arrived(cfg, s) && !s.closing && !s.decided && s.remaining == 0
    ensures var s' := Apply(cfg, s, PassBarrier1); |s'.ws| == cfg.n && Arrived(cfg, s') && Phase(cfg, s')
  {
    assert s.counted == {};
  }

  lemma {:induction false} Barrier1Core(cfg: Config, s: State)
    requires Core(cfg, s) && Arrived(cfg, s) && Enabled(cfg, s, PassBarrier1)
    ensures Core(cfg, Apply(cfg, s, PassBarrier1)) && Arrived(cfg, Apply(cfg, s, PassBarrier1))
  {
    Barrier1Owned(cfg, s);
    NoneLeft(cfg, s);
    Barrier1Counts(cfg, s);
  }

  // Items look the same on both sides of the first barrier.
  lemma {:induction false} Barrier1Item(cfg: Config, s: State, x: Item)
    requires cfg.Valid() && Enabled(cfg, s, PassBarrier1)
    ensures
      var s' := Apply(cfg, s, PassBarrier1);
      && Foreign(s', x) == Foreign(s, x) && EverMarked(s', x) == EverMarked(s, x) && InHands(s', x) == InHands(s, x)
      && !PreCount(s', x) && !PreCount(s, x) && GivenBack(s', x) == GivenBack(s, x)
      && !Unannounced(s, x)
  {
  }

  lemma {:induction false} Barrier1Exact(cfg: Config, s: State, w: nat)
    requires cfg.Valid() && Enabled(cfg, s, PassBarrier1) && w < cfg.n
    requires BitsExact(s, w) && TakenExact(s, w) && BackExact(s, w)
    ensures var s' := Apply(cfg, s, PassBarrier1); At(s', w) && BitsExact(s', w) && TakenExact(s', w) && BackExact(s', w)
  {
    var s' := Apply(cfg, s, PassBarrier1);
    Barrier1Worker(cfg, s, w);
    forall d ensures d in s'.ws[w].st.bits <==> EverMarked(s', Main(w, d)) && InHands(s', Main(w, d)) {
      Barrier1Item(cfg, s, Main(w, d));
    }
    forall x ensures x in s'.ws[w].st.taken <==> x.Main? && x.part == w && Foreign(s', x) && !PreCount(s', x) {
      Barrier1Item(cfg, s, x);
    }
    forall x ensures x in s'.ws[w].st.back <==> x.Main? && x.part == w && GivenBack(s', x) {
      Barrier1Item(cfg, s, x);
    }
  }

  lemma {:induction false} Barrier1Stolen(cfg: Config, s: State)
    requires cfg.Valid() && |s.ws| == cfg.n && Stolen(cfg, s) && Enabled(cfg, s, PassBarrier1)
    ensures |Apply(cfg, s, PassBarrier1).ws| == cfg.n && Stolen(cfg, Apply(cfg, s, PassBarrier1))
  {
    var s' := Apply(cfg, s, PassBarrier1);
    forall w | 0 <= w < cfg.n ensures !Swapped(s'.ws[w].pc) && BitsExact(s', w) && TakenExact(s', w) && BackExact(s', w) {
      Barrier1Exact(cfg, s, w);
      Barrier1Worker(cfg, s, w);
    }
  }

  lemma {:induction false} Barrier1Safe(cfg: Config, s: State)
    requires cfg.Valid() && |s.ws| == cfg.n && Safe(cfg, s) && Enabled(cfg, s, PassBarrier1)
    ensures |Apply(cfg, s, PassBarrier1).ws| == cfg.n && Safe(cfg, Apply(cfg, s, PassBarrier1))
  {
    var s' := Apply(cfg, s, PassBarrier1);
    forall w | 0 <= w < cfg.n ensures GuardOdd(s'.ws[w]) && NoIntruder(s', w) && AsideOk(s', w) && RunOk(s', w) {
      assert GuardOdd(s.ws[w]) && NoIntruder(s, w) && AsideOk(s, w);
      Barrier1Worker(cfg, s, w);
      forall x ensures Foreign(s', x) == Foreign(s, x) && !Unannounced(s, x) && EverMarked(s', x) == EverMarked(s, x) {
        Barrier1Item(cfg, s, x);
      }
    }
  }

  lemma {:induction false} Barrier1Mailed(cfg: Config, s: State)
    requires cfg.Valid() && |s.ws| == cfg.n && Mailed(cfg, s) && Enabled(cfg, s, PassBarrier1)
    ensures |Apply(cfg, s, PassBarrier1).ws| == cfg.n && Mailed(cfg, Apply(cfg, s, PassBarrier1))
  {
    var s' := Apply(cfg, s, PassBarrier1);
    forall k, p | 0 <= k < cfg.n ensures MailExact(s', k, p) {
      assert MailExact(s, k, p);
      OutTimesChange(s.ws, s'.ws, cfg.n, k, p);
    }
    forall k | 0 <= k < cfg.n ensures MailShape(cfg, s'.ws[k].pc, s'.ws[k].m) && NextOk(s'.ws[k].pc, s'.ws[k].m) && PostMail(cfg, k, s'.ws[k]) {
      assert MailShape(cfg, s.ws[k].pc, s.ws[k].m) && NextOk(s.ws[k].pc, s.ws[k].m) && PostMail(cfg, k, s.ws[k]);
    }
  }

  // ----- the second barrier

  lemma {:induction false} AllCounted(here: set<nat>, n: nat)
    requires forall t :: 0 <= t < n ==> t in here
    ensures |here| >= n
  {
    if n > 0 {
      AllCounted(here - {n - 1}, n - 1);
    }
  }

  // When everybody waits at the second barrier, the last to arrive has decided the level.
  lemma {:induction false} AtBarrier2(cfg: Config, s: State)
    requires cfg.Valid() && |s.ws| == cfg.n && Arrived(cfg, s) && s.closing && Enabled(cfg, s, PassBarrier2)
    ensures s.decided
    ensures forall x :: x in s.counted <==> x.part < cfg.n && x in s.ws[x.part].h.queue
  {
    AllCounted(s.here, cfg.n);
  }

  lemma {:induction false} ClosingThen(cfg: Config, s: State)
    requires cfg.Valid() && |s.ws| == cfg.n && Phase(cfg, s) && Enabled(cfg, s, PassBarrier2)
    ensures s.closing
  {
    assert Post(s.ws[0].pc) == s.closing;
  }

  lemma {:induction false} Barrier2Worker(cfg: Config, s: State, k: nat)
    requires cfg.Valid() && Enabled(cfg, s, PassBarrier2) && k < cfg.n
    ensures
      var s' := Apply(cfg, s, PassBarrier2);
      && |s'.ws| == cfg.n && s'.ws[k].victim == s.ws[k].victim && s'.ws[k].h == s.ws[k].h && s'.ws[k].st == s.ws[k].st
      && s'.ws[k].m == s.ws[k].m.(sent := multiset{}, applied := multiset{})
      && s'.ws[k].pc == (if s.isComplete then Stopped else Return(0, false))
      && s.ws[k].pc.Barrier2?
  {
  }

  lemma {:induction false} NothingForeign(s: State, x: Item)
    requires s.fetchedBy == map[]
    ensures !Foreign(s, x)
  {
  }

  lemma {:induction false} Barrier2Hands(cfg: Config, s: State, t: nat)
    requires cfg.Valid() && Enabled(cfg, s, PassBarrier2) && t < cfg.n
    requires ItemShape(cfg, s.ws[t].pc, s.ws[t].victim, s.ws[t].h, t) && QueueOwned(s, t)
    requires forall x :: x in s.ws[t].h.queue ==> x in s.counted
    requires s.isComplete ==> s.counted == {}
    ensures
      var s' := Apply(cfg, s, PassBarrier2);
      && At(s', t) && ItemShape(cfg, s'.ws[t].pc, s'.ws[t].victim, s'.ws[t].h, t)
      && QueueOwned(s', t) && HeldOwned(s', t)
  {
    Barrier2Worker(cfg, s, t);
  }

  lemma {:induction false} Barrier2Owned(cfg: Config, s: State)
    requires Core(cfg, s) && Arrived(cfg, s) && s.decided && Enabled(cfg, s, PassBarrier2)
    requires forall x :: x in s.counted <==> x.part < cfg.n && x in s.ws[x.part].h.queue
    ensures var s' := Apply(cfg, s, PassBarrier2); |s'.ws| == cfg.n && ItemShapes(cfg, s') && Owned(cfg, s')
  {
    var s' := Apply(cfg, s, PassBarrier2);
    Barrier2Counts(cfg, s);
    forall t | 0 <= t < cfg.n
      ensures s'.ws[t].h == s.ws[t].h
      ensures ItemShape(cfg, s'.ws[t].pc, s'.ws[t].victim, s'.ws[t].h, t) && QueueOwned(s', t) && HeldOwned(s', t)
    {
      assert ItemShape(cfg, s.ws[t].pc, s.ws[t].victim, s.ws[t].h, t) && QueueOwned(s, t);
      Barrier2Hands(cfg, s, t);
      Barrier2Worker(cfg, s, t);
    }
  }

  lemma {:induction false} Barrier2Phase(cfg: Config, s: State)
    requires cfg.Valid() && Enabled(cfg, s, PassBarrier2) && s.decided && Arrived(cfg, s)
    ensures var s' := Apply(cfg, s, PassBarrier2); |s'.ws| == cfg.n && Phase(cfg, s') && Arrived(cfg, s')
  {
    Barrier2Counts(cfg, s);
  }

  lemma {:induction false} Barrier2Core(cfg: Config, s: State)
    requires Core(cfg, s) && Arrived(cfg, s) && Enabled(cfg, s, PassBarrier2)
    ensures Core(cfg, Apply(cfg, s, PassBarrier2)) && Arrived(cfg, Apply(cfg, s, PassBarrier2))
  {
    ClosingThen(cfg, s);
    AtBarrier2(cfg, s);
    Barrier2Owned(cfg, s);
    Barrier2Phase(cfg, s);
    Barrier2Counts(cfg, s);
  }

  lemma {:induction false} Barrier2Counts(cfg: Config, s: State)
    requires cfg.Valid() && Enabled(cfg, s, PassBarrier2) && s.decided && Arrived(cfg, s)
    ensures
      var s' := Apply(cfg, s, PassBarrier2);
      && |s'.ws| == cfg.n && !s'.closing && !s'.decided && s'.active == s.counted && s'.remaining == |s.counted|
      && s'.fetchedBy == map[] && s'.processed == {} && s'.here == {} && s'.counted == {} && s'.tot == 0 && s'.arrived == 0
      && Counted(s')
  {
  }

  lemma {:induction false} Barrier2Stolen(cfg: Config, s: State)
    requires Core(cfg, s) && Stolen(cfg, s) && Enabled(cfg, s, PassBarrier2)
    ensures |Apply(cfg, s, PassBarrier2).ws| == cfg.n && Stolen(cfg, Apply(cfg, s, PassBarrier2))
  {
    var s' := Apply(cfg, s, PassBarrier2);
    forall w | 0 <= w < cfg.n ensures ResetSteal(s'.ws[w].st) && BitsExact(s', w) && TakenExact(s', w) && BackExact(s', w) {
      assert Swapped(s.ws[w].pc);
      Barrier2Worker(cfg, s, w);
      forall x ensures !Foreign(s', x) { NothingForeign(s', x); }
    }
  }

  lemma {:induction false} Barrier2Safe(cfg: Config, s: State)
    requires Core(cfg, s) && Stolen(cfg, s) && Mailed(cfg, s) && Enabled(cfg, s, PassBarrier2)
    ensures |Apply(cfg, s, PassBarrier2).ws| == cfg.n && Safe(cfg, Apply(cfg, s, PassBarrier2))
  {
    var s' := Apply(cfg, s, PassBarrier2);
    forall w | 0 <= w < cfg.n ensures GuardOdd(s'.ws[w]) && NoIntruder(s', w) && AsideOk(s', w) && RunOk(s', w) {
      assert Swapped(s.ws[w].pc) && ResetSteal(s.ws[w].st) && PostMail(cfg, w, s.ws[w]);
      Barrier2Worker(cfg, s, w);
      forall x ensures !Foreign(s', x) { NothingForeign(s', x); }
    }
  }

  lemma {:induction false} Barrier2Mailed(cfg: Config, s: State)
    requires cfg.Valid() && |s.ws| == cfg.n && Mailed(cfg, s) && Enabled(cfg, s, PassBarrier2)
    ensures |Apply(cfg, s, PassBarrier2).ws| == cfg.n && Mailed(cfg, Apply(cfg, s, PassBarrier2))
  {
    var s' := Apply(cfg, s, PassBarrier2);
    forall k | 0 <= k < cfg.n
      ensures MailShape(cfg, s'.ws[k].pc, s'.ws[k].m) && NextOk(s'.ws[k].pc, s'.ws[k].m) && PostMail(cfg, k, s'.ws[k])
      ensures forall j :: 0 <= j < cfg.n ==> Box(s'.ws[k], j) == []
      ensures s'.ws[k].m.msgQ == [] && s'.ws[k].m.stolenMsgs == [] && s'.ws[k].m.todo == []
    {
      assert MailShape(cfg, s.ws[k].pc, s.ws[k].m) && PostMail(cfg, k, s.ws[k]);
    }
    forall k, p | 0 <= k < cfg.n ensures MailExact(s', k, p) {
      OutTimesEmpty(s'.ws, k, p);
    }
  }

  // ----- the beginning

  lemma {:induction false} InitialCore(cfg: Config, s: State)
    requires Initial(cfg, s)
    ensures Core(cfg, s) && Arrived(cfg, s)
  {
    forall t | 0 <= t < cfg.n ensures ItemShape(cfg, s.ws[t].pc, s.ws[t].victim, s.ws[t].h, t) && QueueOwned(s, t) && HeldOwned(s, t) {
      assert Fresh(cfg, s.ws[t], t);
    }
  }

  lemma {:induction false} InitialRest(cfg: Config, s: State)
    requires Initial(cfg, s)
    ensures Stolen(cfg, s) && Safe(cfg, s)
  {
    forall w | 0 <= w < cfg.n
      ensures !Swapped(s.ws[w].pc) && BitsExact(s, w) && TakenExact(s, w) && BackExact(s, w)
      ensures GuardOdd(s.ws[w]) && NoIntruder(s, w) && AsideOk(s, w) && RunOk(s, w)
    {
      assert Fresh(cfg, s.ws[w], w);
      forall x ensures !Foreign(s, x) { NothingForeign(s, x); }
    }
  }

  lemma {:induction false} InitialMailed(cfg: Config, s: State)
    requires Initial(cfg, s)
    ensures Mailed(cfg, s)
  {
    forall k | 0 <= k < cfg.n
      ensures MailShape(cfg, s.ws[k].pc, s.ws[k].m) && NextOk(s.ws[k].pc, s.ws[k].m) && PostMail(cfg, k, s.ws[k])
      ensures forall j :: 0 <= j < cfg.n ==> Box(s.ws[k], j) == []
    {
      assert Fresh(cfg, s.ws[k], k);
    }
    forall k, p | 0 <= k < cfg.n ensures MailExact(s, k, p) {
      assert Fresh(cfg, s.ws[k], k);
      OutTimesEmpty(s.ws, k, p);
    }
  }

  // ----- every run

  lemma {:induction false} InvStep(cfg: Config, s: State, step: Step)
    requires Inv(cfg, s) && Enabled(cfg, s, step)
    ensures Inv(cfg, Apply(cfg, s, step))
  {
    match step
    case By(t, op) => ByStep(cfg, s, t, op);
    case PassBarrier1 =>
      Barrier1Core(cfg, s);
      Barrier1Stolen(cfg, s);
      Barrier1Safe(cfg, s);
      Barrier1Mailed(cfg, s);
    case PassBarrier2 =>
      Barrier2Core(cfg, s);
      Barrier2Stolen(cfg, s);
      Barrier2Safe(cfg, s);
      Barrier2Mailed(cfg, s);
  }

  lemma {:induction false} InvOnRuns(cfg: Config, states: seq<State>, steps: seq<Step>, i: nat)
    requires IsRun(cfg, states, steps) && i < |states|
    ensures Inv(cfg, states[i])
  {
    if i == 0 {
      InitialCore(cfg, states[0]);
      InitialRest(cfg, states[0]);
      InitialMailed(cfg, states[0]);
    } else {
      InvOnRuns(cfg, states, steps, i - 1);
      InvStep(cfg, states[i - 1], steps[i - 1]);
    }
  }
}
