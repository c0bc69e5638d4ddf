/**
 No vertex is run on a message while a thief that has left steal_vertices has its hands on it.
 */
module LevelSafety {
  import opened LevelState
  import opened LevelInvariant
  import opened LevelCore
  import opened LevelSteal
  import opened LevelGuard

  // The buffers of worker k that only its own steps change.
  lemma {:induction false} BuffersAfter(cfg: Config, s: State, t: nat, op: Op, k: nat)
    requires cfg.Valid() && Enabled(cfg, s, By(t, op)) && k < cfg.n
    ensures |Workers(cfg, s, t, op)| == cfg.n
    ensures
      var m := if k == t then NextMail(cfg, s, t, op) else s.ws[k].m;
      var m' := Workers(cfg, s, t, op)[k].m;
      && m'.stolenMsgs == m.stolenMsgs && m'.todo == m.todo && m'.next == m.next
      && m'.applied == m.applied && m'.outbox == m.outbox
  {
    Frame(cfg, s, t, op, k);
  }

  lemma {:induction false} MetBitStays(cfg: Config, s: State, t: nat, op: Op, k: nat, ps: seq<Pair>)
    requires Core(cfg, s) && Enabled(cfg, s, By(t, op)) && MetBit(s, k, ps)
    ensures MetBit(Apply(cfg, s, By(t, op)), k, ps)
  {
    var s' := Apply(cfg, s, By(t, op));
    forall i | 0 <= i < |ps| ensures ps[i].Deliver? && EverMarked(s', Main(k, ps[i].dest)) {
      EverMarkedAfter(cfg, s, t, op, Main(k, ps[i].dest));
    }
  }

  lemma {:induction false} AsideMover(cfg: Config, s: State, t: nat, op: Op)
    requires cfg.Valid() && Enabled(cfg, s, By(t, op)) && AsideOk(s, t)
    requires forall d :: d in s.ws[t].st.bits ==> EverMarked(s, Main(t, d))
    ensures
      var m' := NextMail(cfg, s, t, op);
      var pc' := NextPc(cfg, s, t, op);
      MetBit(s, t, m'.stolenMsgs) && (InPairs(pc') && pc'.replay ==> MetBit(s, t, m'.todo))
  {
  }

  lemma {:induction false} AsideStep(cfg: Config, s: State, t: nat, op: Op, k: nat)
    requires Core(cfg, s) && Enabled(cfg, s, By(t, op)) && k < cfg.n
    requires AsideOk(s, k) && BitsExact(s, k)
    ensures At(Apply(cfg, s, By(t, op)), k) && AsideOk(Apply(cfg, s, By(t, op)), k)
  {
    BuffersAfter(cfg, s, t, op, k);
    Reach(cfg, s, t, op);
    HandsAfter(cfg, s, t, op, k);
    var m' := Workers(cfg, s, t, op)[k].m;
    var pc' := Workers(cfg, s, t, op)[k].pc;
    if k == t { AsideMover(cfg, s, t, op); }
    MetBitStays(cfg, s, t, op, k, m'.stolenMsgs);
    if InPairs(pc') && pc'.replay {
      MetBitStays(cfg, s, t, op, k, m'.todo);
    }
  }

  lemma {:induction false} UntouchedStays(cfg: Config, s: State, t: nat, op: Op, k: nat, x: Item, replay: bool)
    requires Core(cfg, s) && Enabled(cfg, s, By(t, op)) && k < cfg.n && x.Main? && x.part == k
    requires Untouched(s, x, replay)
    requires !replay ==> s.ws[k].st.guard % 2 == 1
    ensures Untouched(Apply(cfg, s, By(t, op)), x, replay)
  {
    var s' := Apply(cfg, s, By(t, op));
    if replay {
      EverMarkedAfter(cfg, s, t, op, x);
      InHandsAfter(cfg, s, t, op, x);
    } else if Foreign(s', x) {
      ForeignBefore(cfg, s, t, op, x);
      if !Foreign(s, x) || PreSpin(s, x) {
        PreSpinStep(cfg, s, t, op, k, x);
      } else {
        InHandsAfter(cfg, s, t, op, x);
      }
    }
  }

  // The test of the bitmap lets through only messages to vertices no thief has its hands on.
  lemma {:induction false} CheckClears(cfg: Config, s: State, t: nat, x: Item)
    requires Core(cfg, s) && t < cfg.n && s.ws[t].pc.Msgs? && s.ws[t].m.todo != []
    requires BitsExact(s, t) && NoIntruder(s, t) && AsideOk(s, t)
    requires s.ws[t].m.todo[0].Deliver? && !MustWait(s.ws[t], s.ws[t].m.todo[0])
    requires x == Main(t, s.ws[t].m.todo[0].dest)
    ensures Untouched(s, x, s.ws[t].pc.replay)
  {
    var w := s.ws[t];
    if w.pc.replay || w.st.check {
      assert x.id !in w.st.bits;
      assert !(EverMarked(s, x) && InHands(s, x));
    }
    if Foreign(s, x) {
      var v := s.fetchedBy[x];
      assert ItemShape(cfg, s.ws[v].pc, s.ws[v].victim, s.ws[v].h, v);
    }
  }

  lemma {:induction false} ToRunMsg(cfg: Config, s: State, t: nat, op: Op)
    requires cfg.Valid() && Enabled(cfg, s, By(t, op)) && NextPc(cfg, s, t, op).RunMsg?
    ensures op.CheckPair? && s.ws[t].pc.Msgs? && NextPc(cfg, s, t, op).replay == s.ws[t].pc.replay
    ensures NextMail(cfg, s, t, op) == s.ws[t].m
    ensures s.ws[t].m.todo != [] && s.ws[t].m.todo[0].Deliver? && !MustWait(s.ws[t], s.ws[t].m.todo[0])
  {
  }

  lemma {:induction false} RunStep(cfg: Config, s: State, t: nat, op: Op, k: nat)
    requires Core(cfg, s) && Enabled(cfg, s, By(t, op)) && k < cfg.n
    requires BitsExact(s, k) && NoIntruder(s, k) && AsideOk(s, k) && RunOk(s, k) && GuardOdd(s.ws[k])
    ensures At(Apply(cfg, s, By(t, op)), k) && RunOk(Apply(cfg, s, By(t, op)), k)
  {
    BuffersAfter(cfg, s, t, op, k);
    Reach(cfg, s, t, op);
    HandsAfter(cfg, s, t, op, k);
    var w' := Workers(cfg, s, t, op)[k];
    if w'.pc.RunMsg? {
      if k == t {
        ToRunMsg(cfg, s, t, op);
        CheckClears(cfg, s, t, Main(t, s.ws[t].m.todo[0].dest));
      }
      UntouchedStays(cfg, s, t, op, k, Main(k, w'.m.todo[0].dest), w'.pc.replay);
    }
  }

  lemma {:induction false} SafeStep(cfg: Config, s: State, t: nat, op: Op)
    requires Core(cfg, s) && Stolen(cfg, s) && Safe(cfg, s) && Enabled(cfg, s, By(t, op))
    ensures |Apply(cfg, s, By(t, op)).ws| == cfg.n && Safe(cfg, Apply(cfg, s, By(t, op)))
  {
    var s' := Apply(cfg, s, By(t, op));
    Reach(cfg, s, t, op);
    SwappedMover(cfg, s, t, op);
    forall k | 0 <= k < cfg.n
      ensures At(s', k) && GuardOdd(s'.ws[k])
      ensures !Swapped(s'.ws[k].pc) ==> NoIntruder(s', k) && AsideOk(s', k) && RunOk(s', k)
    {
      GuardStep(cfg, s, t, op, k);
      HandsAfter(cfg, s, t, op, k);
      if !Swapped(s'.ws[k].pc) {
        assert !Swapped(s.ws[k].pc);
        NoIntruderStep(cfg, s, t, op, k);
        AsideStep(cfg, s, t, op, k);
        RunStep(cfg, s, t, op, k);
      }
    }
  }
}
