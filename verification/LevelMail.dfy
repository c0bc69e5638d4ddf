/** Messages are conserved by every step, and none is left when a partition is reset. */
module LevelMail {
  import opened LevelState
  import opened LevelInvariant
  import opened LevelCore
  import opened LevelSteal
  import opened LevelSafety

  lemma {:induction false} TimesAppend(a: seq<Pair>, b: seq<Pair>, p: Pair)
    ensures Times(a + b, p) == Times(a, p) + Times(b, p)
  {
  }

  lemma {:induction false} TimesHead(ps: seq<Pair>, p: Pair)
    requires ps != []
    ensures Times(ps, p) == Times(ps[1..], p) + multiset{ps[0]}[p]
  {
    assert ps == [ps[0]] + ps[1..];
  }

  lemma {:induction false} TimesSplit(ps: seq<Pair>, k: nat, p: Pair)
    requires k <= |ps|
    ensures Times(ps, p) == Times(ps[..k], p) + Times(ps[k..], p)
  {
    assert ps == ps[..k] + ps[k..];
  }

  // Changing one worker's buffers changes the total by that worker's change.
  lemma {:induction false} OutTimesChange(ws: seq<Worker>, ws': seq<Worker>, t: nat, k: nat, p: Pair)
    requires |ws'| == |ws|
    requires forall i :: 0 <= i < |ws| && i != t ==> ws'[i].m.outbox == ws[i].m.outbox
    ensures
      if t < |ws| then OutTimes(ws', k, p) + Times(Box(ws[t], k), p) == OutTimes(ws, k, p) + Times(Box(ws'[t], k), p)
      else OutTimes(ws', k, p) == OutTimes(ws, k, p)
  {
    if |ws| > 0 {
      OutTimesChange(ws[..|ws| - 1], ws'[..|ws'| - 1], t, k, p);
    }
  }

  lemma {:induction false} OutTimesEmpty(ws: seq<Worker>, k: nat, p: Pair)
    requires forall i :: 0 <= i < |ws| ==> Box(ws[i], k) == []
    ensures OutTimes(ws, k, p) == 0
  {
    if |ws| > 0 {
      OutTimesEmpty(ws[..|ws| - 1], k, p);
    }
  }

  // The acting worker's own step moves pairs but loses none and makes up none.
  lemma {:induction false} NextMailKeeps(cfg: Config, s: State, t: nat, op: Op, p: Pair)
    requires cfg.Valid() && Enabled(cfg, s, By(t, op)) && (!InPairs(s.ws[t].pc) ==> s.ws[t].m.todo == [])
    ensures
      var m := s.ws[t].m;
      var m' := NextMail(cfg, s, t, op);
      m'.sent[p] + m.applied[p] + Waits(m, p) == m.sent[p] + m'.applied[p] + Waits(m', p)
  {
    var m := s.ws[t].m;
    if op.DrainSome? {
      TimesSplit(m.msgQ, op.k, p);
    } else if op.CheckPair? || op.RunPair? {
      TimesHead(m.todo, p);
      TimesAppend(m.stolenMsgs, [m.todo[0]], p);
    }
  }

  lemma {:induction false} TouchedMailKeeps(w: Worker, m: Mail, op: Op, p: Pair)
    ensures
      var m' := TouchedMail(w, m, op);
      && m'.sent[p] == m.sent[p] + (if op.Send? && op.p == p then 1 else 0)
      && m'.applied == m.applied
      && Waits(m', p) == Waits(m, p) + Times(Flushed(w, op), p)
  {
    TimesAppend(m.msgQ, Flushed(w, op), p);
  }

  // The acting worker's buffers after the step.
  lemma {:induction false} OutboxMover(cfg: Config, s: State, t: nat, op: Op, k: nat)
    requires cfg.Valid() && Enabled(cfg, s, By(t, op)) && k < cfg.n
    ensures
      var m := s.ws[t].m;
      NextMail(cfg, s, t, op).outbox ==
        if op.Send? then m.outbox[op.d := m.outbox[op.d] + [op.p]]
        else if op.FlushEarly? then m.outbox[op.d := []]
        else if op.FlushPart? then m.outbox[s.ws[t].pc.i := []]
        else m.outbox
  {
  }

  // What the step does to the acting worker's buffer for worker k.
  lemma {:induction false} BoxAfter(cfg: Config, s: State, t: nat, op: Op, k: nat, p: Pair)
    requires cfg.Valid() && Enabled(cfg, s, By(t, op)) && k < cfg.n
    ensures
      var w := s.ws[t];
      var m' := NextMail(cfg, s, t, op);
      var there := k == Peer(w, t, op);
      Times(Box(w.(m := m'), k), p) + (if there then Times(Flushed(w, op), p) else 0)
      == Times(Box(w, k), p) + (if there && op.Send? && op.p == p then 1 else 0)
  {
    OutboxMover(cfg, s, t, op, k);
    if op.Send? {
      TimesAppend(s.ws[t].m.outbox[op.d], [op.p], p);
    }
  }

  // The mail of worker k after a step of worker t.
  lemma {:induction false} MailAfter(cfg: Config, s: State, t: nat, op: Op, k: nat)
    requires cfg.Valid() && Enabled(cfg, s, By(t, op)) && k < cfg.n
    ensures |Workers(cfg, s, t, op)| == cfg.n
    ensures
      var m := if k == t then NextMail(cfg, s, t, op) else s.ws[k].m;
      Workers(cfg, s, t, op)[k].m == if k == Peer(s.ws[t], t, op) then TouchedMail(s.ws[t], m, op) else m
  {
    Frame(cfg, s, t, op, k);
  }

  lemma {:induction false} ExactStep(cfg: Config, s: State, t: nat, op: Op, k: nat, p: Pair)
    requires cfg.Valid() && Enabled(cfg, s, By(t, op)) && k < cfg.n
    requires !InPairs(s.ws[t].pc) ==> s.ws[t].m.todo == []
    requires MailExact(s, k, p)
    ensures At(Apply(cfg, s, By(t, op)), k) && MailExact(Apply(cfg, s, By(t, op)), k, p)
  {
    var ws' := Workers(cfg, s, t, op);
    var w := s.ws[t];
    forall i | 0 <= i < cfg.n && i != t ensures ws'[i].m.outbox == s.ws[i].m.outbox {
      BuffersAfter(cfg, s, t, op, i);
    }
    BuffersAfter(cfg, s, t, op, t);
    OutTimesChange(s.ws, ws', t, k, p);
    BoxAfter(cfg, s, t, op, k, p);
    assert Box(ws'[t], k) == Box(w.(m := NextMail(cfg, s, t, op)), k);
    MailAfter(cfg, s, t, op, k);
    var m := if k == t then NextMail(cfg, s, t, op) else s.ws[k].m;
    if k == t { NextMailKeeps(cfg, s, t, op, p); }
    TouchedMailKeeps(w, m, op, p);
  }

  lemma {:induction false} MailShapeMover(cfg: Config, s: State, t: nat, op: Op)
    requires cfg.Valid() && Enabled(cfg, s, By(t, op)) && MailShape(cfg, s.ws[t].pc, s.ws[t].m)
    ensures MailShape(cfg, NextPc(cfg, s, t, op), NextMail(cfg, s, t, op))
  {
    OutboxPc(cfg, s, t, op);
  }

  lemma {:induction false} OutboxPc(cfg: Config, s: State, t: nat, op: Op)
    requires cfg.Valid() && Enabled(cfg, s, By(t, op))
    ensures
      var pc := s.ws[t].pc;
      var pc' := NextPc(cfg, s, t, op);
      && (OutboxDone(pc') ==> OutboxDone(pc) || (op.FlushDone? && pc.Flush? && pc.i >= cfg.n))
      && (OutboxDone(pc) ==> !op.Send?)
      && (pc'.Flush? ==> (op.EndIteration? && pc'.i == 0) || (op.FlushPart? && pc.Flush? && pc'.i == pc.i + 1))
  {
  }

  lemma {:induction false} MailShapeStep(cfg: Config, s: State, t: nat, op: Op, k: nat)
    requires Core(cfg, s) && Enabled(cfg, s, By(t, op)) && k < cfg.n && MailShape(cfg, s.ws[k].pc, s.ws[k].m)
    ensures At(Apply(cfg, s, By(t, op)), k)
    ensures var w' := Apply(cfg, s, By(t, op)).ws[k]; MailShape(cfg, w'.pc, w'.m)
  {
    Reach(cfg, s, t, op);
    HandsAfter(cfg, s, t, op, k);
    BuffersAfter(cfg, s, t, op, k);
    if k == t { MailShapeMover(cfg, s, t, op); }
  }

  // ----- the vertices activated for the next level

  lemma {:induction false} TargetsGrow(a: multiset<Pair>, b: multiset<Pair>)
    requires forall p :: p in a ==> p in b
    ensures Targets(a) <= Targets(b)
  {
  }

  lemma {:induction false} TargetsAdd(a: multiset<Pair>, p: Pair)
    ensures Targets(a + multiset{p}) == Activated(Targets(a), p)
  {
    var b := a + multiset{p};
    forall q | q in b && Activates(q) ensures q.dest in Activated(Targets(a), p) {
      if q != p { assert q in a; }
    }
    forall d | d in Activated(Targets(a), p) ensures d in Targets(b) {
      if d in Targets(a) {
        var q :| q in a && Activates(q) && q.dest == d;
        assert q in b;
      } else {
        assert p in b;
      }
    }
  }

  lemma {:induction false} NextMover(cfg: Config, s: State, t: nat, op: Op)
    requires cfg.Valid() && Enabled(cfg, s, By(t, op)) && NextOk(s.ws[t].pc, s.ws[t].m)
    requires s.ws[t].m.todo != [] ==> s.ws[t].m.todo[0] in s.ws[t].m.sent
    ensures NextOk(NextPc(cfg, s, t, op), NextMail(cfg, s, t, op))
  {
    var m := s.ws[t].m;
    SwappedMover(cfg, s, t, op);
    if m.todo != [] { TargetsAdd(m.applied, m.todo[0]); }
    if op.ActivateOwn? {
      TargetsAdd(m.applied, Activation(op.id));
      TargetsAdd(m.sent, Activation(op.id));
    }
  }

  // The message at hand has been sent.
  lemma {:induction false} TodoSent(s: State, k: nat)
    requires At(s, k) && s.ws[k].m.todo != []
    requires MailExact(s, k, s.ws[k].m.todo[0])
    ensures s.ws[k].m.todo[0] in s.ws[k].m.sent
  {
    assert s.ws[k].m.todo[0] in multiset(s.ws[k].m.todo);
  }

  lemma {:induction false} NextTouched(w: Worker, pc: Pc, m: Mail, op: Op)
    requires NextOk(pc, m)
    ensures NextOk(pc, TouchedMail(w, m, op))
  {
    if op.Send? { TargetsGrow(m.sent, m.sent + multiset{op.p}); }
  }

  lemma {:induction false} NextStep(cfg: Config, s: State, t: nat, op: Op, k: nat)
    requires cfg.Valid() && Enabled(cfg, s, By(t, op)) && k < cfg.n
    requires op.StealSome? ==> s.ws[t].victim != t
    requires k == t && s.ws[k].m.todo != [] ==> MailExact(s, k, s.ws[k].m.todo[0])
    requires NextOk(s.ws[k].pc, s.ws[k].m)
    ensures At(Apply(cfg, s, By(t, op)), k)
    ensures var w' := Apply(cfg, s, By(t, op)).ws[k]; NextOk(w'.pc, w'.m)
  {
    HandsAfter(cfg, s, t, op, k);
    MailAfter(cfg, s, t, op, k);
    var pc := if k == t then NextPc(cfg, s, t, op) else s.ws[k].pc;
    var m := if k == t then NextMail(cfg, s, t, op) else s.ws[k].m;
    if k == t {
      if s.ws[k].m.todo != [] { TodoSent(s, k); }
      NextMover(cfg, s, t, op);
    }
    NextTouched(s.ws[t], pc, m, op);
  }

  // ----- the last processing of messages of the level

  // Past the first barrier nobody holds an item.
  lemma {:induction false} NothingHeld(cfg: Config, s: State, k: nat, x: Item)
    requires Core(cfg, s) && s.closing && k < cfg.n
    ensures !Holds(s.ws[k].h, x)
  {
    assert ItemShape(cfg, s.ws[k].pc, s.ws[k].victim, s.ws[k].h, k);
    assert Post(s.ws[k].pc);
  }

  lemma {:induction false} BitsGone(cfg: Config, s: State, k: nat)
    requires Core(cfg, s) && s.closing && k < cfg.n && BitsExact(s, k)
    ensures s.ws[k].st.bits == {}
  {
    forall d ensures d !in s.ws[k].st.bits {
      if EverMarked(s, Main(k, d)) {
        NothingHeld(cfg, s, s.fetchedBy[Main(k, d)], Main(k, d));
      }
    }
  }

  // A message still put aside means that its vertex has been returned.
  lemma {:induction false} AsideReturned(cfg: Config, s: State, k: nat)
    requires Core(cfg, s) && s.closing && k < cfg.n && BackExact(s, k) && AsideOk(s, k)
    ensures s.ws[k].m.stolenMsgs != [] ==> s.ws[k].st.numReturned > 0
  {
    if s.ws[k].m.stolenMsgs != [] {
      var x := Main(k, s.ws[k].m.stolenMsgs[0].dest);
      assert EverMarked(s, x);
      NothingHeld(cfg, s, s.fetchedBy[x], x);
      assert x in s.ws[k].st.back;
    }
  }

  lemma {:induction false} PostMailMover(cfg: Config, s: State, t: nat, op: Op)
    requires cfg.Valid() && Enabled(cfg, s, By(t, op)) && PostMail(cfg, t, s.ws[t])
    requires Post(s.ws[t].pc) && MailShape(cfg, s.ws[t].pc, s.ws[t].m)
    requires s.ws[t].m.stolenMsgs != [] ==> s.ws[t].st.numReturned > 0
    requires !Swapped(s.ws[t].pc) ==> s.ws[t].st.bits == {}
    requires op.SwapQueues? ==> s.ws[t].m.next == Targets(s.ws[t].m.sent)
    ensures PostMail(cfg, t, Mover(cfg, s, t, op))
  {
  }

  // A worker in the level proper, and its step, are far from the last processing.
  lemma {:induction false} PostMailEarly(cfg: Config, s: State, t: nat, op: Op)
    requires cfg.Valid() && Enabled(cfg, s, By(t, op)) && !Post(s.ws[t].pc)
    ensures !Post(NextPc(cfg, s, t, op)) && !Swapped(NextPc(cfg, s, t, op))
  {
    PostMover(cfg, s, t, op);
    SwappedMover(cfg, s, t, op);
  }

  // All pairs sent to a worker that has nothing waiting have been applied.
  lemma {:induction false} AllApplied(cfg: Config, s: State, k: nat)
    requires Core(cfg, s) && Mailed(cfg, s) && s.closing && k < cfg.n
    requires s.ws[k].pc.InitQueue? || Swapped(s.ws[k].pc)
    ensures s.ws[k].m.sent == s.ws[k].m.applied
    ensures s.ws[k].m.msgQ == [] && s.ws[k].m.stolenMsgs == [] && s.ws[k].m.todo == []
  {
    var m := s.ws[k].m;
    assert MailShape(cfg, s.ws[k].pc, m) && PostMail(cfg, k, s.ws[k]);
    forall i | 0 <= i < cfg.n ensures Box(s.ws[i], k) == [] {
      assert MailShape(cfg, s.ws[i].pc, s.ws[i].m) && Post(s.ws[i].pc);
    }
    forall p ensures m.sent[p] == m.applied[p] {
      assert MailExact(s, k, p);
      OutTimesEmpty(s.ws, k, p);
    }
  }

  // Before the first barrier the record of every worker is outside the last processing.
  lemma {:induction false} PostMailLevel(cfg: Config, s: State, t: nat, op: Op, k: nat)
    requires cfg.Valid() && Enabled(cfg, s, By(t, op)) && k < cfg.n && (op.StealSome? ==> s.ws[t].victim != t)
    requires !Post(s.ws[t].pc) && !Post(s.ws[k].pc) && !s.ws[k].pc.Stopped?
    ensures At(Apply(cfg, s, By(t, op)), k)
    ensures PostMail(cfg, k, Apply(cfg, s, By(t, op)).ws[k])
  {
    HandsAfter(cfg, s, t, op, k);
    PostMailEarly(cfg, s, t, op);
  }

  lemma {:induction false} PostMailClosing(cfg: Config, s: State, t: nat, op: Op, k: nat)
    requires cfg.Valid() && Enabled(cfg, s, By(t, op)) && k < cfg.n && Post(s.ws[t].pc)
    requires PostMail(cfg, k, s.ws[k])
    requires k == t ==> PostMail(cfg, t, Mover(cfg, s, t, op))
    ensures At(Apply(cfg, s, By(t, op)), k)
    ensures PostMail(cfg, k, Apply(cfg, s, By(t, op)).ws[k])
  {
    PostPeer(cfg, s, t, op);
    Frame(cfg, s, t, op, k);
    PostUntouched(cfg, s, t, op);
  }

  lemma {:induction false} PostMailStep(cfg: Config, s: State, t: nat, op: Op, k: nat)
    requires Core(cfg, s) && Stolen(cfg, s) && Safe(cfg, s) && Mailed(cfg, s) && Enabled(cfg, s, By(t, op)) && k < cfg.n
    ensures At(Apply(cfg, s, By(t, op)), k)
    ensures PostMail(cfg, k, Apply(cfg, s, By(t, op)).ws[k])
  {
    assert Post(s.ws[t].pc) == s.closing && Post(s.ws[k].pc) == s.closing;
    assert !s.ws[t].pc.Stopped? && !s.ws[k].pc.Stopped?;
    if s.closing {
      PostMailOwn(cfg, s, t, op);
      PostMailClosing(cfg, s, t, op, k);
    } else {
      Reach(cfg, s, t, op);
      PostMailLevel(cfg, s, t, op, k);
    }
  }

  lemma {:induction false} PostUntouched(cfg: Config, s: State, t: nat, op: Op)
    requires cfg.Valid() && Enabled(cfg, s, By(t, op)) && Post(s.ws[t].pc)
    ensures var w' := Mover(cfg, s, t, op); Touched(s.ws[t], w', op).m == w'.m
    ensures var w' := Mover(cfg, s, t, op); Touched(s.ws[t], w', op).h == w'.h
  {
  }

  lemma {:induction false} PostMailOwn(cfg: Config, s: State, t: nat, op: Op)
    requires Core(cfg, s) && Stolen(cfg, s) && Safe(cfg, s) && Mailed(cfg, s) && Enabled(cfg, s, By(t, op)) && s.closing
    ensures PostMail(cfg, t, Mover(cfg, s, t, op))
  {
    assert Post(s.ws[t].pc) && PostMail(cfg, t, s.ws[t]) && MailShape(cfg, s.ws[t].pc, s.ws[t].m);
    if !Swapped(s.ws[t].pc) {
      BitsGone(cfg, s, t);
      AsideReturned(cfg, s, t);
      if op.SwapQueues? {
        AllApplied(cfg, s, t);
        assert NextOk(s.ws[t].pc, s.ws[t].m);
      }
    }
    PostMailMover(cfg, s, t, op);
  }

  lemma {:induction false} MailShapesStep(cfg: Config, s: State, t: nat, op: Op)
    requires Core(cfg, s) && Stolen(cfg, s) && Safe(cfg, s) && Mailed(cfg, s) && Enabled(cfg, s, By(t, op))
    ensures var s' := Apply(cfg, s, By(t, op)); |s'.ws| == cfg.n && forall k :: 0 <= k < cfg.n ==> MailShape(cfg, s'.ws[k].pc, s'.ws[k].m)
  {
    var s' := Apply(cfg, s, By(t, op));
    Reach(cfg, s, t, op);
    forall k | 0 <= k < cfg.n ensures MailShape(cfg, s'.ws[k].pc, s'.ws[k].m) {
      MailShapeStep(cfg, s, t, op, k);
    }
  }

  lemma {:induction false} MailExactStep(cfg: Config, s: State, t: nat, op: Op)
    requires Core(cfg, s) && Stolen(cfg, s) && Safe(cfg, s) && Mailed(cfg, s) && Enabled(cfg, s, By(t, op))
    ensures var s' := Apply(cfg, s, By(t, op)); |s'.ws| == cfg.n && forall k, p :: 0 <= k < cfg.n ==> MailExact(s', k, p)
  {
    var s' := Apply(cfg, s, By(t, op));
    Reach(cfg, s, t, op);
    MailAfter(cfg, s, t, op, t);
    assert MailShape(cfg, s.ws[t].pc, s.ws[t].m);
    forall k, p | 0 <= k < cfg.n ensures MailExact(s', k, p) {
      assert MailExact(s, k, p);
      ExactStep(cfg, s, t, op, k, p);
    }
  }

  lemma {:induction false} MailedStep(cfg: Config, s: State, t: nat, op: Op)
    requires Core(cfg, s) && Stolen(cfg, s) && Safe(cfg, s) && Mailed(cfg, s) && Enabled(cfg, s, By(t, op))
    ensures |Apply(cfg, s, By(t, op)).ws| == cfg.n && Mailed(cfg, Apply(cfg, s, By(t, op)))
  {
    var s' := Apply(cfg, s, By(t, op));
    MailAfter(cfg, s, t, op, t);
    Reach(cfg, s, t, op);
    MailShapesStep(cfg, s, t, op);
    MailExactStep(cfg, s, t, op);
    forall k | 0 <= k < cfg.n ensures NextOk(s'.ws[k].pc, s'.ws[k].m) {
      assert forall p :: MailExact(s, k, p);
      NextStep(cfg, s, t, op, k);
    }
    forall k | 0 <= k < cfg.n ensures PostMail(cfg, k, s'.ws[k]) {
      PostMailStep(cfg, s, t, op, k);
    }
  }
}
