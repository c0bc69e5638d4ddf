/**
 What every step of the level engine keeps.  The invariant is a conjunction of small
 groups; each group is preserved by every step, given the whole invariant before it.
 */
module LevelInvariant {
  import opened LevelState

  // ----- phases of a level

  ghost predicate Phase(cfg: Config, s: State)
    requires |s.ws| == cfg.n
  {
    && (forall t :: 0 <= t < cfg.n ==> Post(s.ws[t].pc) == s.closing)
    && (s.decided ==> s.closing && forall t :: 0 <= t < cfg.n ==> s.ws[t].pc.Barrier2?)
    && (forall t, k :: 0 <= t < cfg.n && 0 <= k < cfg.n && s.ws[t].pc.Stopped? ==> s.ws[k].pc.Stopped?)
  }

  // ----- where a worker's items are, by its program counter

  ghost predicate ItemShape(cfg: Config, pc: Pc, victim: nat, h: Hands, t: nat) {
    && victim < cfg.n
    && StealShape(pc, victim, h, t)
    && ReturnShape(cfg, pc, h, t)
    && h.batch !! h.running !! h.completed !! h.returning
    && h.started == h.finished + |h.running|
    && EmptyShape(pc, h)
  }

  // The stolen batch and its bits.
  ghost predicate StealShape(pc: Pc, victim: nat, h: Hands, t: nat) {
    && (Stealing(pc) ==> victim != t && forall x :: x in h.batch ==> x.part == victim)
    && (!Limbo(pc) ==> h.batch == {})
    && (pc.Prep? ==> h.toMark == Mains(h.batch))
    && (pc.Mark? ==> h.toMark <= Mains(h.batch))
    && (!pc.Prep? && !pc.Mark? ==> h.toMark == {})
  }

  // Loot on its way back to the owners.
  ghost predicate ReturnShape(cfg: Config, pc: Pc, h: Hands, t: nat) {
    && (pc.Return? ==> pc.i <= cfg.n)
    && (pc.Clear? ==> pc.i < cfg.n)
    && (!pc.Clear? ==> h.returning == {})
    && (pc.Clear? ==> forall x :: x in h.returning ==> x.part == pc.i)
    && (forall x :: x in h.completed || x in h.returning ==> x.Main? && x.part != t && x.part < cfg.n)
    && (pc.Return? ==> forall x :: x in h.completed ==> pc.i <= x.part)
    && (pc.Clear? ==> forall x :: x in h.completed ==> pc.i < x.part)
  }

  // Past the test that ends the processing loop of the level.
  predicate Idle(pc: Pc) {
    pc.TestRemaining? || Ending(pc) || Post(pc) || pc.Stopped?
  }

  predicate LootGone(pc: Pc) {
    pc.Barrier1? || Post(pc) || pc.Stopped?
  }

  ghost predicate EmptyShape(pc: Pc, h: Hands) {
    && (Idle(pc) ==> h.running == {})
    && (pc.Steal? || (Idle(pc) && !pc.Arrive? && !pc.Barrier2?) ==> h.queue == {})
    && (LootGone(pc) ==> h.completed == {})
  }

  ghost predicate ItemShapes(cfg: Config, s: State)
    requires |s.ws| == cfg.n
  {
    forall t :: 0 <= t < cfg.n ==> ItemShape(cfg, s.ws[t].pc, s.ws[t].victim, s.ws[t].h, t)
  }

  // ----- who holds what

  // Worker t's queue holds unfetched items of its own partition.
  ghost predicate QueueOwned(s: State, t: nat)
    requires At(s, t)
  {
    && (forall x :: x in s.ws[t].h.queue ==> x.part == t)
    && (!Swapped(s.ws[t].pc) ==> forall x :: x in s.ws[t].h.queue ==> x in s.active && x !in s.fetchedBy)
  }

  ghost predicate HeldOwned(s: State, t: nat)
    requires At(s, t)
  {
    forall x :: Holds(s.ws[t].h, x) ==> x in s.fetchedBy && s.fetchedBy[x] == t
  }

  ghost predicate Owned(cfg: Config, s: State)
    requires |s.ws| == cfg.n
  {
    && (forall t :: 0 <= t < cfg.n ==> QueueOwned(s, t))
    && (forall t :: 0 <= t < cfg.n ==> HeldOwned(s, t))
    && (forall x :: x in s.fetchedBy ==> x in s.active && s.fetchedBy[x] < cfg.n)
    && (forall x :: x in s.active ==> x.part < cfg.n)
    && (forall x :: x in s.active ==> x in s.fetchedBy || x in s.ws[x.part].h.queue)
  }

  // x is fetched and its batch has been accounted for.
  predicate Accounted(s: State, x: Item) {
    x in s.fetchedBy && s.fetchedBy[x] < |s.ws| && x !in s.ws[s.fetchedBy[x]].h.batch
  }

  // The global count is the number of items whose batch has not been accounted for.
  ghost predicate Counted(s: State)
  {
    && (forall x :: x in s.processed <==> Accounted(s, x))
    && (!s.decided ==> s.remaining == |s.active| - |s.processed|)
  }

  ghost predicate Core(cfg: Config, s: State) {
    && cfg.Valid() && |s.ws| == cfg.n
    && Phase(cfg, s) && ItemShapes(cfg, s) && Owned(cfg, s) && Counted(s)
  }

  // ----- the second barrier

  ghost predicate Arrived(cfg: Config, s: State)
    requires |s.ws| == cfg.n
  {
    && (!s.closing ==> s.here == {} && s.arrived == 0 && s.tot == 0)
    && (s.closing ==> forall t :: 0 <= t < cfg.n ==> (t in s.here <==> s.ws[t].pc.Barrier2?))
    && (forall t :: t in s.here ==> t < cfg.n)
    && (forall x :: x in s.counted <==> x.part in s.here && x.part < |s.ws| && x in s.ws[x.part].h.queue)
    && (s.closing && !s.decided ==> |s.here| == s.arrived < cfg.n && s.tot == |s.counted| && s.remaining == 0)
    && (s.decided ==> s.arrived == 0 && s.tot == 0 && s.remaining == |s.counted| && s.isComplete == (s.counted == {}))
  }

  // ----- stolen vertices

  predicate Foreign(s: State, x: Item) {
    x in s.fetchedBy && s.fetchedBy[x] < |s.ws| && s.fetchedBy[x] != x.part
  }

  function Holder(s: State, x: Item): Worker
    requires Foreign(s, x)
  {
    s.ws[s.fetchedBy[x]]
  }

  // The thief has set x's bit, and may have cleared it since.
  predicate EverMarked(s: State, x: Item) {
    x.Main? && Foreign(s, x) && x !in Holder(s, x).h.toMark
  }

  predicate InHands(s: State, x: Item) {
    Foreign(s, x) && Holds(Holder(s, x).h, x)
  }

  // The thief of x has not yet seen an even guard.
  predicate PreSpin(s: State, x: Item) {
    Foreign(s, x) && x in Holder(s, x).h.batch && Waiting(Holder(s, x).pc)
  }

  // The thief of x has not yet added its batch to num_stolen.
  predicate PreCount(s: State, x: Item) {
    Foreign(s, x) && x in Holder(s, x).h.batch && Stealing(Holder(s, x).pc)
  }

  // x is being returned, or has been: it counts in num_returned.
  predicate GivenBack(s: State, x: Item) {
    Foreign(s, x) && (x in Holder(s, x).h.returning || !Holds(Holder(s, x).h, x))
  }

  ghost predicate BitsExact(s: State, w: nat)
    requires At(s, w)
  {
    forall d :: d in s.ws[w].st.bits <==> EverMarked(s, Main(w, d)) && InHands(s, Main(w, d))
  }

  ghost predicate TakenExact(s: State, w: nat)
    requires At(s, w)
  {
    && (forall x :: x in s.ws[w].st.taken <==> x.Main? && x.part == w && Foreign(s, x) && !PreCount(s, x))
    && s.ws[w].st.numStolen == |s.ws[w].st.taken|
  }

  ghost predicate BackExact(s: State, w: nat)
    requires At(s, w)
  {
    && (forall x :: x in s.ws[w].st.back <==> x.Main? && x.part == w && GivenBack(s, x))
    && s.ws[w].st.numReturned == |s.ws[w].st.back|
  }

  ghost predicate ResetSteal(st: StealState) {
    && st.bits == {} && st.numStolen == 0 && st.numReturned == 0 && st.prepare == 0 && st.guard == 0
    && !st.mode && st.taken == {} && st.back == {}
  }

  ghost predicate Stolen(cfg: Config, s: State)
    requires |s.ws| == cfg.n
  {
    forall w :: 0 <= w < cfg.n ==>
      if Swapped(s.ws[w].pc) then ResetSteal(s.ws[w].st)
      else BitsExact(s, w) && TakenExact(s, w) && BackExact(s, w)
  }

  // ----- the guard, and who may be past it

  // The owner is processing messages with check_steal decided.
  predicate Deciding(pc: Pc) {
    pc.Drain? || pc.GuardDown? || (InPairs(pc) && !pc.replay)
  }

  // x has been fetched by a thief that has not yet announced itself.
  predicate Unannounced(s: State, x: Item) {
    Foreign(s, x) && x in Holder(s, x).h.batch && Holder(s, x).pc.Prep?
  }

  ghost predicate NoIntruder(s: State, w: nat)
    requires At(s, w)
  {
    && (s.ws[w].st.prepare == 0 ==> forall x :: Foreign(s, x) && x.part == w ==> Unannounced(s, x))
    && (Deciding(s.ws[w].pc) && !s.ws[w].st.check ==> forall x :: Foreign(s, x) && x.part == w ==> PreSpin(s, x))
  }

  ghost predicate GuardOdd(w: Worker) {
    (w.st.guard % 2 == 1) == Guarded(w.pc)
  }

  // The vertex of the message worker w is about to run is not in a thief's hands.
  predicate Untouched(s: State, x: Item, replay: bool) {
    if replay then EverMarked(s, x) && !InHands(s, x)
    else Foreign(s, x) ==> PreSpin(s, x) || !InHands(s, x)
  }

  // Every message put aside has met its destination's bit set.
  ghost predicate MetBit(s: State, w: nat, ps: seq<Pair>) {
    forall i :: 0 <= i < |ps| ==> ps[i].Deliver? && EverMarked(s, Main(w, ps[i].dest))
  }

  ghost predicate AsideOk(s: State, w: nat)
    requires At(s, w)
  {
    && MetBit(s, w, s.ws[w].m.stolenMsgs)
    && (InPairs(s.ws[w].pc) && s.ws[w].pc.replay ==> MetBit(s, w, s.ws[w].m.todo))
  }

  ghost predicate RunOk(s: State, w: nat)
    requires At(s, w)
  {
    s.ws[w].pc.RunMsg? ==>
      && s.ws[w].m.todo != [] && s.ws[w].m.todo[0].Deliver?
      && Untouched(s, Main(w, s.ws[w].m.todo[0].dest), s.ws[w].pc.replay)
  }

  ghost predicate Safe(cfg: Config, s: State)
    requires |s.ws| == cfg.n
  {
    && (forall w :: 0 <= w < cfg.n ==> GuardOdd(s.ws[w]))
    && (forall w :: 0 <= w < cfg.n && !Swapped(s.ws[w].pc) ==> NoIntruder(s, w))
    && (forall w :: 0 <= w < cfg.n && !Swapped(s.ws[w].pc) ==> AsideOk(s, w))
    && (forall w :: 0 <= w < cfg.n && !Swapped(s.ws[w].pc) ==> RunOk(s, w))
  }

  // ----- messages

  function Times(ps: seq<Pair>, p: Pair): nat {
    multiset(ps)[p]
  }

  // How often p waits at its destination.
  function Waits(m: Mail, p: Pair): nat {
    Times(m.msgQ, p) + Times(m.stolenMsgs, p) + Times(m.todo, p)
  }

  function Box(w: Worker, k: nat): seq<Pair> {
    if k < |w.m.outbox| then w.m.outbox[k] else []
  }

  // How often p is in the senders' buffers for worker k.
  function OutTimes(ws: seq<Worker>, k: nat, p: Pair): nat {
    if ws == [] then 0 else OutTimes(ws[..|ws| - 1], k, p) + Times(Box(ws[|ws| - 1], k), p)
  }

  // The vertices that messages activate for the next level.
  function Targets(sent: multiset<Pair>): set<nat> {
    set p | p in sent && Activates(p) :: p.dest
  }

  // All senders' buffers have been flushed for the last time in this level.
  predicate OutboxDone(pc: Pc) {
    ((pc.Return? || pc.Clear?) && pc.last) || pc.Barrier1? || Post(pc) || pc.Stopped?
  }

  ghost predicate MailShape(cfg: Config, pc: Pc, m: Mail) {
    && |m.outbox| == cfg.n
    && (pc.Flush? ==> forall j :: 0 <= j < pc.i && j < cfg.n ==> m.outbox[j] == [])
    && (OutboxDone(pc) ==> forall j :: 0 <= j < cfg.n ==> m.outbox[j] == [])
    && (!InPairs(pc) ==> m.todo == [])
  }

  // Every pair sent to worker k and not applied waits somewhere, exactly as often.
  ghost predicate MailExact(s: State, k: nat, p: Pair)
    requires At(s, k)
  {
    s.ws[k].m.sent[p] == s.ws[k].m.applied[p] + Waits(s.ws[k].m, p) + OutTimes(s.ws, k, p)
  }

  ghost predicate NextOk(pc: Pc, m: Mail) {
    && m.next <= Targets(m.sent)
    && (!Swapped(pc) ==> Targets(m.applied) <= m.next)
  }

  // What the last processing of messages of the level leaves behind.
  ghost predicate PostMail(cfg: Config, k: nat, w: Worker) {
    && (Post(w.pc) && !w.pc.ReplayStart? ==> w.m.stolenMsgs == [])
    && ((Post(w.pc) && w.pc.GuardDown?) || w.pc.InitQueue? || Swapped(w.pc) ==> w.m.msgQ == [])
    && (Swapped(w.pc) ==> w.m.stolenMsgs == [] && w.m.next == {})
    && (w.pc.Arrive? || w.pc.Barrier2? ==> w.h.queue == Expand(cfg, k, Targets(w.m.sent)))
  }

  ghost predicate Mailed(cfg: Config, s: State)
    requires |s.ws| == cfg.n
  {
    && (forall k :: 0 <= k < cfg.n ==> MailShape(cfg, s.ws[k].pc, s.ws[k].m))
    && (forall k, p :: 0 <= k < cfg.n ==> MailExact(s, k, p))
    && (forall k :: 0 <= k < cfg.n ==> NextOk(s.ws[k].pc, s.ws[k].m))
    && (forall k :: 0 <= k < cfg.n ==> PostMail(cfg, k, s.ws[k]))
  }

  // Everything that holds in every reachable state.
  ghost predicate Inv(cfg: Config, s: State) {
    Core(cfg, s) && Arrived(cfg, s) && Stolen(cfg, s) && Safe(cfg, s) && Mailed(cfg, s)
  }
}
