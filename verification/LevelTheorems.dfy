/** What the level engine promises, over every run and any number of workers. */
module LevelTheorems {
  import opened LevelState
  import opened LevelInvariant
  import opened LevelCore
  import opened LevelSteal
  import opened LevelSafety
  import opened LevelMail
  import opened LevelRuns

  // ----- mutual exclusion between messages and thieves

  // Worker u has left steal_vertices (or never had to enter it) and has its hands on x.
  predicate Runs(s: State, u: nat, x: Item) {
    u < |s.ws| && Holds(s.ws[u].h, x) && !Waiting(s.ws[u].pc)
  }

  lemma {:induction false} Exclusion(cfg: Config, s: State, w: nat, u: nat)
    requires Inv(cfg, s) && w < cfg.n && s.ws[w].pc.RunMsg? && u != w
    ensures s.ws[w].m.todo != [] && !Runs(s, u, Main(w, s.ws[w].m.todo[0].dest))
  {
    assert RunOk(s, w);
    var x := Main(w, s.ws[w].m.todo[0].dest);
    assert u < cfg.n ==> HeldOwned(s, u);
    assert Runs(s, u, x) ==> Foreign(s, x) && InHands(s, x) && !PreSpin(s, x);
  }

  // In no reachable state does an owner run a vertex on a message while a thief past
  // steal_vertices still has that vertex, be it the message queue or the replay.
  lemma {:induction false} MessageExclusion(cfg: Config, states: seq<State>, steps: seq<Step>, i: nat, w: nat, u: nat)
    requires IsRun(cfg, states, steps) && i < |states| && w < cfg.n && u != w
    requires |states[i].ws| == cfg.n && states[i].ws[w].pc.RunMsg?
    ensures states[i].ws[w].m.todo != [] && !Runs(states[i], u, Main(w, states[i].ws[w].m.todo[0].dest))
  {
    InvOnRuns(cfg, states, steps, i);
    Exclusion(cfg, states[i], w, u);
  }

  // No item is in the hands of two workers.
  lemma {:induction false} OneHolder(cfg: Config, states: seq<State>, steps: seq<Step>, i: nat, u: nat, v: nat, x: Item)
    requires IsRun(cfg, states, steps) && i < |states| && |states[i].ws| == cfg.n && u < cfg.n && v < cfg.n
    requires Holds(states[i].ws[u].h, x) && Holds(states[i].ws[v].h, x)
    ensures u == v
  {
    InvOnRuns(cfg, states, steps, i);
    assert HeldOwned(states[i], u) && HeldOwned(states[i], v);
  }

  // ----- waits

  // Worker u spins in steal_vertices on the odd guard of worker v.
  predicate WaitsFor(s: State, u: nat, v: nat) {
    u < |s.ws| && v < |s.ws| && s.ws[u].pc.Spin? && s.ws[u].victim == v && s.ws[v].st.guard % 2 == 1
  }

  // A thread inside steal_vertices has its own guard even, so nobody waits for one that waits.
  lemma {:induction false} NoWaitChains(cfg: Config, states: seq<State>, steps: seq<Step>, i: nat, u: nat, v: nat)
    requires IsRun(cfg, states, steps) && i < |states|
    requires u < |states[i].ws| && Stealing(states[i].ws[u].pc)
    ensures states[i].ws[u].st.guard % 2 == 0 && !WaitsFor(states[i], v, u)
  {
    InvOnRuns(cfg, states, steps, i);
    assert GuardOdd(states[i].ws[u]);
  }

  // A step by which a worker that is neither spinning nor at a barrier moves on.
  ghost function Onward(cfg: Config, s: State, w: Worker): Op
    requires |s.ws| == cfg.n && w.victim < cfg.n
  {
    match w.pc
    case Return(i, _) => if i < cfg.n then ReturnPart else ReturnDone
    case Clear(_, _) => if w.h.returning == {} then ClearDone else var x: Item :| x in w.h.returning; ClearOne(x)
    case FetchOwn => if w.h.queue == {} then FetchNone else FetchSome(w.h.queue)
    case Steal(_) => if s.ws[w.victim].h.queue == {} then StealMiss else StealSome(s.ws[w.victim].h.queue)
    case Prep => Prepare
    case Mark => if w.h.toMark == {} then MarkDone else var x: Item :| x in w.h.toMark; MarkOne(x)
    case Spin => SpinExit
    case Count => CountStolen
    case Account => AccountBatch
    case Work(_) => if w.h.running == {} then WorkDone else var x: Item :| x in w.h.running; Complete(x)
    case ReplayStart(_) => StartReplay
    case Msgs(_, _) => if w.m.todo == [] then PairsDone else CheckPair
    case RunMsg(_, _) => RunPair
    case GuardUp(_) => GuardIncr
    case GuardLoad(_) => LoadPrepare
    case Drain(_) => if w.m.msgQ == [] then DrainDone else DrainSome(|w.m.msgQ|)
    case GuardDown(_) => GuardDecr
    case TestLocal => LoopTest
    case TestRemaining => RemainingTest
    case IterEnd => EndIteration
    case Flush(i) => if i < cfg.n then FlushPart else FlushDone
    case InitQueue => SwapQueues
    case _ => ArriveOne
  }

  lemma {:induction false} OnwardCan(cfg: Config, s: State, w: Worker)
    requires |s.ws| == cfg.n && w.victim < cfg.n && |w.m.outbox| == cfg.n
    requires w.pc.RunMsg? ==> w.m.todo != []
    requires w.pc.Clear? ==> w.pc.i < cfg.n
    requires w.pc.Spin? ==> s.ws[w.victim].st.guard % 2 == 0
    requires !w.pc.Barrier1? && !w.pc.Barrier2? && !w.pc.Stopped?
    ensures Can(cfg, s, w, Onward(cfg, s, w))
  {
  }

  lemma {:induction false} CanMove(cfg: Config, s: State, t: nat)
    requires Inv(cfg, s) && t < cfg.n && !s.ws[t].pc.Barrier1? && !s.ws[t].pc.Barrier2? && !s.ws[t].pc.Stopped?
    requires s.ws[t].pc.Spin? ==> s.ws[s.ws[t].victim].st.guard % 2 == 0
    ensures s.ws[t].victim < cfg.n && Enabled(cfg, s, By(t, Onward(cfg, s, s.ws[t])))
  {
    assert ItemShape(cfg, s.ws[t].pc, s.ws[t].victim, s.ws[t].h, t);
    assert MailShape(cfg, s.ws[t].pc, s.ws[t].m);
    if s.ws[t].pc.RunMsg? { assert RunOk(s, t); }
    OnwardCan(cfg, s, s.ws[t]);
  }

  lemma {:induction false} VictimOk(cfg: Config, s: State, t: nat)
    requires Inv(cfg, s) && t < cfg.n
    ensures s.ws[t].victim < cfg.n && GuardOdd(s.ws[s.ws[t].victim])
  {
    assert ItemShape(cfg, s.ws[t].pc, s.ws[t].victim, s.ws[t].h, t);
  }

  // A spinning worker's victim does not spin itself.
  lemma {:induction false} Unblocked(cfg: Config, s: State, t: nat) returns (u: nat)
    requires |s.ws| == cfg.n && t < cfg.n && s.ws[t].victim < cfg.n && GuardOdd(s.ws[s.ws[t].victim])
    requires !s.ws[t].pc.Barrier1? && !s.ws[t].pc.Barrier2? && !s.ws[t].pc.Stopped?
    ensures u < cfg.n && !s.ws[u].pc.Barrier1? && !s.ws[u].pc.Barrier2? && !s.ws[u].pc.Stopped?
    ensures s.ws[u].pc.Spin? ==> s.ws[u].victim < cfg.n && s.ws[s.ws[u].victim].st.guard % 2 == 0
    ensures u == t || Guarded(s.ws[u].pc)
  {
    u := if s.ws[t].pc.Spin? && s.ws[s.ws[t].victim].st.guard % 2 == 1 then s.ws[t].victim else t;
  }

  lemma {:induction false} OneCanMove(cfg: Config, s: State, t: nat) returns (step: Step)
    requires Inv(cfg, s) && t < cfg.n && !s.ws[t].pc.Barrier1? && !s.ws[t].pc.Barrier2? && !s.ws[t].pc.Stopped?
    ensures Enabled(cfg, s, step)
  {
    VictimOk(cfg, s, t);
    var u := Unblocked(cfg, s, t);
    CanMove(cfg, s, u);
    step := By(u, Onward(cfg, s, s.ws[u]));
  }

  lemma {:induction false} AllAtBarrier(cfg: Config, s: State) returns (step: Step)
    requires cfg.Valid() && |s.ws| == cfg.n && Phase(cfg, s)
    requires forall t :: 0 <= t < cfg.n ==> s.ws[t].pc.Barrier1? || s.ws[t].pc.Barrier2?
    ensures Enabled(cfg, s, step)
  {
    forall k | 0 <= k < cfg.n ensures s.ws[k].pc.Barrier1? == !s.closing && s.ws[k].pc.Barrier2? == s.closing {
      assert Post(s.ws[k].pc) == s.closing;
    }
    step := if s.closing then PassBarrier2 else PassBarrier1;
  }

  // The protocol never deadlocks: as long as the engine has not stopped, some step can be taken.
  lemma {:induction false} Progress(cfg: Config, states: seq<State>, steps: seq<Step>, i: nat, t: nat) returns (step: Step)
    requires IsRun(cfg, states, steps) && i < |states|
    requires t < |states[i].ws| && !states[i].ws[t].pc.Stopped?
    ensures Enabled(cfg, states[i], step)
  {
    var s := states[i];
    InvOnRuns(cfg, states, steps, i);
    assert forall k :: 0 <= k < cfg.n ==> !s.ws[k].pc.Stopped?;
    if u: nat :| u < cfg.n && !s.ws[u].pc.Barrier1? && !s.ws[u].pc.Barrier2? {
      step := OneCanMove(cfg, s, u);
    } else {
      step := AllAtBarrier(cfg, s);
    }
  }

  // ----- every active item is handed out exactly once a level

  predicate Fetches(step: Step, x: Item) {
    step.By? && Fetching(step.op) && x in step.op.got
  }

  lemma {:induction false} FetchIsFirst(cfg: Config, s: State, step: Step, x: Item)
    requires Inv(cfg, s) && Enabled(cfg, s, step) && Fetches(step, x)
    ensures x in s.active && x !in s.fetchedBy
    ensures x in Apply(cfg, s, step).fetchedBy
  {
    GotUnfetched(cfg, s, step.t, step.op);
    FetchedAfter(cfg, s, step.t, step.op, x);
  }

  lemma {:induction false} FetchedStays(cfg: Config, states: seq<State>, steps: seq<Step>, i: nat, j: nat, x: Item)
    requires IsRun(cfg, states, steps) && i <= j < |states|
    requires x in states[i].fetchedBy
    requires forall k :: i <= k < j ==> steps[k] != PassBarrier2
    ensures x in states[j].fetchedBy
  {
    if i < j {
      FetchedStays(cfg, states, steps, i, j - 1, x);
      FetchedStep(cfg, states[j - 1], steps[j - 1], x);
    }
  }

  lemma {:induction false} FetchedStep(cfg: Config, s: State, step: Step, x: Item)
    requires cfg.Valid() && Enabled(cfg, s, step) && step != PassBarrier2 && x in s.fetchedBy
    ensures x in Apply(cfg, s, step).fetchedBy
  {
    if step.By? { FetchedAfter(cfg, s, step.t, step.op, x); }
  }

  // Two fetches of one item, by owner or thief, are in different levels.
  lemma {:induction false} FetchedOnce(cfg: Config, states: seq<State>, steps: seq<Step>, i: nat, j: nat, x: Item)
    requires IsRun(cfg, states, steps) && i < j < |steps|
    requires Fetches(steps[i], x) && Fetches(steps[j], x)
    ensures exists k :: i < k < j && steps[k] == PassBarrier2
  {
    InvOnRuns(cfg, states, steps, i);
    InvOnRuns(cfg, states, steps, j);
    FetchIsFirst(cfg, states[i], steps[i], x);
    FetchIsFirst(cfg, states[j], steps[j], x);
    if forall k :: i < k < j ==> steps[k] != PassBarrier2 {
      assert steps[i].By?;
      FetchedStays(cfg, states, steps, i + 1, j, x);
    }
  }

  // ----- the global count of remaining vertices

  function BatchTotal(ws: seq<Worker>): nat {
    if ws == [] then 0 else BatchTotal(ws[..|ws| - 1]) + |ws[|ws| - 1].h.batch|
  }

  // What the first k workers have queued or are about to account for.
  function Pending(ws: seq<Worker>): set<Item> {
    if ws == [] then {} else Pending(ws[..|ws| - 1]) + ws[|ws| - 1].h.queue + ws[|ws| - 1].h.batch
  }

  lemma {:induction false} PendingIn(ws: seq<Worker>, x: Item)
    ensures x in Pending(ws) <==> exists t :: 0 <= t < |ws| && (x in ws[t].h.queue || x in ws[t].h.batch)
  {
    if |ws| > 0 {
      PendingIn(ws[..|ws| - 1], x);
      assert forall t :: 0 <= t < |ws| - 1 ==> ws[..|ws| - 1][t] == ws[t];
    }
  }

  lemma {:induction false} PendingCount(ws: seq<Worker>)
    requires forall t :: 0 <= t < |ws| ==> ws[t].h.queue !! ws[t].h.batch
    requires forall t, u :: 0 <= t < u < |ws| ==> ws[t].h.queue + ws[t].h.batch !! ws[u].h.queue + ws[u].h.batch
    ensures |Pending(ws)| == QueueTotal(ws) + BatchTotal(ws)
  {
    if |ws| > 0 {
      var rest := ws[..|ws| - 1];
      var h := ws[|ws| - 1].h;
      PendingCount(rest);
      forall x | x in Pending(rest) ensures x !in h.queue && x !in h.batch {
        PendingIn(rest, x);
        var t :| 0 <= t < |rest| && (x in rest[t].h.queue || x in rest[t].h.batch);
        assert x in ws[t].h.queue + ws[t].h.batch;
      }
      assert |Pending(ws)| == |Pending(rest) + h.queue| + |h.batch|;
    }
  }

  lemma {:induction false} PendingApart(cfg: Config, s: State, t: nat, u: nat)
    requires Core(cfg, s) && !s.closing && t < cfg.n && u < cfg.n
    ensures s.ws[t].h.queue !! s.ws[u].h.batch
    ensures t != u ==> s.ws[t].h.queue !! s.ws[u].h.queue && s.ws[t].h.batch !! s.ws[u].h.batch
  {
    assert EmptyShape(s.ws[t].pc, s.ws[t].h) by { assert ItemShape(cfg, s.ws[t].pc, s.ws[t].victim, s.ws[t].h, t); }
    assert Swapped(s.ws[t].pc) ==> s.ws[t].pc.Stopped?;
    OwnedApart(s, t, u);
  }

  lemma {:induction false} OwnedApart(s: State, t: nat, u: nat)
    requires At(s, t) && At(s, u) && QueueOwned(s, t) && QueueOwned(s, u) && HeldOwned(s, t) && HeldOwned(s, u)
    requires Swapped(s.ws[t].pc) ==> s.ws[t].h.queue == {}
    ensures s.ws[t].h.queue !! s.ws[u].h.batch
    ensures t != u ==> s.ws[t].h.queue !! s.ws[u].h.queue && s.ws[t].h.batch !! s.ws[u].h.batch
  {
    assert forall x :: x in s.ws[t].h.batch ==> Holds(s.ws[t].h, x);
    assert forall x :: x in s.ws[u].h.batch ==> Holds(s.ws[u].h, x);
  }

  // What is not yet accounted for is in a queue or in a batch, and the other way round.
  lemma {:induction false} PendingFound(cfg: Config, s: State, x: Item) returns (t: nat)
    requires Core(cfg, s) && x in s.active && x !in s.processed
    ensures t < |s.ws| && (x in s.ws[t].h.queue || x in s.ws[t].h.batch)
  {
    if x in s.fetchedBy {
      t := s.fetchedBy[x];
      assert !Accounted(s, x);
    } else {
      t := x.part;
    }
  }

  lemma {:induction false} PendingNew(cfg: Config, s: State, t: nat, x: Item)
    requires Core(cfg, s) && !s.closing && t < cfg.n && (x in s.ws[t].h.queue || x in s.ws[t].h.batch)
    ensures x in s.active && x !in s.processed
  {
    var h := s.ws[t].h;
    assert ItemShape(cfg, s.ws[t].pc, s.ws[t].victim, h, t) && QueueOwned(s, t) && HeldOwned(s, t);
    assert x in h.batch ==> Holds(h, x);
    assert Swapped(s.ws[t].pc) ==> s.ws[t].pc.Stopped?;
    assert !Accounted(s, x);
  }

  lemma {:induction false} PendingIs(cfg: Config, s: State)
    requires Core(cfg, s) && !s.closing
    ensures s.processed <= s.active && s.active - s.processed == Pending(s.ws)
  {
    forall x | x in s.processed ensures x in s.active { assert Accounted(s, x); }
    forall x | x in s.active && x !in s.processed ensures x in Pending(s.ws) {
      var t := PendingFound(cfg, s, x);
      PendingIn(s.ws, x);
    }
    forall x | x in Pending(s.ws) ensures x in s.active && x !in s.processed {
      PendingIn(s.ws, x);
      var t :| 0 <= t < |s.ws| && (x in s.ws[t].h.queue || x in s.ws[t].h.batch);
      PendingNew(cfg, s, t, x);
    }
  }

  // Before the barrier the global count is exactly the queues and the batches in limbo.
  lemma {:induction false} RemainingExact(cfg: Config, s: State)
    requires Inv(cfg, s) && !s.closing
    ensures s.remaining == QueueTotal(s.ws) + BatchTotal(s.ws)
  {
    forall t, u | 0 <= t < u < |s.ws| ensures s.ws[t].h.queue + s.ws[t].h.batch !! s.ws[u].h.queue + s.ws[u].h.batch {
      PendingApart(cfg, s, t, u);
      PendingApart(cfg, s, u, t);
    }
    forall t | 0 <= t < |s.ws| ensures s.ws[t].h.queue !! s.ws[t].h.batch { PendingApart(cfg, s, t, t); }
    PendingCount(s.ws);
    PendingIs(cfg, s);
  }

  lemma {:induction false} BatchTotalZero(ws: seq<Worker>)
    ensures BatchTotal(ws) == 0 <==> forall t :: 0 <= t < |ws| ==> ws[t].h.batch == {}
  {
    if |ws| > 0 {
      BatchTotalZero(ws[..|ws| - 1]);
      assert forall t :: 0 <= t < |ws| - 1 ==> ws[..|ws| - 1][t] == ws[t];
    }
  }

  lemma {:induction false} BatchTotalBounds(ws: seq<Worker>, t: nat)
    requires t < |ws|
    ensures |ws[t].h.batch| <= BatchTotal(ws)
  {
    if t < |ws| - 1 { BatchTotalBounds(ws[..|ws| - 1], t); }
  }

  lemma {:induction false} QueueTotalZero(ws: seq<Worker>)
    ensures QueueTotal(ws) == 0 <==> forall t :: 0 <= t < |ws| ==> ws[t].h.queue == {}
  {
    if |ws| > 0 {
      QueueTotalZero(ws[..|ws| - 1]);
      assert forall t :: 0 <= t < |ws| - 1 ==> ws[..|ws| - 1][t] == ws[t];
    }
  }

  lemma {:induction false} NoBatches(cfg: Config, s: State)
    requires Core(cfg, s) && s.decided
    ensures BatchTotal(s.ws) == 0 && forall t :: 0 <= t < cfg.n ==> s.ws[t].h.batch == {}
  {
    forall t | 0 <= t < cfg.n ensures s.ws[t].h.batch == {} {
      assert ItemShape(cfg, s.ws[t].pc, s.ws[t].victim, s.ws[t].h, t) && s.ws[t].pc.Barrier2?;
    }
    BatchTotalZero(s.ws);
  }

  // Once all workers have arrived at the second barrier, what has been counted is what is queued.
  lemma {:induction false} CountedQueues(cfg: Config, s: State)
    requires Core(cfg, s) && Arrived(cfg, s) && s.decided
    ensures |s.counted| == QueueTotal(s.ws)
  {
    NoBatches(cfg, s);
    OwnQueues(s);
    PendingCount(s.ws);
    forall x ensures x in s.counted <==> x in Pending(s.ws) {
      PendingIn(s.ws, x);
      CountedQueued(cfg, s, x);
    }
    assert s.counted == Pending(s.ws);
  }

  lemma {:induction false} OwnQueues(s: State)
    requires forall t :: 0 <= t < |s.ws| ==> QueueOwned(s, t) && s.ws[t].h.batch == {}
    ensures forall t, u :: 0 <= t < u < |s.ws| ==> s.ws[t].h.queue + s.ws[t].h.batch !! s.ws[u].h.queue + s.ws[u].h.batch
  {
    forall t, u | 0 <= t < u < |s.ws| ensures s.ws[t].h.queue + s.ws[t].h.batch !! s.ws[u].h.queue + s.ws[u].h.batch {
      assert QueueOwned(s, t) && QueueOwned(s, u);
    }
  }

  lemma {:induction false} CountedQueued(cfg: Config, s: State, x: Item)
    requires |s.ws| == cfg.n && Arrived(cfg, s) && s.closing && forall t :: 0 <= t < cfg.n ==> QueueOwned(s, t)
    requires forall t :: 0 <= t < cfg.n ==> s.ws[t].h.batch == {} && s.ws[t].pc.Barrier2?
    ensures x in s.counted <==> exists t :: 0 <= t < |s.ws| && (x in s.ws[t].h.queue || x in s.ws[t].h.batch)
  {
    forall t | 0 <= t < |s.ws| && x in s.ws[t].h.queue ensures x.part == t { assert QueueOwned(s, t); }
    assert forall t :: 0 <= t < cfg.n ==> t in s.here;
  }

  // From the first barrier to the last arrival at the second one the count is zero, so it
  // covers the queues only as long as no worker has swapped in a filled one.
  lemma {:induction false} RemainingClosing(cfg: Config, s: State)
    requires Inv(cfg, s) && s.closing
    ensures s.decided ==> s.remaining == QueueTotal(s.ws)
    ensures !s.decided ==> s.remaining == 0
  {
    if s.decided { CountedQueues(cfg, s); }
  }

  // In every reachable state: when the count covers the queues' contents.
  lemma {:induction false} RemainingCoversIff(cfg: Config, states: seq<State>, steps: seq<Step>, i: nat)
    requires IsRun(cfg, states, steps) && i < |states|
    ensures
      var s := states[i];
      && (s.remaining >= QueueTotal(s.ws) <==>
            !s.closing || s.decided || forall t :: 0 <= t < |s.ws| ==> s.ws[t].h.queue == {})
      && (s.decided ==> s.remaining == QueueTotal(s.ws))
  {
    InvOnRuns(cfg, states, steps, i);
    QueueTotalZero(states[i].ws);
    if states[i].closing {
      RemainingClosing(cfg, states[i]);
    } else {
      RemainingExact(cfg, states[i]);
    }
  }

  // Only the last arrival at the second barrier decides the level.
  lemma {:induction false} DecidingStep(cfg: Config, s: State, step: Step)
    requires Core(cfg, s) && Arrived(cfg, s) && Enabled(cfg, s, step) && Apply(cfg, s, step).decided
    ensures step.By? && step.op.ArriveOne? && s.closing && !s.decided
  {
    match step
    case By(t, op) => if op.ArriveOne? { Arriving(cfg, s, t); } else { StillUndecided(cfg, s, t, op); }
    case PassBarrier1 => CoreAt(cfg, s, 0);
    case PassBarrier2 =>
  }

  lemma {:induction false} QueueThen(cfg: Config, s: State, t: nat, k: nat)
    requires cfg.Valid() && Enabled(cfg, s, By(t, ArriveOne)) && k < cfg.n && At(Apply(cfg, s, By(t, ArriveOne)), k)
    ensures Apply(cfg, s, By(t, ArriveOne)).ws[k].h.queue == s.ws[k].h.queue
  {
    HandsAfter(cfg, s, t, ArriveOne, k);
  }

  // In every level that is not the last, just before the second barrier opens, the count falls
  // short of the queues' contents.
  lemma {:induction false} CountBehind(cfg: Config, states: seq<State>, steps: seq<Step>, i: nat)
    requires IsRun(cfg, states, steps) && i < |steps| && steps[i] == PassBarrier2 && !states[i].isComplete
    ensures i > 0 && states[i - 1].remaining < QueueTotal(states[i - 1].ws)
  {
    InvOnRuns(cfg, states, steps, i);
    var k := SomeQueued(cfg, states[i]);
    InvOnRuns(cfg, states, steps, i - 1);
    assert states[i - 1 + 1] == Apply(cfg, states[i - 1], steps[i - 1]);
    QueuedBefore(cfg, states[i - 1], steps[i - 1], k);
    RemainingCoversIff(cfg, states, steps, i - 1);
  }

  lemma {:induction false} QueuedBefore(cfg: Config, was: State, step: Step, k: nat)
    requires Core(cfg, was) && Arrived(cfg, was) && Enabled(cfg, was, step) && k < cfg.n
    requires var s := Apply(cfg, was, step); s.decided && At(s, k) && s.ws[k].h.queue != {}
    ensures was.closing && !was.decided && was.ws[k].h.queue != {}
  {
    DecidingStep(cfg, was, step);
    QueueThen(cfg, was, step.t, k);
  }

  lemma {:induction false} SomeQueued(cfg: Config, s: State) returns (k: nat)
    requires Core(cfg, s) && Arrived(cfg, s) && Enabled(cfg, s, PassBarrier2) && !s.isComplete
    ensures k < cfg.n && s.ws[k].h.queue != {} && s.decided
  {
    ClosingThen(cfg, s);
    AtBarrier2(cfg, s);
    var x :| x in s.counted;
    k := x.part;
  }

  // Before the first barrier the count never falls below the queues' contents, and equals
  // them exactly when no thread is between its fetch and its process_vertices.
  lemma {:induction false} RemainingCovers(cfg: Config, states: seq<State>, steps: seq<Step>, i: nat)
    requires IsRun(cfg, states, steps) && i < |states| && !states[i].closing
    ensures states[i].remaining >= QueueTotal(states[i].ws)
    ensures
      states[i].remaining == QueueTotal(states[i].ws)
      <==> forall t :: 0 <= t < |states[i].ws| ==> states[i].ws[t].h.batch == {}
    ensures forall t :: 0 <= t < |states[i].ws| && states[i].ws[t].h.batch != {} ==> Limbo(states[i].ws[t].pc)
  {
    InvOnRuns(cfg, states, steps, i);
    RemainingExact(cfg, states[i]);
    BatchTotalZero(states[i].ws);
    forall t | 0 <= t < cfg.n && states[i].ws[t].h.batch != {} ensures Limbo(states[i].ws[t].pc) {
      assert ItemShape(cfg, states[i].ws[t].pc, states[i].ws[t].victim, states[i].ws[t].h, t);
    }
  }

  // ----- the end of a level

  // Everybody is at the first barrier, or past it.
  lemma {:induction false} AllIdle(cfg: Config, s: State, t: nat, x: Item)
    requires Core(cfg, s) && t < cfg.n && (s.closing || Enabled(cfg, s, PassBarrier1))
    ensures !Stealing(s.ws[t].pc) && !Holds(s.ws[t].h, x)
  {
    assert Post(s.ws[t].pc) == s.closing;
    HandsEmpty(cfg, s.ws[t].pc, s.ws[t].victim, s.ws[t].h, t);
  }

  // Loot taken equals loot returned, item by item, and no bit is left set.
  lemma {:induction false} LootBack(cfg: Config, s: State, w: nat)
    requires Core(cfg, s) && w < cfg.n && (s.closing || Enabled(cfg, s, PassBarrier1))
    requires BitsExact(s, w) && TakenExact(s, w) && BackExact(s, w)
    ensures s.ws[w].st.taken == s.ws[w].st.back && s.ws[w].st.numStolen == s.ws[w].st.numReturned
    ensures s.ws[w].st.bits == {}
  {
    forall x ensures x in s.ws[w].st.taken <==> x in s.ws[w].st.back {
      if Foreign(s, x) { AllIdle(cfg, s, s.fetchedBy[x], x); }
      LootItem(s, w, x);
    }
    forall d ensures d !in s.ws[w].st.bits {
      if Foreign(s, Main(w, d)) { AllIdle(cfg, s, s.fetchedBy[Main(w, d)], Main(w, d)); }
    }
  }

  lemma {:induction false} LootItem(s: State, w: nat, x: Item)
    requires At(s, w) && TakenExact(s, w) && BackExact(s, w)
    requires Foreign(s, x) ==> !Stealing(Holder(s, x).pc) && !Holds(Holder(s, x).h, x)
    ensures x in s.ws[w].st.taken <==> x in s.ws[w].st.back
  {
  }

  // Once all workers reach the first barrier, every active item has been fetched and its
  // run accounted for, nothing is left to do, and every theft has been undone.
  lemma {:induction false} AtFirstBarrier(cfg: Config, states: seq<State>, steps: seq<Step>, i: nat)
    requires IsRun(cfg, states, steps) && i < |states| && Enabled(cfg, states[i], PassBarrier1)
    ensures states[i].remaining == 0 && states[i].processed == states[i].active
    ensures forall t :: 0 <= t < cfg.n ==>
      var w := states[i].ws[t];
      && w.h.queue == {} && w.h.running == {} && w.h.completed == {} && w.h.started == w.h.finished
      && w.st.numStolen == w.st.numReturned && w.st.bits == {}
  {
    var s := states[i];
    InvOnRuns(cfg, states, steps, i);
    NoneLeft(cfg, s);
    forall t | 0 <= t < cfg.n
      ensures
        var w := s.ws[t];
        && w.h.queue == {} && w.h.running == {} && w.h.completed == {} && w.h.started == w.h.finished
        && w.st.numStolen == w.st.numReturned && w.st.bits == {}
    {
      HandsEmpty(cfg, s.ws[t].pc, s.ws[t].victim, s.ws[t].h, t);
      LootBack(cfg, s, t);
    }
  }

  // ----- messages

  // When worker k resets its message processor, every pair sent to it in this level has
  // been applied exactly as often as it was sent, and no buffer holds anything.
  lemma {:induction false} DeliveredOnce(cfg: Config, states: seq<State>, steps: seq<Step>, i: nat, k: nat)
    requires IsRun(cfg, states, steps) && i < |states| && k < cfg.n && |states[i].ws| == cfg.n
    requires states[i].ws[k].pc.InitQueue? || states[i].ws[k].pc.Arrive? || states[i].ws[k].pc.Barrier2?
    ensures
      var m := states[i].ws[k].m;
      m.sent == m.applied && m.msgQ == [] && m.stolenMsgs == [] && m.todo == []
    ensures forall t :: 0 <= t < cfg.n ==> Box(states[i].ws[t], k) == []
  {
    var s := states[i];
    InvOnRuns(cfg, states, steps, i);
    assert Post(s.ws[k].pc) == s.closing;
    AllApplied(cfg, s, k);
    forall t | 0 <= t < cfg.n ensures Box(s.ws[t], k) == [] {
      assert MailShape(cfg, s.ws[t].pc, s.ws[t].m) && Post(s.ws[t].pc) == s.closing;
    }
  }

  // At no time has a pair been applied more often than it was sent.
  lemma {:induction false} NeverTwice(cfg: Config, states: seq<State>, steps: seq<Step>, i: nat, k: nat, p: Pair)
    requires IsRun(cfg, states, steps) && i < |states| && k < cfg.n && |states[i].ws| == cfg.n
    ensures states[i].ws[k].m.applied[p] <= states[i].ws[k].m.sent[p]
  {
    InvOnRuns(cfg, states, steps, i);
    assert MailExact(states[i], k, p);
  }

  // ----- the next level

  lemma {:induction false} ExpandEmpty(cfg: Config, k: nat, ids: set<nat>)
    requires cfg.Valid()
    ensures Expand(cfg, k, ids) == {} <==> ids == {}
  {
    if d :| d in ids {
      assert Main(k, d) in Expand(cfg, k, ids) || VPart(k, d, 0) in Expand(cfg, k, ids);
    }
  }

  lemma {:induction false} NextQueue(cfg: Config, s: State, k: nat)
    requires Inv(cfg, s) && Enabled(cfg, s, PassBarrier2) && k < cfg.n
    ensures s.closing && s.decided && s.isComplete == (s.counted == {})
    ensures s.ws[k].m.sent == s.ws[k].m.applied && s.ws[k].h.queue == Expand(cfg, k, Targets(s.ws[k].m.sent))
    ensures s.ws[k].h.queue <= s.counted
  {
    ClosingThen(cfg, s);
    AtBarrier2(cfg, s);
    AllApplied(cfg, s, k);
    assert PostMail(cfg, k, s.ws[k]) && QueueOwned(s, k);
  }

  lemma {:induction false} NextQueues(cfg: Config, s: State)
    requires Inv(cfg, s) && Enabled(cfg, s, PassBarrier2)
    ensures forall k :: 0 <= k < cfg.n ==> s.ws[k].h.queue == Expand(cfg, k, Targets(s.ws[k].m.sent))
    ensures s.isComplete <==> forall k :: 0 <= k < cfg.n ==> Targets(s.ws[k].m.sent) == {}
  {
    ClosingThen(cfg, s);
    AtBarrier2(cfg, s);
    forall k | 0 <= k < cfg.n
      ensures s.ws[k].h.queue == Expand(cfg, k, Targets(s.ws[k].m.sent)) && s.ws[k].h.queue <= s.counted
      ensures s.ws[k].h.queue == {} <==> Targets(s.ws[k].m.sent) == {}
    {
      NextQueue(cfg, s, k);
      ExpandEmpty(cfg, k, Targets(s.ws[k].m.sent));
    }
    if s.counted != {} {
      var x :| x in s.counted;
      assert x in s.ws[x.part].h.queue;
    }
  }

  predicate AllAt(s: State, pc: Pc) {
    forall k :: 0 <= k < |s.ws| ==> s.ws[k].pc == pc
  }

  // The level just ended is the last exactly when no message activated any vertex; the
  // vertices active in the next level are exactly the activated ones, expanded.
  lemma {:induction false} NextLevelActive(cfg: Config, states: seq<State>, steps: seq<Step>, i: nat)
    requires IsRun(cfg, states, steps) && i < |steps| && steps[i] == PassBarrier2
    ensures
      var s := states[i];
      && |s.ws| == |states[i + 1].ws| == cfg.n
      && (s.isComplete <==> forall k :: 0 <= k < cfg.n ==> Targets(s.ws[k].m.sent) == {})
      && (forall x :: x in states[i + 1].active <==>
            x.part < cfg.n && x in Expand(cfg, x.part, Targets(s.ws[x.part].m.sent)))
      && states[i + 1].remaining == |states[i + 1].active|
      && AllAt(states[i + 1], if s.isComplete then Stopped else Return(0, false))
  {
    var s := states[i];
    InvOnRuns(cfg, states, steps, i);
    NextQueues(cfg, s);
    NextActive(cfg, s);
  }

  lemma {:induction false} NextActive(cfg: Config, s: State)
    requires Core(cfg, s) && Arrived(cfg, s) && Enabled(cfg, s, PassBarrier2)
    ensures
      var s' := Apply(cfg, s, PassBarrier2);
      && |s'.ws| == cfg.n && s'.remaining == |s'.active|
      && (forall x :: x in s'.active <==> x.part < cfg.n && x in s.ws[x.part].h.queue)
      && AllAt(s', if s.isComplete then Stopped else Return(0, false))
  {
    ClosingThen(cfg, s);
    AtBarrier2(cfg, s);
    Barrier2Counts(cfg, s);
  }

  // ----- the assertions in the program

  // What the program asserts just before the step.
  ghost predicate Asserted(cfg: Config, s: State, t: nat, op: Op)
    requires |s.ws| == cfg.n && t < cfg.n
  {
    var w := s.ws[t];
    match op
    case AccountBatch => s.remaining >= |w.h.batch|
    case EndIteration => w.h.queue == {} && w.h.started == w.h.finished
    case ClearOne(x) => w.pc.Clear? && x.part == w.pc.i
    case ReturnDone => w.pc.Return? && w.h.completed == {}
    case SwapQueues =>
      && w.h.queue == {} && w.h.completed == {} && w.st.numStolen == w.st.numReturned
      && w.m.msgQ == [] && w.m.stolenMsgs == []
    case ArriveOne => s.arrived + 1 == cfg.n ==> s.remaining == 0
    case _ => true
  }

  lemma {:induction false} ArrivedAsserts(cfg: Config, s: State, t: nat)
    requires cfg.Valid() && Enabled(cfg, s, By(t, ArriveOne)) && Phase(cfg, s) && Arrived(cfg, s)
    ensures s.remaining == 0
  {
    PostIs(cfg, s, t);
  }

  lemma {:induction false} AccountAsserts(cfg: Config, s: State, t: nat)
    requires Inv(cfg, s) && t < cfg.n && !s.closing
    ensures s.remaining >= |s.ws[t].h.batch|
  {
    RemainingExact(cfg, s);
    BatchTotalBounds(s.ws, t);
  }

  lemma {:induction false} SwapHands(cfg: Config, s: State, t: nat)
    requires Core(cfg, s) && Stolen(cfg, s) && t < cfg.n && s.ws[t].pc.InitQueue?
    ensures s.closing && s.ws[t].h.queue == {} && s.ws[t].h.completed == {} && s.ws[t].st.numStolen == s.ws[t].st.numReturned
  {
    CoreAt(cfg, s, t);
    HandsEmpty(cfg, s.ws[t].pc, s.ws[t].victim, s.ws[t].h, t);
    LootBack(cfg, s, t);
  }

  lemma {:induction false} SwapAsserts(cfg: Config, s: State, t: nat)
    requires Inv(cfg, s) && Enabled(cfg, s, By(t, SwapQueues))
    ensures Asserted(cfg, s, t, SwapQueues)
  {
    SwapHands(cfg, s, t);
    AllApplied(cfg, s, t);
  }

  // None of the assertions fails in any run.
  lemma {:induction false} AssertionsHold(cfg: Config, states: seq<State>, steps: seq<Step>, i: nat)
    requires IsRun(cfg, states, steps) && i < |steps| && steps[i].By?
    ensures |states[i].ws| == cfg.n && steps[i].t < cfg.n && Asserted(cfg, states[i], steps[i].t, steps[i].op)
  {
    var s, t, op := states[i], steps[i].t, steps[i].op;
    InvOnRuns(cfg, states, steps, i);
    if op.ArriveOne? {
      ArrivedAsserts(cfg, s, t);
    } else if op.AccountBatch? {
      CoreAt(cfg, s, t);
      AccountAsserts(cfg, s, t);
    } else if op.SwapQueues? {
      SwapAsserts(cfg, s, t);
    } else {
      LocalAsserts(cfg, s, t, op);
    }
  }

  lemma {:induction false} LocalAsserts(cfg: Config, s: State, t: nat, op: Op)
    requires Core(cfg, s) && Enabled(cfg, s, By(t, op)) && !op.ArriveOne? && !op.AccountBatch? && !op.SwapQueues?
    ensures Asserted(cfg, s, t, op)
  {
    assert ItemShape(cfg, s.ws[t].pc, s.ws[t].victim, s.ws[t].h, t);
  }
}
