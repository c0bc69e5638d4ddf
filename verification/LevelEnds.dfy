/**
 Levels end.  A rank of the state, of four counts in order of importance, falls with every
 step that does not wait for others and is not a vertex sending something.
 */
module LevelEnds {
  import opened LevelState
  import opened LevelInvariant
  import opened LevelCore
  import opened LevelMail
  import opened LevelRuns
  import opened LevelTheorems

  // ----- the rank of one worker

  // The items it still has to fetch, account for and run in this level.
  function Items(pc: Pc, h: Hands): nat {
    if Post(pc) then 0 else 3 * |h.queue| + 2 * |h.batch| + |h.running|
  }

  // How far it is from the second barrier.
  function Base(pc: Pc): nat {
    match pc
    case Return(_, last) => if last then 11 else 31
    case Clear(_, last) => if last then 11 else 31
    case FetchOwn => 30
    case Steal(_) => 29
    case Prep => 28
    case Mark => 27
    case Spin => 26
    case Count => 25
    case Account => 24
    case Work(io) => if io then 16 else 23
    case ReplayStart(post) => if post then 9 else 22
    case Msgs(replay, post) => if replay then (if post then 8 else 21) else (if post then 5 else 18)
    case RunMsg(replay, post) => if replay then (if post then 8 else 21) else (if post then 5 else 18)
    case GuardUp(post) => if post then 7 else 20
    case GuardLoad(post) => if post then 6 else 19
    case Drain(post) => if post then 5 else 18
    case GuardDown(post) => if post then 4 else 17
    case TestLocal => 15
    case TestRemaining => 14
    case IterEnd => 13
    case Flush(_) => 12
    case Barrier1 => 10
    case InitQueue => 3
    case Arrive => 2
    case Barrier2 => 1
    case Stopped => 0
  }

  // Between the fetch and the test that ends the loop of the level.
  predicate Inside(pc: Pc) {
    Limbo(pc) || pc.Work? || pc.TestLocal? || (!Post(pc) && (pc.ReplayStart? || InPairs(pc) || pc.GuardUp? || Guarded(pc)))
  }

  // With something in its queue, or running, it has another round to go.
  function Place(pc: Pc, h: Hands): nat {
    Base(pc) + if (h.queue != {} && Inside(pc)) || (h.running != {} && pc.TestLocal?) then 40 else 0
  }

  // What is left of a loop over partitions or items.
  function Part(n: nat, pc: Pc, h: Hands): nat {
    match pc
    case Return(i, _) => 2 * |h.completed| + |h.returning| + if i <= n then 2 * (n - i) + 1 else 0
    case Clear(i, _) => 2 * |h.completed| + |h.returning| + if i <= n then 2 * (n - i) else 0
    case Steal(tries) => if tries < n then n - tries else 0
    case Mark => |h.toMark|
    case Flush(i) => if i < n then n - i else 0
    case _ => 0
  }

  // The messages it has at hand.
  function MailLeft(pc: Pc, m: Mail): nat {
    match pc
    case Msgs(replay, _) => 2 * |m.todo| + 1 + if replay then 0 else 4 * |m.msgQ|
    case RunMsg(replay, _) => 2 * |m.todo| + if replay then 0 else 4 * |m.msgQ|
    case Drain(_) => 4 * |m.msgQ|
    case _ => 0
  }

  // ----- the rank of a state

  datatype Rank = Rank(items: nat, place: nat, part: nat, mail: nat)

  predicate Lower(a: Rank, b: Rank) {
    || a.items < b.items
    || (a.items == b.items && (a.place < b.place
    || (a.place == b.place && (a.part < b.part
    || (a.part == b.part && a.mail < b.mail)))))
  }

  function Sum(v: seq<nat>): nat {
    if v == [] then 0 else Sum(v[..|v| - 1]) + v[|v| - 1]
  }

  lemma {:induction false} SumAtMost(a: seq<nat>, b: seq<nat>)
    requires |a| == |b| && forall k :: 0 <= k < |a| ==> b[k] <= a[k]
    ensures Sum(b) <= Sum(a)
  {
    if a != [] { SumAtMost(a[..|a| - 1], b[..|b| - 1]); }
  }

  lemma {:induction false} SumLess(a: seq<nat>, b: seq<nat>, t: nat)
    requires |a| == |b| && t < |a| && b[t] < a[t] && forall k :: 0 <= k < |a| ==> b[k] <= a[k]
    ensures Sum(b) < Sum(a)
  {
    var n := |a| - 1;
    if t < n { SumLess(a[..n], b[..n], t); } else { SumAtMost(a[..n], b[..n]); }
  }

  lemma {:induction false} SumUpdate(v: seq<nat>, i: nat, x: nat)
    requires i < |v|
    ensures Sum(v[i := x]) + v[i] == Sum(v) + x
  {
    var n := |v| - 1;
    if i < n {
      SumUpdate(v[..n], i, x);
      assert v[i := x][..n] == v[..n][i := x];
    } else {
      assert v[i := x][..n] == v[..n];
    }
  }

  // Two entries change, together to less.
  lemma {:induction false} SumMoves(a: seq<nat>, b: seq<nat>, t: nat, p: nat)
    requires |a| == |b| && t < |a| && p < |a| && t != p && b[t] + b[p] < a[t] + a[p]
    requires forall k :: 0 <= k < |a| && k != t && k != p ==> b[k] == a[k]
    ensures Sum(b) < Sum(a)
  {
    SumUpdate(a, t, b[t]);
    SumUpdate(a[t := b[t]], p, b[p]);
    assert a[t := b[t]][p := b[p]] == b;
  }

  function ItemsOf(ws: seq<Worker>): (r: seq<nat>)
    ensures |r| == |ws| && forall k :: 0 <= k < |ws| ==> r[k] == Items(ws[k].pc, ws[k].h)
  {
    seq(|ws|, k requires 0 <= k < |ws| => Items(ws[k].pc, ws[k].h))
  }

  function PlacesOf(ws: seq<Worker>): (r: seq<nat>)
    ensures |r| == |ws| && forall k :: 0 <= k < |ws| ==> r[k] == Place(ws[k].pc, ws[k].h)
  {
    seq(|ws|, k requires 0 <= k < |ws| => Place(ws[k].pc, ws[k].h))
  }

  function PartsOf(n: nat, ws: seq<Worker>): (r: seq<nat>)
    ensures |r| == |ws| && forall k :: 0 <= k < |ws| ==> r[k] == Part(n, ws[k].pc, ws[k].h)
  {
    seq(|ws|, k requires 0 <= k < |ws| => Part(n, ws[k].pc, ws[k].h))
  }

  function MailsOf(ws: seq<Worker>): (r: seq<nat>)
    ensures |r| == |ws| && forall k :: 0 <= k < |ws| ==> r[k] == MailLeft(ws[k].pc, ws[k].m)
  {
    seq(|ws|, k requires 0 <= k < |ws| => MailLeft(ws[k].pc, ws[k].m))
  }

  function RankOf(ws: seq<Worker>): Rank {
    Rank(Sum(ItemsOf(ws)), Sum(PlacesOf(ws)), Sum(PartsOf(|ws|, ws)), Sum(MailsOf(ws)))
  }

  // ----- steps that wait, and steps in which a vertex sends

  // Another round because others still have vertices, because the worker leaves its queue
  // alone for now, or because vertices of its own still run.
  predicate Waits(s: State, t: nat, op: Op)
    requires At(s, t)
  {
    || (op.RemainingTest? && s.remaining > 0)
    || (op.FetchSkip? && s.ws[t].h.queue != {})
    || (op.WorkDone? && s.ws[t].pc == Work(true) && s.ws[t].h.running != {})
  }

  predicate Sends(op: Op) {
    op.Send? || op.ActivateOwn? || op.FlushEarly?
  }

  // The operations by what they lower.
  predicate MovesItems(op: Op) {
    op.FetchSome? || op.StealSome? || op.Complete?
  }

  predicate MovesOn(cfg: Config, s: State, t: nat, op: Op)
    requires At(s, t)
  {
    || op.ReturnDone? || op.FetchNone? || op.FetchSkip? || op.Prepare? || op.MarkDone? || op.SpinExit? || op.CountStolen?
    || op.AccountBatch? || op.WorkDone? || op.StartReplay? || op.GuardIncr? || op.LoadPrepare? || op.DrainDone? || op.GuardDecr?
    || op.LoopTest? || op.RemainingTest? || op.EndIteration? || op.FlushDone? || op.SwapQueues? || op.ArriveOne?
    || (op.PairsDone? && s.ws[t].pc.Msgs? && s.ws[t].pc.replay)
    || (op.StealMiss? && s.ws[t].pc.Steal? && s.ws[t].pc.tries + 1 >= cfg.n)
  }

  predicate MovesMail(s: State, t: nat, op: Op)
    requires At(s, t)
  {
    || op.CheckPair? || op.RunPair? || op.DrainSome? || (op.PairsDone? && s.ws[t].pc.Msgs? && !s.ws[t].pc.replay)
  }

  // ----- the acting worker

  lemma {:induction false} OwnItems(cfg: Config, s: State, t: nat, op: Op)
    requires Shaped(cfg, s, t, op) && !MovesItems(op)
    ensures Items(NextPc(cfg, s, t, op), NextHands(cfg, s.ws[t], t, op)) <= Items(s.ws[t].pc, s.ws[t].h)
  {
    SamePost(cfg, s, t, op);
    if op.AccountBatch? {
      assert |s.ws[t].h.running + s.ws[t].h.batch| == |s.ws[t].h.running| + |s.ws[t].h.batch|;
    } else if !op.SwapQueues? {
      ItemsLeft(cfg, s.ws[t], t, op);
    }
  }

  lemma {:induction false} SamePost(cfg: Config, s: State, t: nat, op: Op)
    requires cfg.Valid() && Enabled(cfg, s, By(t, op))
    ensures Post(NextPc(cfg, s, t, op)) == Post(s.ws[t].pc) && (op.SwapQueues? ==> Post(s.ws[t].pc))
  {
    PostMover(cfg, s, t, op);
  }

  lemma {:induction false} ItemsLeft(cfg: Config, w: Worker, t: nat, op: Op)
    requires (op.ReturnPart? ==> w.pc.Return?) && !MovesItems(op) && !op.AccountBatch? && !op.SwapQueues?
    ensures
      var h' := NextHands(cfg, w, t, op);
      h'.queue == w.h.queue && h'.batch == w.h.batch && h'.running == w.h.running
  {
  }

  lemma {:induction false} ItemsFall(cfg: Config, s: State, t: nat, op: Op)
    requires Shaped(cfg, s, t, op) && (op.FetchSome? || op.Complete?)
    ensures Items(NextPc(cfg, s, t, op), NextHands(cfg, s.ws[t], t, op)) < Items(s.ws[t].pc, s.ws[t].h)
  {
    SamePost(cfg, s, t, op);
    var h := s.ws[t].h;
    if op.FetchSome? {
      assert |h.queue| == |h.queue - op.got| + |op.got| && |op.got| > 0;
    } else {
      assert |h.running| == |h.running - {op.x}| + 1;
    }
  }

  // What a thief takes weighs less in its hands than in the victim's queue.
  lemma {:induction false} LootWeighs(cfg: Config, s: State, t: nat, op: Op)
    requires Shaped(cfg, s, t, op) && op.StealSome? && !Post(s.ws[s.ws[t].victim].pc)
    ensures
      var v := s.ws[s.ws[t].victim];
      && |op.got| > 0
      && Items(NextPc(cfg, s, t, op), NextHands(cfg, s.ws[t], t, op)) == Items(s.ws[t].pc, s.ws[t].h) + 2 * |op.got|
      && Items(v.pc, v.h.(queue := v.h.queue - op.got)) + 3 * |op.got| == Items(v.pc, v.h)
  {
    SamePost(cfg, s, t, op);
    var q := s.ws[s.ws[t].victim].h.queue;
    assert |q| == |q - op.got| + |op.got|;
  }

  lemma {:induction false} PlaceFalls(cfg: Config, s: State, t: nat, op: Op)
    requires Shaped(cfg, s, t, op) && MovesOn(cfg, s, t, op) && !Waits(s, t, op)
    ensures Place(NextPc(cfg, s, t, op), NextHands(cfg, s.ws[t], t, op)) < Place(s.ws[t].pc, s.ws[t].h)
  {
    var w := s.ws[t];
    if op.LoopTest? {
      TestFalls(cfg, s, t);
    } else {
      OnPc(cfg, s, t, op);
      if !op.SwapQueues? { OnHands(cfg, w, t, op); }
      OnPlace(w.pc, NextPc(cfg, s, t, op), w.h, NextHands(cfg, w, t, op));
    }
  }

  // The test for the end of the loop of the level: another round, or on to the next test.
  lemma {:induction false} TestFalls(cfg: Config, s: State, t: nat)
    requires Shaped(cfg, s, t, LoopTest)
    ensures Place(NextPc(cfg, s, t, LoopTest), NextHands(cfg, s.ws[t], t, LoopTest)) < Place(s.ws[t].pc, s.ws[t].h)
  {
    TestStep(cfg, s, t);
    TestPlace(s.ws[t].h);
  }

  lemma {:induction false} TestStep(cfg: Config, s: State, t: nat)
    requires cfg.Valid() && Enabled(cfg, s, By(t, LoopTest))
    ensures
      var h := s.ws[t].h;
      && s.ws[t].pc.TestLocal? && NextHands(cfg, s.ws[t], t, LoopTest) == h
      && NextPc(cfg, s, t, LoopTest) == if h.started > h.finished || h.queue != {} then Return(0, false) else TestRemaining
  {
  }

  lemma {:induction false} TestPlace(h: Hands)
    requires h.started == h.finished + |h.running|
    ensures Place(if h.started > h.finished || h.queue != {} then Return(0, false) else TestRemaining, h) < Place(TestLocal, h)
  {
    assert h.started > h.finished <==> h.running != {};
  }

  lemma {:induction false} OnPlace(pc: Pc, pc': Pc, h: Hands, h': Hands)
    requires Base(pc') < Base(pc)
    requires Inside(pc') && h'.queue != {} ==> Inside(pc) && h.queue != {}
    requires pc'.TestLocal? && h'.running != {} ==> h'.queue != {}
    ensures Place(pc', h') < Place(pc, h)
  {
  }

  lemma {:induction false} OnPc(cfg: Config, s: State, t: nat, op: Op)
    requires cfg.Valid() && Enabled(cfg, s, By(t, op)) && MovesOn(cfg, s, t, op) && !op.LoopTest? && !(op.RemainingTest? && s.remaining > 0)
    ensures
      var pc, pc' := s.ws[t].pc, NextPc(cfg, s, t, op);
      && Base(pc') < Base(pc)
      && (Inside(pc') ==> Inside(pc) || pc.FetchOwn? || pc.Steal?)
      && (Inside(pc') && pc.FetchOwn? ==> op.FetchSkip?)
      && (pc'.TestLocal? ==> op.WorkDone? && pc == Work(true))
  {
  }

  lemma {:induction false} OnHands(cfg: Config, w: Worker, t: nat, op: Op)
    requires !MovesItems(op) && !op.ReturnPart? && !op.SwapQueues?
    ensures NextHands(cfg, w, t, op).queue == w.h.queue && (op.WorkDone? ==> NextHands(cfg, w, t, op).running == w.h.running)
  {
  }

  // The loops over partitions, loot and marks.
  predicate MovesPart(cfg: Config, s: State, t: nat, op: Op)
    requires At(s, t)
  {
    || op.ReturnPart? || op.ClearOne? || op.ClearDone? || op.MarkOne? || op.FlushPart?
    || (op.StealMiss? && s.ws[t].pc.Steal? && s.ws[t].pc.tries + 1 < cfg.n)
  }

  lemma {:induction false} EveryOp(cfg: Config, s: State, t: nat, op: Op)
    requires cfg.Valid() && Enabled(cfg, s, By(t, op))
    ensures Sends(op) || MovesItems(op) || MovesOn(cfg, s, t, op) || MovesPart(cfg, s, t, op) || MovesMail(s, t, op)
  {
  }

  lemma {:induction false} PartFalls(cfg: Config, s: State, t: nat, op: Op)
    requires Shaped(cfg, s, t, op) && MovesPart(cfg, s, t, op)
    ensures Place(NextPc(cfg, s, t, op), NextHands(cfg, s.ws[t], t, op)) <= Place(s.ws[t].pc, s.ws[t].h)
    ensures Part(cfg.n, NextPc(cfg, s, t, op), NextHands(cfg, s.ws[t], t, op)) < Part(cfg.n, s.ws[t].pc, s.ws[t].h)
  {
    PartPc(cfg, s, t, op);
    PartLess(cfg, s, t, op);
  }

  lemma {:induction false} PartPc(cfg: Config, s: State, t: nat, op: Op)
    requires cfg.Valid() && Enabled(cfg, s, By(t, op)) && MovesPart(cfg, s, t, op)
    ensures Place(NextPc(cfg, s, t, op), NextHands(cfg, s.ws[t], t, op)) <= Place(s.ws[t].pc, s.ws[t].h)
  {
  }

  lemma {:induction false} PartLess(cfg: Config, s: State, t: nat, op: Op)
    requires Shaped(cfg, s, t, op) && MovesPart(cfg, s, t, op)
    ensures Part(cfg.n, NextPc(cfg, s, t, op), NextHands(cfg, s.ws[t], t, op)) < Part(cfg.n, s.ws[t].pc, s.ws[t].h)
  {
    var w := s.ws[t];
    if op.ReturnPart? {
      PartReturned(cfg.n, w.pc, w.h);
    } else if op.ClearOne? {
      PartSmaller(w.h.returning, op.x);
    } else if op.MarkOne? {
      PartSmaller(w.h.toMark, op.x);
    } else {
      PartCounted(cfg, s, t, op);
    }
  }

  lemma {:induction false} PartCounted(cfg: Config, s: State, t: nat, op: Op)
    requires cfg.Valid() && Enabled(cfg, s, By(t, op)) && (op.ClearDone? ==> s.ws[t].pc.i < cfg.n)
    requires MovesPart(cfg, s, t, op) && !op.ReturnPart? && !op.ClearOne? && !op.MarkOne?
    ensures Part(cfg.n, NextPc(cfg, s, t, op), NextHands(cfg, s.ws[t], t, op)) < Part(cfg.n, s.ws[t].pc, s.ws[t].h)
  {
  }

  lemma {:induction false} PartSmaller(items: set<Item>, x: Item)
    requires x in items
    ensures |items - {x}| == |items| - 1
  {
  }

  lemma {:induction false} PartReturned(n: nat, pc: Pc, h: Hands)
    requires pc.Return? && pc.i < n && h.returning == {}
    ensures
      var got := OfPart(h.completed, pc.i);
      var h' := h.(completed := h.completed - got, returning := got);
      Part(n, if got == {} then Return(pc.i + 1, pc.last) else Clear(pc.i, pc.last), h') < Part(n, pc, h)
  {
    var got := OfPart(h.completed, pc.i);
    assert |h.completed| == |h.completed - got| + |got|;
  }

  // Reading messages: of the worker's record only its program counter and its mail count.
  lemma {:induction false} MailFalls(cfg: Config, s: State, t: nat, op: Op)
    requires cfg.Valid() && Enabled(cfg, s, By(t, op)) && MovesMail(s, t, op) && (!InPairs(s.ws[t].pc) ==> s.ws[t].m.todo == [])
    ensures NextHands(cfg, s.ws[t], t, op) == s.ws[t].h
    ensures Base(NextPc(cfg, s, t, op)) == Base(s.ws[t].pc) && Inside(NextPc(cfg, s, t, op)) == Inside(s.ws[t].pc)
    ensures !NextPc(cfg, s, t, op).TestLocal? && Part(cfg.n, NextPc(cfg, s, t, op), s.ws[t].h) == Part(cfg.n, s.ws[t].pc, s.ws[t].h)
    ensures MailLeft(NextPc(cfg, s, t, op), NextMail(cfg, s, t, op)) < MailLeft(s.ws[t].pc, s.ws[t].m)
  {
  }

  // ----- the whole state

  // Of all other workers neither the program counter nor the items change, unless one is
  // stolen from.
  lemma {:induction false} OthersStay(cfg: Config, s: State, t: nat, op: Op, ws: seq<Worker>)
    requires cfg.Valid() && Enabled(cfg, s, By(t, op)) && !op.StealSome? && ws == Workers(cfg, s, t, op)
    ensures |ws| == cfg.n && ws[t].pc == NextPc(cfg, s, t, op) && ws[t].h == NextHands(cfg, s.ws[t], t, op)
    ensures forall k :: 0 <= k < cfg.n && k != t ==> ws[k].pc == s.ws[k].pc && ws[k].h == s.ws[k].h
  {
    HandsAfter(cfg, s, t, op, t);
    forall k | 0 <= k < cfg.n && k != t ensures ws[k].pc == s.ws[k].pc && ws[k].h == s.ws[k].h { HandsAfter(cfg, s, t, op, k); }
  }

  lemma {:induction false} ItemsLower(a: seq<Worker>, b: seq<Worker>, t: nat)
    requires |a| == |b| && t < |a| && Items(b[t].pc, b[t].h) < Items(a[t].pc, a[t].h)
    requires forall k :: 0 <= k < |a| && k != t ==> b[k].pc == a[k].pc && b[k].h == a[k].h
    ensures Lower(RankOf(b), RankOf(a))
  {
    SumLess(ItemsOf(a), ItemsOf(b), t);
  }

  lemma {:induction false} PlaceLower(a: seq<Worker>, b: seq<Worker>, t: nat)
    requires |a| == |b| && t < |a| && Items(b[t].pc, b[t].h) <= Items(a[t].pc, a[t].h)
    requires Place(b[t].pc, b[t].h) < Place(a[t].pc, a[t].h)
    requires forall k :: 0 <= k < |a| && k != t ==> b[k].pc == a[k].pc && b[k].h == a[k].h
    ensures Lower(RankOf(b), RankOf(a))
  {
    SumAtMost(ItemsOf(a), ItemsOf(b));
    SumLess(PlacesOf(a), PlacesOf(b), t);
  }

  lemma {:induction false} PartLower(a: seq<Worker>, b: seq<Worker>, t: nat)
    requires |a| == |b| && t < |a| && Items(b[t].pc, b[t].h) <= Items(a[t].pc, a[t].h)
    requires Place(b[t].pc, b[t].h) <= Place(a[t].pc, a[t].h) && Part(|a|, b[t].pc, b[t].h) < Part(|a|, a[t].pc, a[t].h)
    requires forall k :: 0 <= k < |a| && k != t ==> b[k].pc == a[k].pc && b[k].h == a[k].h
    ensures Lower(RankOf(b), RankOf(a))
  {
    SumAtMost(ItemsOf(a), ItemsOf(b));
    SumAtMost(PlacesOf(a), PlacesOf(b));
    SumLess(PartsOf(|a|, a), PartsOf(|a|, b), t);
  }

  lemma {:induction false} MailLower(a: seq<Worker>, b: seq<Worker>, t: nat)
    requires |a| == |b| && t < |a| && b[t].h == a[t].h && Items(b[t].pc, b[t].h) <= Items(a[t].pc, a[t].h)
    requires Place(b[t].pc, b[t].h) <= Place(a[t].pc, a[t].h) && Part(|a|, b[t].pc, b[t].h) <= Part(|a|, a[t].pc, a[t].h)
    requires MailLeft(b[t].pc, b[t].m) < MailLeft(a[t].pc, a[t].m)
    requires forall k :: 0 <= k < |a| && k != t ==> b[k].pc == a[k].pc && b[k].h == a[k].h && b[k].m == a[k].m
    ensures Lower(RankOf(b), RankOf(a))
  {
    SumAtMost(ItemsOf(a), ItemsOf(b));
    SumAtMost(PlacesOf(a), PlacesOf(b));
    SumAtMost(PartsOf(|a|, a), PartsOf(|a|, b));
    SumLess(MailsOf(a), MailsOf(b), t);
  }

  lemma {:induction false} StealLower(cfg: Config, s: State, t: nat, op: Op)
    requires Core(cfg, s) && Enabled(cfg, s, By(t, op)) && op.StealSome?
    ensures Lower(RankOf(Workers(cfg, s, t, op)), RankOf(s.ws))
  {
    var ws, v := Workers(cfg, s, t, op), s.ws[t].victim;
    CoreAt(cfg, s, t);
    GotUnfetched(cfg, s, t, op);
    CoreAt(cfg, s, v);
    SamePost(cfg, s, t, op);
    assert !Post(s.ws[t].pc);
    LootWeighs(cfg, s, t, op);
    HandsAfter(cfg, s, t, op, t);
    HandsAfter(cfg, s, t, op, v);
    forall k | 0 <= k < cfg.n && k != t && k != v ensures ItemsOf(ws)[k] == ItemsOf(s.ws)[k] { HandsAfter(cfg, s, t, op, k); }
    SumMoves(ItemsOf(s.ws), ItemsOf(ws), t, v);
  }

  lemma {:induction false} MailsLower(cfg: Config, s: State, t: nat, op: Op)
    requires cfg.Valid() && Enabled(cfg, s, By(t, op)) && MovesMail(s, t, op) && (!InPairs(s.ws[t].pc) ==> s.ws[t].m.todo == [])
    ensures Lower(RankOf(Workers(cfg, s, t, op)), RankOf(s.ws))
  {
    var ws := Workers(cfg, s, t, op);
    OthersStay(cfg, s, t, op, ws);
    MailFalls(cfg, s, t, op);
    SamePost(cfg, s, t, op);
    forall k | 0 <= k < cfg.n ensures ws[k].m == if k == t then NextMail(cfg, s, t, op) else s.ws[k].m { MailAfter(cfg, s, t, op, k); }
    MailLower(s.ws, ws, t);
  }

  // Every step of a worker that neither waits nor sends lowers the rank.
  lemma {:induction false} RankFalls(cfg: Config, s: State, t: nat, op: Op)
    requires Inv(cfg, s) && Enabled(cfg, s, By(t, op)) && !Sends(op) && !Waits(s, t, op)
    ensures Lower(RankOf(Apply(cfg, s, By(t, op)).ws), RankOf(s.ws))
  {
    var ws := Workers(cfg, s, t, op);
    CoreAt(cfg, s, t);
    EveryOp(cfg, s, t, op);
    if op.StealSome? {
      StealLower(cfg, s, t, op);
    } else if MovesMail(s, t, op) {
      TodoAt(cfg, s, t);
      MailsLower(cfg, s, t, op);
    } else {
      OthersStay(cfg, s, t, op, ws);
      if MovesItems(op) {
        ItemsFall(cfg, s, t, op);
        ItemsLower(s.ws, ws, t);
      } else {
        OwnItems(cfg, s, t, op);
        if MovesOn(cfg, s, t, op) {
          PlaceFalls(cfg, s, t, op);
          PlaceLower(s.ws, ws, t);
        } else {
          PartFalls(cfg, s, t, op);
          PartLower(s.ws, ws, t);
        }
      }
    }
  }

  lemma {:induction false} TodoAt(cfg: Config, s: State, t: nat)
    requires |s.ws| == cfg.n && Mailed(cfg, s) && t < cfg.n
    ensures !InPairs(s.ws[t].pc) ==> s.ws[t].m.todo == []
  {
    assert MailShape(cfg, s.ws[t].pc, s.ws[t].m);
  }

  // So does the first barrier.
  lemma {:induction false} BarrierFalls(cfg: Config, s: State)
    requires Core(cfg, s) && Enabled(cfg, s, PassBarrier1)
    ensures Lower(RankOf(Apply(cfg, s, PassBarrier1).ws), RankOf(s.ws))
  {
    var ws := Apply(cfg, s, PassBarrier1).ws;
    forall k | 0 <= k < cfg.n ensures ItemsOf(ws)[k] <= ItemsOf(s.ws)[k] && PlacesOf(ws)[k] < PlacesOf(s.ws)[k] {
      PastBarrier(s.ws[k].h);
    }
    SumAtMost(ItemsOf(s.ws), ItemsOf(ws));
    SumLess(PlacesOf(s.ws), PlacesOf(ws), 0);
  }

  lemma {:induction false} PastBarrier(h: Hands)
    ensures Items(ReplayStart(true), h) <= Items(Barrier1, h) && Place(ReplayStart(true), h) < Place(Barrier1, h)
  {
  }

  // ----- some step always lowers the rank, until the level ends

  predicate AtBarrier(pc: Pc) {
    pc.Barrier1? || pc.Barrier2? || pc.Stopped?
  }

  // A step of the level that neither waits nor sends.
  ghost predicate Works(cfg: Config, s: State, step: Step) {
    && Enabled(cfg, s, step) && step != PassBarrier2
    && (step.By? ==> !Sends(step.op) && !Waits(s, step.t, step.op))
  }

  lemma {:induction false} WorksLowers(cfg: Config, s: State, step: Step)
    requires Inv(cfg, s) && Works(cfg, s, step)
    ensures Lower(RankOf(Apply(cfg, s, step).ws), RankOf(s.ws))
  {
    match step
    case By(t, op) => RankFalls(cfg, s, t, op);
    case PassBarrier1 => BarrierFalls(cfg, s);
  }

  lemma {:induction false} OnwardWorks(cfg: Config, s: State, t: nat)
    requires |s.ws| == cfg.n && t < cfg.n && s.ws[t].victim < cfg.n && !AtBarrier(s.ws[t].pc)
    requires s.ws[t].pc.TestRemaining? ==> s.remaining <= 0
    ensures !Sends(Onward(cfg, s, s.ws[t])) && !Waits(s, t, Onward(cfg, s, s.ws[t]))
  {
  }

  // Of the workers not at a barrier one can go on without waiting.
  lemma {:induction false} SomeoneWorks(cfg: Config, s: State, t: nat) returns (step: Step)
    requires Inv(cfg, s) && t < cfg.n && !AtBarrier(s.ws[t].pc) && (s.ws[t].pc.TestRemaining? ==> s.remaining <= 0)
    ensures Works(cfg, s, step)
  {
    VictimOk(cfg, s, t);
    var u := Unblocked(cfg, s, t);
    step := ThisWorks(cfg, s, u);
  }

  lemma {:induction false} ThisWorks(cfg: Config, s: State, u: nat) returns (step: Step)
    requires Inv(cfg, s) && u < cfg.n && !AtBarrier(s.ws[u].pc) && (s.ws[u].pc.TestRemaining? ==> s.remaining <= 0)
    requires s.ws[u].pc.Spin? ==> s.ws[u].victim < cfg.n && s.ws[s.ws[u].victim].st.guard % 2 == 0
    ensures Works(cfg, s, step)
  {
    CanMove(cfg, s, u);
    OnwardWorks(cfg, s, u);
    step := By(u, Onward(cfg, s, s.ws[u]));
  }

  // When all others are at the barrier or wait for the count, the count is zero.
  lemma {:induction false} NothingLeft(cfg: Config, s: State, t: nat)
    requires Inv(cfg, s) && t < cfg.n && s.ws[t].pc.TestRemaining?
    requires forall k :: 0 <= k < cfg.n ==> s.ws[k].pc.TestRemaining? || AtBarrier(s.ws[k].pc)
    ensures s.remaining == 0
  {
    forall k | 0 <= k < cfg.n ensures s.ws[k].h.queue == {} && s.ws[k].h.batch == {} { EmptyAt(cfg, s, t, k); }
    CoreAt(cfg, s, t);
    NothingCounted(cfg, s);
  }

  lemma {:induction false} NothingCounted(cfg: Config, s: State)
    requires Inv(cfg, s) && !s.closing && forall k :: 0 <= k < cfg.n ==> s.ws[k].h.queue == {} && s.ws[k].h.batch == {}
    ensures s.remaining == 0
  {
    RemainingExact(cfg, s);
    BatchTotalZero(s.ws);
    QueueTotalZero(s.ws);
  }

  lemma {:induction false} EmptyAt(cfg: Config, s: State, t: nat, k: nat)
    requires Core(cfg, s) && t < cfg.n && s.ws[t].pc.TestRemaining? && k < cfg.n
    requires s.ws[k].pc.TestRemaining? || AtBarrier(s.ws[k].pc)
    ensures s.ws[k].h.queue == {} && s.ws[k].h.batch == {}
  {
    CoreAt(cfg, s, t);
    CoreAt(cfg, s, k);
    NoneStopped(cfg, s, k, t);
    EmptyHere(cfg, s.ws[k].pc, s.ws[k].victim, s.ws[k].h, k);
  }

  lemma {:induction false} NoneStopped(cfg: Config, s: State, k: nat, t: nat)
    requires Core(cfg, s) && k < cfg.n && t < cfg.n && !s.ws[t].pc.Stopped?
    ensures !s.ws[k].pc.Stopped?
  {
  }

  lemma {:induction false} EmptyHere(cfg: Config, pc: Pc, victim: nat, h: Hands, k: nat)
    requires ItemShape(cfg, pc, victim, h, k) && (pc.TestRemaining? || pc.Barrier1?)
    ensures h.queue == {} && h.batch == {}
  {
  }

  lemma {:induction false} NextWork(cfg: Config, s: State) returns (step: Step)
    requires Inv(cfg, s) && !s.ws[0].pc.Stopped? && !Enabled(cfg, s, PassBarrier2)
    ensures Works(cfg, s, step)
  {
    if t: nat :| t < cfg.n && !AtBarrier(s.ws[t].pc) && !s.ws[t].pc.TestRemaining? {
      step := SomeoneWorks(cfg, s, t);
    } else if t: nat :| t < cfg.n && !AtBarrier(s.ws[t].pc) {
      NothingLeft(cfg, s, t);
      step := SomeoneWorks(cfg, s, t);
    } else {
      AllArrived(cfg, s);
      step := PassBarrier1;
    }
  }

  lemma {:induction false} AllArrived(cfg: Config, s: State)
    requires Core(cfg, s) && !s.ws[0].pc.Stopped? && forall t :: 0 <= t < cfg.n ==> AtBarrier(s.ws[t].pc)
    ensures Enabled(cfg, s, PassBarrier1) || Enabled(cfg, s, PassBarrier2)
  {
    forall k | 0 <= k < cfg.n ensures if s.closing then s.ws[k].pc.Barrier2? else s.ws[k].pc.Barrier1? { WhichBarrier(cfg, s, k); }
    BarrierOpen(cfg, s);
  }

  lemma {:induction false} WhichBarrier(cfg: Config, s: State, k: nat)
    requires Core(cfg, s) && k < cfg.n && !s.ws[0].pc.Stopped? && AtBarrier(s.ws[k].pc)
    ensures if s.closing then s.ws[k].pc.Barrier2? else s.ws[k].pc.Barrier1?
  {
    CoreAt(cfg, s, k);
    NoneStopped(cfg, s, k, 0);
  }

  lemma {:induction false} BarrierOpen(cfg: Config, s: State)
    requires |s.ws| == cfg.n && forall k :: 0 <= k < cfg.n ==> if s.closing then s.ws[k].pc.Barrier2? else s.ws[k].pc.Barrier1?
    ensures Enabled(cfg, s, PassBarrier1) || Enabled(cfg, s, PassBarrier2)
  {
  }

  // ----- runs

  predicate Running(s: State) {
    s.ws != [] && !s.ws[0].pc.Stopped?
  }

  // The run goes on from where it was by steps that neither wait nor send nor end the level.
  ghost predicate GoesOn(cfg: Config, states: seq<State>, steps: seq<Step>, states': seq<State>, steps': seq<Step>)
    requires |states| == |steps| + 1
  {
    && IsRun(cfg, states', steps') && |steps| <= |steps'|
    && states'[..|states|] == states && steps'[..|steps|] == steps
    && forall i :: |steps| <= i < |steps'| ==> Works(cfg, states'[i], steps'[i])
  }

  lemma {:induction false} OneStep(cfg: Config, states: seq<State>, steps: seq<Step>, step: Step)
    requires IsRun(cfg, states, steps) && Enabled(cfg, states[|steps|], step)
    ensures IsRun(cfg, states + [Apply(cfg, states[|steps|], step)], steps + [step])
  {
  }

  lemma {:induction false} OneStepEarlier(cfg: Config, states: seq<State>, steps: seq<Step>, x: State, step: Step, states': seq<State>, steps': seq<Step>)
    requires |states| == |steps| + 1 && GoesOn(cfg, states + [x], steps + [step], states', steps') && Works(cfg, states[|steps|], step)
    ensures GoesOn(cfg, states, steps, states', steps')
  {
    assert states'[..|states|] == states'[..|states| + 1][..|states|] && (states + [x])[..|states|] == states;
    assert steps'[..|steps|] == steps'[..|steps| + 1][..|steps|] && (steps + [step])[..|steps|] == steps;
    assert states'[..|states| + 1][|steps|] == states[|steps|] && steps'[..|steps| + 1][|steps|] == step;
  }

  // From every reachable state the level can be brought to its end, without another message.
  lemma {:induction false} LevelCanEnd(cfg: Config, states: seq<State>, steps: seq<Step>) returns (states': seq<State>, steps': seq<Step>)
    requires IsRun(cfg, states, steps) && Running(states[|steps|])
    ensures GoesOn(cfg, states, steps, states', steps') && Enabled(cfg, states'[|steps'|], PassBarrier2)
    decreases RankOf(states[|steps|].ws).items, RankOf(states[|steps|].ws).place, RankOf(states[|steps|].ws).part, RankOf(states[|steps|].ws).mail
  {
    if Enabled(cfg, states[|steps|], PassBarrier2) {
      states', steps' := states, steps;
    } else {
      var step, x := NextInRun(cfg, states, steps);
      states', steps' := LevelCanEnd(cfg, states + [x], steps + [step]);
      OneStepEarlier(cfg, states, steps, x, step, states', steps');
    }
  }

  lemma {:induction false} NextInRun(cfg: Config, states: seq<State>, steps: seq<Step>) returns (step: Step, x: State)
    requires IsRun(cfg, states, steps) && Running(states[|steps|]) && !Enabled(cfg, states[|steps|], PassBarrier2)
    ensures IsRun(cfg, states + [x], steps + [step]) && Works(cfg, states[|steps|], step)
    ensures Running(x) && Lower(RankOf(x.ws), RankOf(states[|steps|].ws))
  {
    InvOnRuns(cfg, states, steps, |steps|);
    step, x := NextLower(cfg, states[|steps|]);
    OneStep(cfg, states, steps, step);
  }

  lemma {:induction false} NextLower(cfg: Config, s: State) returns (step: Step, x: State)
    requires Inv(cfg, s) && Running(s) && !Enabled(cfg, s, PassBarrier2)
    ensures Works(cfg, s, step) && x == Apply(cfg, s, step) && Running(x) && Lower(RankOf(x.ws), RankOf(s.ws))
  {
    step := NextWork(cfg, s);
    WorksLowers(cfg, s, step);
    NotStopped(cfg, s, step);
    x := Apply(cfg, s, step);
  }

  lemma {:induction false} NotStopped(cfg: Config, s: State, step: Step)
    requires cfg.Valid() && Enabled(cfg, s, step) && step != PassBarrier2 && Running(s)
    ensures Running(Apply(cfg, s, step))
  {
    if step.By? { StillThere(cfg, s, step.t, step.op); }
  }

  lemma {:induction false} StillThere(cfg: Config, s: State, t: nat, op: Op)
    requires cfg.Valid() && Enabled(cfg, s, By(t, op)) && Running(s)
    ensures Running(Apply(cfg, s, By(t, op)))
  {
    PostMover(cfg, s, t, op);
  }

  // An endless run.
  ghost predicate Endless(cfg: Config, run: nat -> State, step: nat -> Step) {
    Initial(cfg, run(0)) && forall i: nat :: Enabled(cfg, run(i), step(i)) && run(i + 1) == Apply(cfg, run(i), step(i))
  }

  lemma {:induction false} InvEndless(cfg: Config, run: nat -> State, step: nat -> Step, i: nat)
    requires Endless(cfg, run, step)
    ensures Inv(cfg, run(i))
  {
    if i == 0 {
      assert IsRun(cfg, [run(0)], []);
      InvOnRuns(cfg, [run(0)], [], 0);
    } else {
      InvEndless(cfg, run, step, i - 1);
      assert run(i - 1 + 1) == Apply(cfg, run(i - 1), step(i - 1));
      InvStep(cfg, run(i - 1), step(i - 1));
    }
  }

  // In a run that never ends, again and again a level ends, or a vertex sends, or a worker
  // takes another round to wait for the others, its own vertices or its own queue.
  lemma {:induction false} NoEndlessLevel(cfg: Config, run: nat -> State, step: nat -> Step, i: nat) returns (j: nat)
    requires Endless(cfg, run, step)
    ensures j >= i && !Works(cfg, run(j), step(j))
    decreases RankOf(run(i).ws).items, RankOf(run(i).ws).place, RankOf(run(i).ws).part, RankOf(run(i).ws).mail
  {
    if Works(cfg, run(i), step(i)) {
      InvEndless(cfg, run, step, i);
      WorksLowers(cfg, run(i), step(i));
      assert run(i + 1) == Apply(cfg, run(i), step(i));
      j := NoEndlessLevel(cfg, run, step, i + 1);
    } else {
      j := i;
    }
  }

  // ----- the engine stops when vertices stop sending

  // Nobody has sent a message in this level.
  ghost predicate Silent(s: State) {
    forall k :: 0 <= k < |s.ws| ==> s.ws[k].m.sent == multiset{}
  }

  // What has been sent to the workers is the same.
  ghost predicate SameSent(a: seq<Worker>, b: seq<Worker>) {
    |a| == |b| && forall k :: 0 <= k < |a| ==> b[k].m.sent == a[k].m.sent
  }

  lemma {:induction false} StaysSent(cfg: Config, s: State, step: Step)
    requires cfg.Valid() && Works(cfg, s, step)
    ensures SameSent(s.ws, Apply(cfg, s, step).ws)
  {
    if step.By? {
      SameCount(cfg, s, step.t, step.op);
      forall k | 0 <= k < cfg.n ensures Workers(cfg, s, step.t, step.op)[k].m.sent == s.ws[k].m.sent { SentAt(cfg, s, step.t, step.op, k); }
    }
  }

  lemma {:induction false} SameCount(cfg: Config, s: State, t: nat, op: Op)
    requires cfg.Valid() && Enabled(cfg, s, By(t, op))
    ensures |Workers(cfg, s, t, op)| == cfg.n
  {
  }

  lemma {:induction false} SentAt(cfg: Config, s: State, t: nat, op: Op, k: nat)
    requires cfg.Valid() && Enabled(cfg, s, By(t, op)) && !Sends(op) && k < cfg.n
    ensures |Workers(cfg, s, t, op)| == cfg.n && Workers(cfg, s, t, op)[k].m.sent == s.ws[k].m.sent
  {
    MailAfter(cfg, s, t, op, k);
    SentKept(cfg, s, t, op);
  }

  lemma {:induction false} SentKept(cfg: Config, s: State, t: nat, op: Op)
    requires cfg.Valid() && Enabled(cfg, s, By(t, op)) && !Sends(op)
    ensures NextMail(cfg, s, t, op).sent == s.ws[t].m.sent
  {
  }

  lemma {:induction false} NextSent(cfg: Config, states: seq<State>, steps: seq<Step>, j: nat)
    requires IsRun(cfg, states, steps) && j < |steps| && Works(cfg, states[j], steps[j])
    ensures SameSent(states[j].ws, states[j + 1].ws)
  {
    StaysSent(cfg, states[j], steps[j]);
  }

  lemma {:induction false} SameTwice(a: seq<Worker>, b: seq<Worker>, c: seq<Worker>)
    requires SameSent(a, b) && SameSent(b, c)
    ensures SameSent(a, c)
  {
  }

  lemma {:induction false} SentChain(states: seq<State>, i: nat, j: nat)
    requires i <= j < |states| && forall k: nat :: i <= k < j ==> SameSent(states[k].ws, states[k + 1].ws)
    ensures SameSent(states[i].ws, states[j].ws)
  {
    if i < j {
      SentChain(states, i, j - 1);
      assert SameSent(states[j - 1].ws, states[j - 1 + 1].ws);
      SameTwice(states[i].ws, states[j - 1].ws, states[j].ws);
    }
  }

  lemma {:induction false} SentAlong(cfg: Config, states: seq<State>, steps: seq<Step>, i: nat)
    requires IsRun(cfg, states, steps) && i <= |steps|
    requires forall k :: i <= k < |steps| ==> Works(cfg, states[k], steps[k])
    ensures SameSent(states[i].ws, states[|steps|].ws)
  {
    forall k: nat | i <= k < |steps| ensures SameSent(states[k].ws, states[k + 1].ws) { NextSent(cfg, states, steps, k); }
    SentChain(states, i, |steps|);
  }

  lemma {:induction false} NobodyActive(cfg: Config, s: State)
    requires |s.ws| == cfg.n && Silent(s)
    ensures forall k :: 0 <= k < cfg.n ==> Targets(s.ws[k].m.sent) == {}
  {
  }

  // The run goes on by steps that neither wait nor send; levels may end.
  ghost predicate GoesFar(cfg: Config, states: seq<State>, steps: seq<Step>, states': seq<State>, steps': seq<Step>)
    requires |states| == |steps| + 1
  {
    && IsRun(cfg, states', steps') && |steps| <= |steps'|
    && states'[..|states|] == states && steps'[..|steps|] == steps
    && forall i :: |steps| <= i < |steps'| ==> steps'[i] == PassBarrier2 || Works(cfg, states'[i], steps'[i])
  }

  // A level is brought to its end and left.
  lemma {:induction false} LeaveLevel(cfg: Config, states: seq<State>, steps: seq<Step>) returns (states': seq<State>, steps': seq<Step>)
    requires IsRun(cfg, states, steps) && Running(states[|steps|])
    ensures GoesFar(cfg, states, steps, states', steps') && |steps| < |steps'| && steps'[|steps'| - 1] == PassBarrier2
    ensures Silent(states'[|steps'|]) && |states'[|steps'|].ws| == cfg.n
    ensures AllAt(states'[|steps'|], Stopped) || Running(states'[|steps'|])
    ensures Silent(states[|steps|]) ==> AllAt(states'[|steps'|], Stopped)
    ensures var n := |steps'| - 1; SameSent(states[|steps|].ws, states'[n].ws)
  {
    var states1, steps1 := LevelCanEnd(cfg, states, steps);
    assert states1[..|states|][|steps|] == states1[|steps|];
    SentAlong(cfg, states1, steps1, |steps|);
    states', steps' := PassLevel(cfg, states1, steps1);
    Left(cfg, states, steps, states1, steps1, states', steps');
  }

  lemma {:induction false} PassLevel(cfg: Config, states: seq<State>, steps: seq<Step>) returns (states': seq<State>, steps': seq<Step>)
    requires IsRun(cfg, states, steps) && Enabled(cfg, states[|steps|], PassBarrier2)
    ensures IsRun(cfg, states', steps') && steps' == steps + [PassBarrier2] && states'[..|states|] == states
    ensures Silent(states'[|steps'|]) && |states'[|steps'|].ws| == cfg.n
    ensures AllAt(states'[|steps'|], Stopped) || Running(states'[|steps'|])
    ensures Silent(states[|steps|]) ==> AllAt(states'[|steps'|], Stopped)
  {
    var n := |steps|;
    OneStep(cfg, states, steps, PassBarrier2);
    states', steps' := states + [Apply(cfg, states[n], PassBarrier2)], steps + [PassBarrier2];
    NextLevelActive(cfg, states', steps', n);
    if Silent(states[n]) { NobodyActive(cfg, states[n]); }
  }

  lemma {:induction false} Left(cfg: Config, states: seq<State>, steps: seq<Step>, states1: seq<State>, steps1: seq<Step>, states': seq<State>, steps': seq<Step>)
    requires |states| == |steps| + 1 && GoesOn(cfg, states, steps, states1, steps1)
    requires IsRun(cfg, states', steps') && steps' == steps1 + [PassBarrier2] && states'[..|states1|] == states1
    ensures GoesFar(cfg, states, steps, states', steps')
  {
    assert states'[..|states|] == states'[..|states1|][..|states|] && steps'[..|steps|] == steps1[..|steps|];
    forall i | |steps| <= i < |steps'| ensures steps'[i] == PassBarrier2 || Works(cfg, states'[i], steps'[i]) {
      if i < |steps1| { assert states'[..|states1|][i] == states'[i] && steps'[i] == steps1[i]; }
    }
  }

  // Once vertices send nothing any more, every run can be brought to the end of the engine, at
  // the latest with the level after the current one.
  lemma {:induction false} EngineCanStop(cfg: Config, states: seq<State>, steps: seq<Step>) returns (states': seq<State>, steps': seq<Step>)
    requires IsRun(cfg, states, steps) && Running(states[|steps|])
    ensures GoesFar(cfg, states, steps, states', steps') && AllAt(states'[|steps'|], Stopped)
  {
    states', steps' := LeaveLevel(cfg, states, steps);
    if !AllAt(states'[|steps'|], Stopped) {
      var states1, steps1 := states', steps';
      states', steps' := LeaveLevel(cfg, states1, steps1);
      FarTogether(cfg, states, steps, states1, steps1, states', steps');
    }
  }

  lemma {:induction false} FarTogether(cfg: Config, states: seq<State>, steps: seq<Step>, states1: seq<State>, steps1: seq<Step>, states': seq<State>, steps': seq<Step>)
    requires |states| == |steps| + 1 && GoesFar(cfg, states, steps, states1, steps1) && GoesFar(cfg, states1, steps1, states', steps')
    ensures GoesFar(cfg, states, steps, states', steps')
  {
    assert states'[..|states|] == states'[..|states1|][..|states|] && steps'[..|steps|] == steps'[..|steps1|][..|steps|];
    forall i | |steps| <= i < |steps1| ensures states'[i] == states1[i] && steps'[i] == steps1[i] {
      assert states'[..|states1|][i] == states'[i] && steps'[..|steps1|][i] == steps'[i];
    }
  }

  // ----- a run in which the count falls short of the queues' contents

  // A step of the only worker.
  lemma {:induction false} Alone(cfg: Config, states: seq<State>, steps: seq<Step>, op: Op) returns (states': seq<State>, steps': seq<Step>)
    requires IsRun(cfg, states, steps) && cfg.n == 1 && Enabled(cfg, states[|steps|], By(0, op)) && !op.StealSome? && !op.Send? && !op.FlushEarly?
    ensures IsRun(cfg, states', steps') && |states'[|steps'|].ws| == 1
    ensures
      var s, w' := states[|steps|], states'[|steps'|].ws[0];
      && w'.pc == NextPc(cfg, s, 0, op) && w'.h == NextHands(cfg, s.ws[0], 0, op)
      && w'.m.sent == NextMail(cfg, s, 0, op).sent
  {
    var s := states[|steps|];
    OneStep(cfg, states, steps, By(0, op));
    HandsAfter(cfg, s, 0, op, 0);
    MailAfter(cfg, s, 0, op, 0);
    states', steps' := states + [Apply(cfg, s, By(0, op))], steps + [By(0, op)];
  }

  // One worker without anything to do.
  lemma {:induction false} Lonely() returns (cfg: Config, s: State)
    ensures Initial(cfg, s) && cfg.n == 1 && |s.ws| == 1 && s.ws[0].pc == Return(0, false) && s.ws[0].h.completed == {}
  {
    cfg := Config(1, 1, {});
    var mail := Mail(seq(1, _ => []), [], [], [], {}, multiset{}, multiset{});
    var w := Worker(Return(0, false), 0, Hands({}, {}, {}, {}, {}, {}, 0, 0), StealState({}, 0, 0, 0, 0, false, false, {}, {}), mail);
    s := State([w], 0, 0, 0, false, 0, false, false, {}, map[], {}, {}, {});
  }

  // It activates a vertex for the next level.
  lemma {:induction false} OneActivation() returns (cfg: Config, states: seq<State>, steps: seq<Step>)
    ensures IsRun(cfg, states, steps) && cfg.n == 1 && Running(states[|steps|])
    ensures |states[|steps|].ws| == 1 && Activation(0) in states[|steps|].ws[0].m.sent
  {
    var s;
    cfg, s := Lonely();
    assert OfPart({}, 0) == {};
    states, steps := Alone(cfg, [s], [], ReturnPart);
    states, steps := Alone(cfg, states, steps, ReturnDone);
    states, steps := Alone(cfg, states, steps, FetchSkip);
    states, steps := Alone(cfg, states, steps, ActivateOwn(0));
  }

  // So there is a run in which the global count falls short of the queues' contents.
  lemma {:induction false} SomeCountBehind() returns (cfg: Config, states: seq<State>, steps: seq<Step>, i: nat)
    ensures IsRun(cfg, states, steps) && i < |states| && states[i].remaining < QueueTotal(states[i].ws)
  {
    var states0, steps0;
    cfg, states0, steps0 := OneActivation();
    states, steps := LeaveLevel(cfg, states0, steps0);
    i := |steps| - 1;
    NotLast(cfg, states, steps, i);
    CountBehind(cfg, states, steps, i);
    i := i - 1;
  }

  lemma {:induction false} NotLast(cfg: Config, states: seq<State>, steps: seq<Step>, i: nat)
    requires IsRun(cfg, states, steps) && i < |steps| && steps[i] == PassBarrier2 && cfg.n == 1
    requires |states[i].ws| == 1 && Activation(0) in states[i].ws[0].m.sent
    ensures !states[i].isComplete
  {
    SomethingActive(states[i].ws[0].m.sent);
    NextLevelActive(cfg, states, steps, i);
  }

  lemma {:induction false} SomethingActive(sent: multiset<Pair>)
    requires Activation(0) in sent
    ensures 0 in Targets(sent)
  {
  }
}
