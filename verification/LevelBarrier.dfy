/**
 The two barriers of progress_next_level keep the core of the invariant, and the last
 worker to arrive at the second one decides the level.
 */
module LevelBarrier {
  import opened LevelState
  import opened LevelInvariant
  import opened LevelCore

  // A set of n worker numbers below n is all of them.
  lemma {:induction false} EveryoneHere(here: set<nat>, n: nat)
    requires forall t :: t in here ==> t < n
    ensures |here| <= n
    ensures |here| == n ==> forall t :: 0 <= t < n ==> t in here
    decreases n
  {
    if n == 0 {
      assert here == {};
    } else {
      var rest := here - {n - 1};
      EveryoneHere(rest, n - 1);
      assert n - 1 in here ==> |here| == |rest| + 1;
      assert n - 1 !in here ==> rest == here;
      if |here| == n {
        forall t | 0 <= t < n ensures t in here {
          assert t < n - 1 ==> t in rest;
        }
      }
    }
  }

  // The items counted so far stay counted while the queues of those who have arrived stay put.
  lemma {:induction false} CountedFrame(s: State, s': State)
    requires |s'.ws| == |s.ws| && s'.here == s.here && s'.counted == s.counted
    requires forall k :: k in s.here && k < |s.ws| ==> s'.ws[k].h.queue == s.ws[k].h.queue
    requires forall x :: x in s.counted <==> x.part in s.here && x.part < |s.ws| && x in s.ws[x.part].h.queue
    ensures forall x :: x in s'.counted <==> x.part in s'.here && x.part < |s'.ws| && x in s'.ws[x.part].h.queue
  {
  }

  lemma {:induction false} CountedGrows(s: State, s': State, t: nat)
    requires |s'.ws| == |s.ws| && t < |s.ws| && s'.here == s.here + {t} && s'.counted == s.counted + s.ws[t].h.queue
    requires forall k :: 0 <= k < |s.ws| ==> s'.ws[k].h.queue == s.ws[k].h.queue
    requires forall x :: x in s.ws[t].h.queue ==> x.part == t
    requires forall x :: x in s.counted <==> x.part in s.here && x.part < |s.ws| && x in s.ws[x.part].h.queue
    ensures forall x :: x in s'.counted <==> x.part in s'.here && x.part < |s'.ws| && x in s'.ws[x.part].h.queue
    ensures t !in s.here ==> |s'.counted| == |s.counted| + |s.ws[t].h.queue|
  {
    if t !in s.here {
      assert s.counted !! s.ws[t].h.queue;
    }
  }

  lemma {:induction false} ArriveHands(cfg: Config, s: State, t: nat, k: nat)
    requires cfg.Valid() && Enabled(cfg, s, By(t, ArriveOne)) && k < cfg.n
    ensures
      var w' := Apply(cfg, s, By(t, ArriveOne)).ws[k];
      w'.h == s.ws[k].h && w'.pc == if k == t then Barrier2 else s.ws[k].pc
  {
    HandsAfter(cfg, s, t, ArriveOne, k);
  }

  lemma {:induction false} ArriveCounts(cfg: Config, s: State, t: nat)
    requires cfg.Valid() && Enabled(cfg, s, By(t, ArriveOne))
    ensures
      var s' := Apply(cfg, s, By(t, ArriveOne));
      var q := |s.ws[t].h.queue|;
      && |s'.ws| == |s.ws| && s'.closing == s.closing && s'.here == s.here + {t} && s'.counted == s.counted + s.ws[t].h.queue
      && (if s.arrived + 1 == cfg.n
          then s'.decided && s'.arrived == 0 && s'.tot == 0 && s'.remaining == s.tot + q && s'.isComplete == (s.tot + q == 0)
          else s'.decided == s.decided && s'.arrived == s.arrived + 1 && s'.tot == s.tot + q && s'.remaining == s.remaining)
  {
  }

  lemma {:induction false} ArriveStep(cfg: Config, s: State, t: nat)
    requires cfg.Valid() && Enabled(cfg, s, By(t, ArriveOne)) && Arrived(cfg, s) && s.closing && !s.decided
    requires forall x :: x in s.ws[t].h.queue ==> x.part == t
    ensures |Apply(cfg, s, By(t, ArriveOne)).ws| == cfg.n && Arrived(cfg, Apply(cfg, s, By(t, ArriveOne)))
    ensures
      var s' := Apply(cfg, s, By(t, ArriveOne));
      s'.decided ==> s'.closing && forall k :: 0 <= k < cfg.n ==> s'.ws[k].pc.Barrier2?
  {
    var s' := Apply(cfg, s, By(t, ArriveOne));
    ArriveCounts(cfg, s, t);
    ArriveWorkers(cfg, s, t);
    assert t !in s.here && |s'.here| == |s.here| + 1;
    CountedGrows(s, s', t);
    EveryoneHere(s'.here, cfg.n);
  }

  lemma {:induction false} ArriveWorkers(cfg: Config, s: State, t: nat)
    requires cfg.Valid() && Enabled(cfg, s, By(t, ArriveOne)) && Arrived(cfg, s) && s.closing
    ensures
      var s' := Apply(cfg, s, By(t, ArriveOne));
      && |s'.ws| == cfg.n && !s.ws[t].pc.Barrier2?
      && forall k :: 0 <= k < cfg.n ==> s'.ws[k].h == s.ws[k].h && (k in s'.here <==> s'.ws[k].pc.Barrier2?)
  {
    var s' := Apply(cfg, s, By(t, ArriveOne));
    ArriveCounts(cfg, s, t);
    forall k | 0 <= k < cfg.n ensures s'.ws[k].h == s.ws[k].h && (k in s'.here <==> s'.ws[k].pc.Barrier2?) {
      ArriveHands(cfg, s, t, k);
    }
  }

  // Worker t, about to do something else, has not arrived yet.
  lemma {:induction false} NotHere(cfg: Config, s: State, t: nat, op: Op)
    requires cfg.Valid() && Enabled(cfg, s, By(t, op)) && !op.ArriveOne?
    ensures !s.ws[t].pc.Barrier2? && !NextPc(cfg, s, t, op).Barrier2?
  {
  }

  lemma {:induction false} ArrivedStep(cfg: Config, s: State, t: nat, op: Op)
    requires cfg.Valid() && Enabled(cfg, s, By(t, op)) && !op.ArriveOne? && Arrived(cfg, s)
    requires s.decided ==> s.closing && forall k :: 0 <= k < cfg.n ==> s.ws[k].pc.Barrier2?
    requires op.StealSome? ==> s.ws[t].victim != t && !s.closing
    requires op.AccountBatch? ==> !s.closing
    ensures |Apply(cfg, s, By(t, op)).ws| == cfg.n && Arrived(cfg, Apply(cfg, s, By(t, op)))
  {
    var s' := Apply(cfg, s, By(t, op));
    HandsAfter(cfg, s, t, op, t);
    CountsAfter(cfg, s, t, op);
    ActiveAfter(cfg, s, t, op);
    NotHere(cfg, s, t, op);
    forall k | 0 <= k < cfg.n
      ensures (k in s.here ==> s'.ws[k].h.queue == s.ws[k].h.queue) && (s'.ws[k].pc.Barrier2? <==> s.ws[k].pc.Barrier2?)
    {
      HandsAfter(cfg, s, t, op, k);
    }
    CountedFrame(s, s');
  }
}
