/**
 The level engine as a transition system: any number of worker threads, each the
 owner of one partition and a possible thief of every other one, interleaved one
 atomic access to shared memory at a time.

 One worker runs `worker_thread::run` (return finished loot, fetch or steal, account,
 run vertices, process messages, test for the end of the level) and, past the first
 barrier, `enter_next_level`.  Program counters name the point a worker has reached;
 steps that touch only the worker's own data are merged with their neighbours.
 Fields called history record what has happened in this level; no step reads them.
 */
module LevelState {

  // What a vertex queue hands out: a vertex, or one vertical part of a vertex.
  datatype Item =
    | Main(part: nat, id: nat)
    | VPart(part: nat, id: nat, k: nat)

  // One destination of one message, as the owner of the destination processes it.
  datatype Pair =
    | Deliver(msg: nat, dest: nat, activate: bool)
    | Activation(dest: nat)

  predicate Activates(p: Pair) {
    p.Activation? || p.activate
  }

  datatype Config = Config(n: nat, vparts: nat, split: set<Item>) {
    predicate Valid() {
      n > 0 && vparts > 0
    }
  }

  datatype Pc =
    | Return(i: nat, last: bool)        // process_completed_stolen_vertices, owner i next
    | Clear(i: nat, last: bool)         // clearing bits in return_vertices of owner i
    | FetchOwn
    | Steal(tries: nat)                 // load_balancer::steal_activated_vertices
    | Prep | Mark | Spin | Count        // steal_state_t::steal_vertices of the victim
    | Account                           // graph_engine::process_vertices
    | Work(io: bool)                    // running vertices, before or after the messages
    | ReplayStart(post: bool)           // process_msgs, the stolen-vertex buffer
    | Msgs(replay: bool, post: bool)    // process_msg, next pair
    | RunMsg(replay: bool, post: bool)  // about to run the vertex on the message
    | GuardUp(post: bool) | GuardLoad(post: bool) | Drain(post: bool) | GuardDown(post: bool)
    | TestLocal | TestRemaining
    | IterEnd | Flush(i: nat)
    | Barrier1
    | InitQueue | Arrive | Barrier2
    | Stopped

  // The items a worker has its hands on.
  datatype Hands = Hands(
    queue: set<Item>,         // what the vertex queue still has to hand out
    batch: set<Item>,         // fetched, not yet subtracted from the global count
    toMark: set<Item>,        // stolen, bit not yet set
    running: set<Item>,       // being processed by this worker
    completed: set<Item>,     // completed_stolen_vertices, all owners together
    returning: set<Item>,     // passed to return_vertices, bit not yet cleared
    started: nat,             // num_activated_vertices_in_level
    finished: nat)            // num_completed_vertices_in_level

  // steal_state_t of a partition, and the local check_steal of its owner.
  datatype StealState = StealState(
    bits: set<nat>,           // stolen_bitmap
    numStolen: nat, numReturned: nat, prepare: nat, guard: nat,
    mode: bool,               // steal_state
    check: bool,
    taken: set<Item>, back: set<Item>)          // history

  datatype Mail = Mail(
    outbox: seq<seq<Pair>>,   // the message senders' buffers, per destination worker
    msgQ: seq<Pair>,
    stolenMsgs: seq<Pair>,
    todo: seq<Pair>,          // fetched from one of the two above, not yet processed
    next: set<nat>,           // next_activated_vertices
    sent: multiset<Pair>, applied: multiset<Pair>)   // history

  datatype Worker = Worker(
    pc: Pc,
    victim: nat,              // steal_thread_id
    h: Hands, st: StealState, m: Mail)

  datatype State = State(
    ws: seq<Worker>,
    remaining: int,           // num_remaining_vertices_in_level
    tot: nat, arrived: nat,   // the static counters of progress_next_level
    isComplete: bool, level: nat,
    // history
    closing: bool, decided: bool,
    active: set<Item>, fetchedBy: map<Item, nat>, processed: set<Item>,
    here: set<nat>, counted: set<Item>)

  // What one worker can do next.
  datatype Op =
    | ReturnPart | ReturnDone | ClearOne(x: Item) | ClearDone
    | FetchSome(got: set<Item>) | FetchNone | FetchSkip
    | StealSome(got: set<Item>) | StealMiss
    | Prepare | MarkOne(x: Item) | MarkDone | SpinExit | CountStolen
    | AccountBatch
    | Send(d: nat, p: Pair) | ActivateOwn(id: nat) | FlushEarly(d: nat)
    | Complete(x: Item) | WorkDone
    | StartReplay | CheckPair | RunPair | PairsDone
    | GuardIncr | LoadPrepare | DrainSome(k: nat) | DrainDone | GuardDecr
    | LoopTest | RemainingTest | EndIteration | FlushPart | FlushDone
    | SwapQueues | ArriveOne

  datatype Step = By(t: nat, op: Op) | PassBarrier1 | PassBarrier2

  // ----- shapes of program counters

  predicate Stealing(pc: Pc) {
    pc.Prep? || pc.Mark? || pc.Spin? || pc.Count?
  }

  // Inside steal_vertices, the wait for the guard not yet over.
  predicate Waiting(pc: Pc) {
    pc.Prep? || pc.Mark? || pc.Spin?
  }

  predicate Limbo(pc: Pc) {
    Stealing(pc) || pc.Account?
  }

  // Between guard_msg_processing and unguard_msg_processing.
  predicate Guarded(pc: Pc) {
    || pc.GuardLoad? || pc.Drain? || pc.GuardDown?
    || ((pc.Msgs? || pc.RunMsg?) && !pc.replay)
  }

  predicate InPairs(pc: Pc) {
    pc.Msgs? || pc.RunMsg?
  }

  // Past the first barrier of the level.
  predicate Post(pc: Pc) {
    match pc
    case ReplayStart(p) => p
    case Msgs(_, p) => p
    case RunMsg(_, p) => p
    case GuardUp(p) => p
    case GuardLoad(p) => p
    case Drain(p) => p
    case GuardDown(p) => p
    case _ => pc.InitQueue? || pc.Arrive? || pc.Barrier2?
  }

  // The worker has swapped its queues, so its partition is already in the next level.
  predicate Swapped(pc: Pc) {
    pc.Arrive? || pc.Barrier2? || pc.Stopped?
  }

  // The worker has left the processing loop of the level.
  predicate Ending(pc: Pc) {
    || pc.IterEnd? || pc.Flush? || pc.Barrier1?
    || ((pc.Return? || pc.Clear?) && pc.last)
  }

  // A point at which user code of a vertex can run, and so send messages.
  predicate CanSend(pc: Pc) {
    pc.Work? || pc.IterEnd?
  }

  predicate Holds(h: Hands, x: Item) {
    x in h.batch || x in h.running || x in h.completed || x in h.returning
  }

  function Mains(items: set<Item>): set<Item> {
    set x | x in items && x.Main?
  }

  function OfPart(items: set<Item>, i: nat): set<Item> {
    set x | x in items && x.part == i
  }

  // default_vertex_queue::init: a vertically partitioned vertex is queued once per part.
  function Expand(cfg: Config, w: nat, ids: set<nat>): set<Item> {
    (set d | d in ids && Main(w, d) !in cfg.split :: Main(w, d))
    + (set d, k | d in ids && 0 <= k < cfg.vparts && Main(w, d) in cfg.split :: VPart(w, d, k))
  }

  // The queues' contents over the workers that have been counted at the second barrier.
  function QueueTotal(ws: seq<Worker>): nat {
    if ws == [] then 0 else QueueTotal(ws[..|ws| - 1]) + |ws[|ws| - 1].h.queue|
  }

  // ----- the steps

  predicate At(s: State, t: nat) {
    t < |s.ws|
  }

  predicate Enabled(cfg: Config, s: State, step: Step) {
    |s.ws| == cfg.n &&
    match step
    case PassBarrier1 => forall t :: 0 <= t < cfg.n ==> s.ws[t].pc.Barrier1?
    case PassBarrier2 => forall t :: 0 <= t < cfg.n ==> s.ws[t].pc.Barrier2?
    case By(t, op) => At(s, t) && Can(cfg, s, s.ws[t], op)
  }

  predicate Can(cfg: Config, s: State, w: Worker, op: Op)
    requires |s.ws| == cfg.n
  {
    match op
    case ReturnPart => w.pc.Return? && w.pc.i < cfg.n
    case ReturnDone => w.pc.Return? && w.pc.i >= cfg.n
    case ClearOne(x) => w.pc.Clear? && w.pc.i < cfg.n && x in w.h.returning
    case ClearDone => w.pc.Clear? && w.h.returning == {}
    case FetchSome(got) => w.pc.FetchOwn? && got != {} && got <= w.h.queue
    case FetchNone => w.pc.FetchOwn? && w.h.queue == {}
    case FetchSkip => w.pc.FetchOwn?
    case StealSome(got) => w.pc.Steal? && w.victim < cfg.n && got != {} && got <= s.ws[w.victim].h.queue
    case StealMiss => w.pc.Steal? && w.victim < cfg.n && s.ws[w.victim].h.queue == {}
    case Prepare => w.pc.Prep? && w.victim < cfg.n
    case MarkOne(x) => w.pc.Mark? && w.victim < cfg.n && x in w.h.toMark
    case MarkDone => w.pc.Mark? && w.h.toMark == {}
    case SpinExit => w.pc.Spin? && w.victim < cfg.n && s.ws[w.victim].st.guard % 2 == 0
    case CountStolen => w.pc.Count? && w.victim < cfg.n
    case AccountBatch => w.pc.Account?
    case Send(d, _) => CanSend(w.pc) && d < cfg.n && |w.m.outbox| == cfg.n
    case ActivateOwn(_) => CanSend(w.pc)
    case FlushEarly(d) => CanSend(w.pc) && d < cfg.n && |w.m.outbox| == cfg.n
    case Complete(x) => w.pc.Work? && x in w.h.running
    case WorkDone => w.pc.Work?
    case StartReplay => w.pc.ReplayStart?
    case CheckPair => w.pc.Msgs? && w.m.todo != []
    case RunPair => w.pc.RunMsg? && w.m.todo != []
    case PairsDone => w.pc.Msgs? && w.m.todo == []
    case GuardIncr => w.pc.GuardUp?
    case LoadPrepare => w.pc.GuardLoad?
    case DrainSome(k) => w.pc.Drain? && 0 < k <= |w.m.msgQ|
    case DrainDone => w.pc.Drain? && w.m.msgQ == []
    case GuardDecr => w.pc.GuardDown?
    case LoopTest => w.pc.TestLocal?
    case RemainingTest => w.pc.TestRemaining?
    case EndIteration => w.pc.IterEnd?
    case FlushPart => w.pc.Flush? && w.pc.i < cfg.n && |w.m.outbox| == cfg.n
    case FlushDone => w.pc.Flush? && w.pc.i >= cfg.n
    case SwapQueues => w.pc.InitQueue?
    case ArriveOne => w.pc.Arrive?
  }

  function Follow(cfg: Config, i: nat): nat
    requires cfg.n > 0
  {
    (i + 1) % cfg.n
  }

  // The acting worker's program counter after its step.
  function NextPc(cfg: Config, s: State, t: nat, op: Op): Pc
    requires cfg.Valid() && Enabled(cfg, s, By(t, op))
  {
    var w := s.ws[t];
    match op
    case ReturnPart =>
      if OfPart(w.h.completed, w.pc.i) == {} then Return(w.pc.i + 1, w.pc.last) else Clear(w.pc.i, w.pc.last)
    case ReturnDone => if w.pc.last then Barrier1 else FetchOwn
    case ClearDone => Return(w.pc.i + 1, w.pc.last)
    case FetchSome(_) => Account
    case FetchNone => Steal(0)
    case FetchSkip => Work(false)
    case StealSome(_) => Prep
    case StealMiss => if w.pc.tries + 1 < cfg.n then Steal(w.pc.tries + 1) else Work(false)
    case Prepare => Mark
    case MarkDone => Spin
    case SpinExit => Count
    case CountStolen => Account
    case AccountBatch => Work(false)
    case WorkDone => if w.pc.io then TestLocal else ReplayStart(false)
    case StartReplay =>
      if w.st.numReturned > 0 && w.m.stolenMsgs != [] then Msgs(true, w.pc.post) else GuardUp(w.pc.post)
    case CheckPair =>
      if w.m.todo[0].Activation? || MustWait(w, w.m.todo[0]) then w.pc else RunMsg(w.pc.replay, w.pc.post)
    case RunPair => Msgs(w.pc.replay, w.pc.post)
    case PairsDone => if w.pc.replay then GuardUp(w.pc.post) else Drain(w.pc.post)
    case GuardIncr => GuardLoad(w.pc.post)
    case LoadPrepare => Drain(w.pc.post)
    case DrainSome(_) => Msgs(false, w.pc.post)
    case DrainDone => GuardDown(w.pc.post)
    case GuardDecr => if w.pc.post then InitQueue else Work(true)
    case LoopTest => if w.h.started > w.h.finished || w.h.queue != {} then Return(0, false) else TestRemaining
    case RemainingTest => if s.remaining > 0 then Return(0, false) else IterEnd
    case EndIteration => Flush(0)
    case FlushPart => Flush(w.pc.i + 1)
    case FlushDone => Return(0, true)
    case SwapQueues => Arrive
    case ArriveOne => Barrier2
    case _ => w.pc
  }

  function NextVictim(cfg: Config, w: Worker, t: nat, op: Op): nat
    requires cfg.n > 0
  {
    if op.FetchNone? && w.victim == t then Follow(cfg, t)
    else if op.StealMiss? then Follow(cfg, w.victim)
    else w.victim
  }

  // The items of the acting worker after its step.
  function NextHands(cfg: Config, w: Worker, t: nat, op: Op): Hands
    requires op.ReturnPart? ==> w.pc.Return?
  {
    var h := w.h;
    match op
    case ReturnPart =>
      var got := OfPart(h.completed, w.pc.i);
      h.(completed := h.completed - got, returning := got)
    case ClearOne(x) => h.(returning := h.returning - {x})
    case FetchSome(got) => h.(queue := h.queue - got, batch := got)
    case StealSome(got) => h.(batch := got, toMark := Mains(got))
    case MarkOne(x) => h.(toMark := h.toMark - {x})
    case AccountBatch => h.(batch := {}, running := h.running + h.batch, started := h.started + |h.batch|)
    case Complete(x) =>
      h.(running := h.running - {x}, finished := h.finished + 1,
         completed := if x.Main? && x.part != t then h.completed + {x} else h.completed)
    case EndIteration => h.(started := 0, finished := 0)
    case SwapQueues => h.(queue := Expand(cfg, t, w.m.next))
    case _ => h
  }

  // The owner's own updates of its steal state.
  function NextSteal(st: StealState, op: Op): StealState {
    match op
    case GuardIncr => st.(guard := st.guard + 1)
    case LoadPrepare => var mode := st.mode || st.prepare > 0; st.(mode := mode, check := mode)
    case GuardDecr => st.(guard := st.guard + 1)
    case SwapQueues =>
      st.(bits := {}, numStolen := 0, numReturned := 0, prepare := 0, guard := 0, mode := false, taken := {}, back := {})
    case _ => st
  }

  // In the stealing stage a message whose destination's bit is set has to wait.
  predicate MustWait(w: Worker, p: Pair)
    requires w.pc.Msgs?
  {
    p.Deliver? && (w.pc.replay || w.st.check) && p.dest in w.st.bits
  }

  function Activated(next: set<nat>, p: Pair): set<nat> {
    if Activates(p) then next + {p.dest} else next
  }

  function Applied(m: Mail): Mail
    requires m.todo != []
  {
    m.(todo := m.todo[1..], applied := m.applied + multiset{m.todo[0]}, next := Activated(m.next, m.todo[0]))
  }

  function PutAside(m: Mail): Mail
    requires m.todo != []
  {
    m.(todo := m.todo[1..], stolenMsgs := m.stolenMsgs + [m.todo[0]], next := Activated(m.next, m.todo[0]))
  }

  function NextMail(cfg: Config, s: State, t: nat, op: Op): Mail
    requires cfg.Valid() && Enabled(cfg, s, By(t, op))
  {
    var w := s.ws[t];
    var m := w.m;
    match op
    case Send(d, p) => m.(outbox := m.outbox[d := m.outbox[d] + [p]])
    case ActivateOwn(id) =>
      m.(next := m.next + {id}, sent := m.sent + multiset{Activation(id)}, applied := m.applied + multiset{Activation(id)})
    case FlushEarly(d) => m.(outbox := m.outbox[d := []])
    case StartReplay => if w.st.numReturned > 0 && m.stolenMsgs != [] then m.(todo := m.stolenMsgs, stolenMsgs := []) else m
    case CheckPair => if m.todo[0].Activation? then Applied(m) else if MustWait(w, m.todo[0]) then PutAside(m) else m
    case RunPair => Applied(m)
    case DrainSome(k) => m.(todo := m.msgQ[..k], msgQ := m.msgQ[k..])
    case FlushPart => m.(outbox := m.outbox[w.pc.i := []])
    case SwapQueues => m.(next := {})
    case _ => m
  }

  // The acting worker's own record after its step.
  function Mover(cfg: Config, s: State, t: nat, op: Op): Worker
    requires cfg.Valid() && Enabled(cfg, s, By(t, op))
  {
    var w := s.ws[t];
    Worker(NextPc(cfg, s, t, op), NextVictim(cfg, w, t, op), NextHands(cfg, w, t, op), NextSteal(w.st, op), NextMail(cfg, s, t, op))
  }

  // The worker whose record the step touches besides the acting worker w (t itself if none).
  function Peer(w: Worker, t: nat, op: Op): nat {
    if (op.ReturnPart? && w.pc.Return?) || (op.ClearOne? && w.pc.Clear?) || (op.FlushPart? && w.pc.Flush?) then w.pc.i
    else if op.StealSome? || op.Prepare? || op.MarkOne? || op.CountStolen? then w.victim
    else if op.Send? || op.FlushEarly? then op.d
    else t
  }

  // What the acting worker, w before the step, does to the peer's record o.
  function Touched(w: Worker, o: Worker, op: Op): Worker {
    o.(h := if op.StealSome? then o.h.(queue := o.h.queue - op.got) else o.h,
       st := TouchedSteal(w, o.st, op),
       m := TouchedMail(w, o.m, op))
  }

  function TouchedSteal(w: Worker, st: StealState, op: Op): StealState {
    match op
    case ReturnPart =>
      if w.pc.Return? then
        var got := OfPart(w.h.completed, w.pc.i);
        st.(numReturned := st.numReturned + |got|, back := st.back + got)
      else st
    case ClearOne(x) => st.(bits := st.bits - {x.id})
    case Prepare => st.(prepare := st.prepare + 1)
    case MarkOne(x) => st.(bits := st.bits + {x.id})
    case CountStolen => st.(numStolen := st.numStolen + |Mains(w.h.batch)|, taken := st.taken + Mains(w.h.batch))
    case _ => st
  }

  // Messages handed over by a flush of w's buffer for the peer.
  function Flushed(w: Worker, op: Op): seq<Pair> {
    if op.FlushEarly? && op.d < |w.m.outbox| then w.m.outbox[op.d]
    else if op.FlushPart? && w.pc.Flush? && w.pc.i < |w.m.outbox| then w.m.outbox[w.pc.i]
    else []
  }

  function TouchedMail(w: Worker, m: Mail, op: Op): Mail {
    if op.Send? then m.(sent := m.sent + multiset{op.p})
    else if op.FlushEarly? || op.FlushPart? then m.(msgQ := m.msgQ + Flushed(w, op))
    else m
  }

  // The counters shared by all workers.
  function Shared(cfg: Config, s: State, t: nat, op: Op): State
    requires cfg.Valid() && Enabled(cfg, s, By(t, op))
  {
    var h := s.ws[t].h;
    if op.FetchSome? || op.StealSome? then
      s.(fetchedBy := s.fetchedBy + map x | x in op.got :: t)
    else if op.AccountBatch? then
      s.(remaining := s.remaining - |h.batch|, processed := s.processed + h.batch)
    else if op.ArriveOne? then
      var s1 := s.(here := s.here + {t}, counted := s.counted + h.queue);
      if s.arrived + 1 == cfg.n then
        s1.(tot := 0, arrived := 0, level := s.level + 1, remaining := s.tot + |h.queue|,
            isComplete := s.tot + |h.queue| == 0, decided := true)
      else
        s1.(tot := s.tot + |h.queue|, arrived := s.arrived + 1)
    else s
  }

  // The records of all workers after a step of worker t.
  function Workers(cfg: Config, s: State, t: nat, op: Op): (ws: seq<Worker>)
    requires cfg.Valid() && Enabled(cfg, s, By(t, op))
  {
    var w := s.ws[t];
    var moved := s.ws[t := Mover(cfg, s, t, op)];
    var p := Peer(w, t, op);
    if p < |moved| then moved[p := Touched(w, moved[p], op)] else moved
  }

  function Apply(cfg: Config, s: State, step: Step): State
    requires cfg.Valid() && Enabled(cfg, s, step)
  {
    match step
    case By(t, op) => Shared(cfg, s, t, op).(ws := Workers(cfg, s, t, op))
    case PassBarrier1 =>
      s.(ws := seq(cfg.n, i requires 0 <= i < |s.ws| => s.ws[i].(pc := ReplayStart(true))), closing := true)
    case PassBarrier2 => NextLevel(cfg, s)
  }

  // Everyone has seen the completion signal; history starts afresh.
  function NextLevel(cfg: Config, s: State): State
    requires |s.ws| == cfg.n
  {
    var pc := if s.isComplete then Stopped else Return(0, false);
    s.(ws := seq(cfg.n, i requires 0 <= i < |s.ws| => s.ws[i].(pc := pc, m := s.ws[i].m.(sent := multiset{}, applied := multiset{}))),
       closing := false, decided := false, active := s.counted, fetchedBy := map[], processed := {},
       here := {}, counted := {})
  }

  // ----- runs

  // The first level: the queues have been filled, everything else is in its initial state.
  ghost predicate Fresh(cfg: Config, w: Worker, t: nat) {
    && w.pc == Return(0, false)
    && w.victim < cfg.n
    && (forall x :: x in w.h.queue ==> x.part == t)
    && w.h == Hands(w.h.queue, {}, {}, {}, {}, {}, 0, 0)
    && w.st == StealState({}, 0, 0, 0, 0, false, false, {}, {})
    && w.m == Mail(seq(cfg.n, _ => []), [], [], [], {}, multiset{}, multiset{})
  }

  ghost predicate Initial(cfg: Config, s: State) {
    && cfg.Valid() && |s.ws| == cfg.n
    && (forall t :: 0 <= t < cfg.n ==> Fresh(cfg, s.ws[t], t))
    && (forall x :: x in s.active <==> (x.part < cfg.n && x in s.ws[x.part].h.queue))
    && s.remaining == |s.active|
    && s.tot == 0 && s.arrived == 0 && !s.closing && !s.decided
    && s.fetchedBy == map[] && s.processed == {} && s.here == {} && s.counted == {}
  }

  ghost predicate IsRun(cfg: Config, states: seq<State>, steps: seq<Step>) {
    && |states| == |steps| + 1
    && Initial(cfg, states[0])
    && forall i :: 0 <= i < |steps| ==> Enabled(cfg, states[i], steps[i]) && states[i + 1] == Apply(cfg, states[i], steps[i])
  }
}
