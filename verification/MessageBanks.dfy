/** The senders of a vertex program: objects with a buffer each, none of which is shared. */
module MessageBanks {
  import opened MessagePacking
  import opened MessageSenders

  // What a client sees of a sender that is in order.
  ghost function Seen(s: MulticastSender): Option<Lane>
    reads s, s.buf, s.buf.mem
  {
    if s.Valid() then Some(s.View()) else None
  }

  ghost function SeenSent(s: SimpleSender): Option<seq<Pair>>
    reads s, s.buf, s.buf.mem
  {
    if s.Valid() then Some(s.sent) else None
  }

  method Act(s: MulticastSender, op: LaneOp, ghost lane: Lane)
    requires Seen(s) == Some(lane) && Allowed(op, lane, s.size)
    modifies s, s.buf, s.buf.mem
    ensures Seen(s) == Some(After(op, lane, s.size))
  {
    Perform(s, op);
  }

  method Put(s: SimpleSender, b: Body, dest: nat, ghost sent: seq<Pair>)
    requires SeenSent(s) == Some(sent) && HEADER + |b.words| <= s.size && !b.activation
    modifies s, s.buf, s.buf.mem
    ensures SeenSent(s) == Some(sent + [Pair(b, dest)])
  {
    s.SendCached(b, dest);
  }

  method HandInSingles(s: SimpleSender, ghost sent: seq<Pair>)
    requires SeenSent(s) == Some(sent)
    modifies s, s.buf, s.buf.mem
    ensures SeenSent(s) == Some(sent)
  {
    s.Flush();
  }

  ghost predicate Blank(m: Message, size: nat)
    reads m
  {
    m.packets == [] && m.numObjs == 0 && m.getOff == 0 && m.addOff == 0 && m.mem.Length == size
  }

  ghost predicate IsNew(s: MulticastSender, size: nat)
    reads s, s.buf
  {
    s.size == size && s.sent == [] && s.queue == [] && s.mmsg < 0 && Blank(s.buf, size)
  }

  ghost predicate IsNewSingle(s: SimpleSender, size: nat)
    reads s, s.buf
  {
    s.size == size && s.sent == [] && s.queue == [] && Blank(s.buf, size)
  }

  lemma {:induction false} NewSeen(s: MulticastSender, size: nat)
    requires IsNew(s, size)
    ensures Seen(s) == Some(Lane([], false, EMPTY))
  {
  }

  lemma {:induction false} NewSeenSent(s: SimpleSender, size: nat)
    requires IsNewSingle(s, size)
    ensures SeenSent(s) == Some([])
  {
  }

  ghost predicate AllNew(senders: seq<MulticastSender>, size: nat)
    reads senders, set s | s in senders :: s.buf
  {
    && (forall i, j :: 0 <= i < j < |senders| ==>
          senders[i] != senders[j] && senders[i].buf != senders[j].buf && senders[i].buf.mem != senders[j].buf.mem)
    && forall k :: 0 <= k < |senders| ==> IsNew(senders[k], size)
  }

  ghost predicate AllNewSingles(senders: seq<SimpleSender>, size: nat)
    reads senders, set s | s in senders :: s.buf
  {
    && (forall i, j :: 0 <= i < j < |senders| ==>
          senders[i] != senders[j] && senders[i].buf != senders[j].buf && senders[i].buf.mem != senders[j].buf.mem)
    && forall k :: 0 <= k < |senders| ==> IsNewSingle(senders[k], size)
  }

  method NewMulti(size: nat) returns (s: MulticastSender)
    ensures IsNew(s, size) && fresh(s) && fresh(s.buf) && fresh(s.buf.mem)
  {
    s := new MulticastSender(size);
  }

  method AnotherMulti(senders: seq<MulticastSender>, size: nat) returns (more: seq<MulticastSender>)
    requires AllNew(senders, size)
    ensures |more| == |senders| + 1 && AllNew(more, size) && forall k :: 0 <= k < |senders| ==> more[k] == senders[k]
    ensures var s := more[|senders|]; fresh(s) && fresh(s.buf) && fresh(s.buf.mem)
  {
    var s := NewMulti(size);
    more := senders + [s];
  }

  method NewMultis(n: nat, size: nat) returns (senders: seq<MulticastSender>)
    ensures |senders| == n && AllNew(senders, size)
    ensures forall k :: 0 <= k < n ==> fresh(senders[k]) && fresh(senders[k].buf) && fresh(senders[k].buf.mem)
  {
    if n == 0 {
      return [];
    }
    var rest := NewMultis(n - 1, size);
    senders := AnotherMulti(rest, size);
  }

  method NewSingle(size: nat) returns (s: SimpleSender)
    ensures IsNewSingle(s, size) && fresh(s) && fresh(s.buf) && fresh(s.buf.mem)
  {
    s := new SimpleSender(size);
  }

  method AnotherSingle(senders: seq<SimpleSender>, size: nat) returns (more: seq<SimpleSender>)
    requires AllNewSingles(senders, size)
    ensures |more| == |senders| + 1 && AllNewSingles(more, size) && forall k :: 0 <= k < |senders| ==> more[k] == senders[k]
    ensures var s := more[|senders|]; fresh(s) && fresh(s.buf) && fresh(s.buf.mem)
  {
    var s := NewSingle(size);
    more := senders + [s];
  }

  method NewSingles(n: nat, size: nat) returns (senders: seq<SimpleSender>)
    ensures |senders| == n && AllNewSingles(senders, size)
    ensures forall k :: 0 <= k < n ==> fresh(senders[k]) && fresh(senders[k].buf) && fresh(senders[k].buf.mem)
  {
    if n == 0 {
      return [];
    }
    var rest := NewSingles(n - 1, size);
    senders := AnotherSingle(rest, size);
  }

  method NewBank(n: nat, size: nat) returns (bank: SenderBank)
    ensures bank.State() == Sound && |bank.multis| == |bank.singles| == n && bank.size == size
    ensures bank.lanes == seq(n, _ => Lane([], false, EMPTY)) && bank.sent == seq(n, _ => [])
    ensures fresh(bank) && fresh(bank.Foot())
  {
    var multis := NewMultis(n, size);
    var singles := NewSingles(n, size);
    assert forall m: MulticastSender :: m in multis ==> fresh(m) && fresh(m.buf) && fresh(m.buf.mem);
    assert forall m: SimpleSender :: m in singles ==> fresh(m) && fresh(m.buf) && fresh(m.buf.mem);
    bank := AsBank(multis, singles, size);
  }

  method AsBank(multis: seq<MulticastSender>, singles: seq<SimpleSender>, size: nat) returns (bank: SenderBank)
    requires AllNew(multis, size) && AllNewSingles(singles, size)
    requires forall i, j :: 0 <= i < |multis| && 0 <= j < |singles| ==>
      multis[i].buf != singles[j].buf && multis[i].buf.mem != singles[j].buf.mem
    ensures bank.State() == Sound && bank.multis == multis && bank.singles == singles && bank.size == size && fresh(bank)
    ensures bank.lanes == seq(|multis|, _ => Lane([], false, EMPTY)) && bank.sent == seq(|singles|, _ => [])
  {
    bank := new SenderBank(multis, singles, size);
  }

  datatype Condition = Sound | Broken

  ghost predicate Looked(t: nat) {
    t >= 0
  }

  class SenderBank {
    const size: nat
    const multis: seq<MulticastSender>
    const singles: seq<SimpleSender>
    ghost var lanes: seq<Lane>
    ghost var sent: seq<seq<Pair>>

    // No two senders are the same or share a buffer.
    ghost predicate Separate() {
      && (forall i, j :: 0 <= i < j < |multis| ==>
            multis[i] != multis[j] && multis[i].buf != multis[j].buf && multis[i].buf.mem != multis[j].buf.mem)
      && (forall i, j :: 0 <= i < j < |singles| ==>
            singles[i] != singles[j] && singles[i].buf != singles[j].buf && singles[i].buf.mem != singles[j].buf.mem)
      && (forall i, j :: 0 <= i < |multis| && 0 <= j < |singles| ==>
            multis[i].buf != singles[j].buf && multis[i].buf.mem != singles[j].buf.mem)
    }

    ghost predicate Sized() {
      && (forall k :: 0 <= k < |multis| ==> multis[k].size == size)
      && (forall k :: 0 <= k < |singles| ==> singles[k].size == size)
    }

    ghost predicate ShowLanes(now: seq<Lane>)
      reads multis, set s | s in multis :: s.buf, set s | s in multis :: s.buf.mem
    {
      |now| == |multis| && forall k :: 0 <= k < |multis| ==> Seen(multis[k]) == Some(now[k])
    }

    ghost predicate ShowSent(now: seq<seq<Pair>>)
      reads singles, set s | s in singles :: s.buf, set s | s in singles :: s.buf.mem
    {
      |now| == |singles| && forall k :: 0 <= k < |singles| ==> SeenSent(singles[k]) == Some(now[k])
    }

    // Everything a call may change besides the bank itself.
    ghost function Foot(): set<object> {
      (set s | s in multis :: s as object) + (set s | s in multis :: s.buf as object) + (set s | s in multis :: s.buf.mem as object)
      + (set s | s in singles :: s as object) + (set s | s in singles :: s.buf as object) + (set s | s in singles :: s.buf.mem as object)
    }

    lemma {:induction false} FootHolds()
      ensures forall m :: m in multis ==> m in Foot() && m.buf in Foot() && m.buf.mem in Foot()
      ensures forall m :: m in singles ==> m in Foot() && m.buf in Foot() && m.buf.mem in Foot()
    {
    }

    lemma {:induction false} InFoot(q: nat)
      ensures q < |multis| ==> multis[q] in Foot() && multis[q].buf in Foot() && multis[q].buf.mem in Foot()
      ensures q < |singles| ==> singles[q] in Foot() && singles[q].buf in Foot() && singles[q].buf.mem in Foot()
    {
      assert q < |multis| ==> multis[q] in multis;
      assert q < |singles| ==> singles[q] in singles;
    }

    // What the senders show is what is noted of them.
    ghost predicate Valid()
      reads this, multis, set s | s in multis :: s.buf, set s | s in multis :: s.buf.mem
      reads singles, set s | s in singles :: s.buf, set s | s in singles :: s.buf.mem
    {
      Separate() && Sized() && ShowLanes(lanes) && ShowSent(sent)
    }

    // State() == Sound is Valid(), as IsSound says.  `Looked` always holds; it keeps what Valid()
    // says of every single sender out of the way of a client who only needs that it holds.
    ghost function State(): Condition
      reads this, Foot()
    {
      FootHolds();
      if forall t: nat :: Looked(t) ==> Valid() then Sound else Broken
    }

    lemma {:induction false} IsSound()
      ensures State() == Sound <==> Valid()
    {
      assert Looked(0);
    }

    constructor (multis: seq<MulticastSender>, singles: seq<SimpleSender>, size: nat)
      requires AllNew(multis, size) && AllNewSingles(singles, size)
      requires forall i, j :: 0 <= i < |multis| && 0 <= j < |singles| ==>
        multis[i].buf != singles[j].buf && multis[i].buf.mem != singles[j].buf.mem
      ensures Valid() && this.multis == multis && this.singles == singles && this.size == size
      ensures lanes == seq(|multis|, _ => Lane([], false, EMPTY)) && sent == seq(|singles|, _ => [])
    {
      this.size, this.multis, this.singles := size, multis, singles;
      lanes, sent := seq(|multis|, _ => Lane([], false, EMPTY)), seq(|singles|, _ => []);
      new;
      forall k | 0 <= k < |multis| ensures Seen(multis[k]) == Some(lanes[k]) { NewSeen(multis[k], size); }
      forall k | 0 <= k < |singles| ensures SeenSent(singles[k]) == Some(sent[k]) { NewSeenSent(singles[k], size); }
    }

    // One call of one multicast sender; the others do not notice.
    method Do(q: nat, op: LaneOp)
      requires State() == Sound && q < |multis| == |lanes| && Allowed(op, lanes[q], size)
      modifies this`lanes, Foot()
      ensures State() == Sound && lanes == old(lanes)[q := After(op, old(lanes[q]), size)]
    {
      IsSound();
      InFoot(q);
      DoOne(q, op);
      NoteLanes(lanes[q := After(op, lanes[q], size)]);
    }

    method DoOne(q: nat, op: LaneOp)
      requires Valid() && q < |multis| && Allowed(op, lanes[q], size)
      modifies multis[q], multis[q].buf, multis[q].buf.mem
      ensures ShowLanes(lanes[q := After(op, lanes[q], size)]) && ShowSent(sent)
    {
      Act(multis[q], op, lanes[q]);
      forall k | 0 <= k < |multis| && k != q ensures Seen(multis[k]) == Some(lanes[k]) {
        assert multis[k] != multis[q] && multis[k].buf != multis[q].buf && multis[k].buf.mem != multis[q].buf.mem;
        assert old(Seen(multis[k])) == Some(lanes[k]);
      }
      forall k | 0 <= k < |singles| ensures SeenSent(singles[k]) == Some(sent[k]) {
        assert singles[k].buf != multis[q].buf && singles[k].buf.mem != multis[q].buf.mem;
        assert old(SeenSent(singles[k])) == Some(sent[k]);
      }
    }

    ghost method NoteLanes(now: seq<Lane>)
      requires Separate() && Sized() && ShowLanes(now) && ShowSent(sent)
      modifies this`lanes
      ensures Valid() && lanes == now
    {
      lanes := now;
    }

    // One message to one point-to-point sender.
    method Send(q: nat, b: Body, dest: nat)
      requires State() == Sound && q < |singles| == |sent| && HEADER + |b.words| <= size && !b.activation
      modifies this`sent, Foot()
      ensures State() == Sound && sent == old(sent)[q := old(sent[q]) + [Pair(b, dest)]]
    {
      IsSound();
      InFoot(q);
      SendOne(q, b, dest);
      NoteSent(sent[q := sent[q] + [Pair(b, dest)]]);
    }

    method SendOne(q: nat, b: Body, dest: nat)
      requires Valid() && q < |singles| && HEADER + |b.words| <= size && !b.activation
      modifies singles[q], singles[q].buf, singles[q].buf.mem
      ensures ShowLanes(lanes) && ShowSent(sent[q := sent[q] + [Pair(b, dest)]])
    {
      Put(singles[q], b, dest, sent[q]);
      forall k | 0 <= k < |singles| && k != q ensures SeenSent(singles[k]) == Some(sent[k]) {
        assert singles[k] != singles[q] && singles[k].buf != singles[q].buf && singles[k].buf.mem != singles[q].buf.mem;
        assert old(SeenSent(singles[k])) == Some(sent[k]);
      }
      forall k | 0 <= k < |multis| ensures Seen(multis[k]) == Some(lanes[k]) {
        assert multis[k].buf != singles[q].buf && multis[k].buf.mem != singles[q].buf.mem;
        assert old(Seen(multis[k])) == Some(lanes[k]);
      }
    }

    ghost method NoteSent(now: seq<seq<Pair>>)
      requires Separate() && Sized() && ShowLanes(lanes) && ShowSent(now)
      modifies this`sent
      ensures Valid() && sent == now
    {
      sent := now;
    }

    method FlushSingle(q: nat)
      requires State() == Sound && q < |singles|
      modifies Foot()
      ensures State() == Sound
    {
      IsSound();
      InFoot(q);
      FlushOne(q);
    }

    method FlushOne(q: nat)
      requires Valid() && q < |singles|
      modifies singles[q], singles[q].buf, singles[q].buf.mem
      ensures Valid()
    {
      HandInSingles(singles[q], sent[q]);
      forall k | 0 <= k < |singles| && k != q ensures SeenSent(singles[k]) == Some(sent[k]) {
        assert singles[k] != singles[q] && singles[k].buf != singles[q].buf && singles[k].buf.mem != singles[q].buf.mem;
        assert old(SeenSent(singles[k])) == Some(sent[k]);
      }
      forall k | 0 <= k < |multis| ensures Seen(multis[k]) == Some(lanes[k]) {
        assert multis[k].buf != singles[q].buf && multis[k].buf.mem != singles[q].buf.mem;
        assert old(Seen(multis[k])) == Some(lanes[k]);
      }
    }
  }
}
