/** What every step of the echo gateway keeps. */
module EchoInvariants {
  import opened Common
  import opened PacketLayout
  import opened PacketStatistics
  import opened QueueProtocol
  import opened QueueInvariants
  import opened WsPackets
  import opened EchoGateway

  // ---------------------------------------------------------------- one queue, seen from outside

  predicate BeforeFill(p: Producer) {
    p.PHead? || p.PScan? || p.PMark? || p.PMissed? || p.PNap? || p.PGot?
  }

  /** It is still open whether this push will queue its packet. */
  predicate Undecided(p: Producer) {
    BeforeFill(p) || p.PFill? || p.PAddSize? || p.PSetSize? || p.PRing? || p.PTimeout?
  }

  /** What one step of the pushing thread does to the rest of the world. */
  lemma ProduceEffect(s: State)
    requires Shape(s) && Ownership(s) && Scanning(s) && Enabled(s, PStep)
    ensures var t := Produce(s);
      && t.cfg == s.cfg && t.handed == s.handed && !t.p.PIdle?
      && t.accepted == (if Accepts(s) then s.accepted + [s.Packet(s.p.x)] else s.accepted)
      && (t.c == s.c || (s.c.CWait? && t.c.CWoken?))
      && (Undecided(t.p) <==> Undecided(s.p) && !Accepts(s) && !s.p.PTimeout?)
      && (t.p == PDone(true) <==> s.p.PCountOk?)
      && (t.p == PDone(false) <==> s.p.PCountReject? || s.p.PTimeout?)
  {
    hide Stat.Add, Stat.Life, Slot, Offset;
    RingHasRoom(s);
  }

  lemma ProduceCounts(s: State)
    requires Shape(s) && Scanning(s) && Enabled(s, PStep)
    ensures var life, life' := s.ps.Life(), Produce(s).ps.Life();
      && life'.pushTimeout == life.pushTimeout + One(s.p.PTimeout?)
      && life'.pushOk == life.pushOk + One(s.p.PCountOk?)
      && life'.pushActionFailed == life.pushActionFailed + One(s.p.PCountReject?)
      && life'.popOk == life.popOk && life'.popActionFailed == life.popActionFailed
  {
    hide Stat.Add, Stat.Life, Slot, Offset;
    match s.p {
      case PMissed(_, _) => LifeSteps(s.ps, AllocFailed, 1);
      case PGot(_, _) => LifeSteps(s.ps, AllocOk, 1);
      case PAddSize(_, ret) => LifeSteps(s.ps, PushPacketSize, ret);
      case PCountOk => LifeSteps(s.ps, PushOk, 1);
      case PCountReject => LifeSteps(s.ps, PushActionFailed, 1);
      case PTimeout(_) => LifeSteps(s.ps, PushTimeout, 1);
      case _ =>
    }
  }

  /** What one step of the popping thread does to the rest of the world. */
  lemma ConsumeEffect(s: State)
    requires Shape(s) && Enabled(s, CStep)
    ensures var t := Consume(s);
      && t.cfg == s.cfg && t.accepted == s.accepted && t.p == s.p
      && t.sizes == s.sizes && t.buf == s.buf
      && t.handed == (if s.c.CTry? && s.ring != [] then s.handed + [s.Packet(s.ring[0])] else s.handed)
      && !t.c.CIdle? && !t.c.CCount?
      && (t.c.CGot? <==> s.c.CTry? && s.ring != [])
      && (t.c.CAct? <==> s.c.CGot?)
  {
    hide Stat.Add, Stat.Life, Slot, Offset;
  }

  lemma ConsumeCounts(s: State)
    requires Shape(s) && Enabled(s, CStep)
    ensures var life, life' := s.ps.Life(), Consume(s).ps.Life();
      && life'.popOk == life.popOk + One(s.c.CCount? && s.c.ok)
      && life'.popActionFailed == life.popActionFailed + One(s.c.CCount? && !s.c.ok)
      && life'.pushTimeout == life.pushTimeout && life'.pushOk == life.pushOk
      && life'.pushActionFailed == life.pushActionFailed
  {
    hide Stat.Add, Stat.Life, Slot, Offset;
    match s.c {
      case CGot(x) => LifeSteps(s.ps, PopPacketSize, s.sizes[x]);
      case CCount(_, ok) => LifeSteps(s.ps, if ok then PopOk else PopActionFailed, 1);
      case CEmpty(_, _) => LifeSteps(s.ps, PopEmpty, 1);
      case CTimeout(_, _) => LifeSteps(s.ps, PopTimeout, 1);
      case _ =>
    }
  }

  // ---------------------------------------------------------------- a push that copies a given string

  /** The running push is putting exactly `want` into its slot, `copied` bytes of it so far. */
  ghost predicate Copying(s: State, copied: nat, want: Bytes)
    requires Shape(s)
  {
    && |want| <= s.cfg.mtu
    && match s.p {
         case PFill(x) =>
           SlotInside(s.cfg.mtu, x, s.cfg.size);
           copied <= |want| && Slot(s.cfg.mtu, s.buf, x, copied) == want[..copied]
         case PAddSize(x, ret) =>
           SlotInside(s.cfg.mtu, x, s.cfg.size);
           ret == |want| && Slot(s.cfg.mtu, s.buf, x, ret) == want
         case PSetSize(x, ret) =>
           SlotInside(s.cfg.mtu, x, s.cfg.size);
           ret == |want| && Slot(s.cfg.mtu, s.buf, x, ret) == want
         case PRing(x) => s.Packet(x) == want
         case PReject(_) => want == []
         case PCountReject => want == []
         case _ => BeforeFill(s.p) ==> copied == 0
       }
  }

  lemma ProduceKeepsCopying(s: State, copied: nat, want: Bytes)
    requires Shape(s) && Copying(s, copied, want) && Enabled(s, PStep)
    ensures Shape(Produce(s)) && Copying(Produce(s), copied, want)
  {
    hide Stat.Add, Stat.Life, Offset;
    ProducerKeepsShape(s);
  }

  lemma WriteKeepsCopying(s: State, copied: nat, want: Bytes)
    requires Shape(s) && Copying(s, copied, want) && s.p.PFill? && copied < |want|
    ensures Enabled(s, Write(copied, want[copied])) && Shape(Apply(s, Write(copied, want[copied])))
    ensures Copying(Apply(s, Write(copied, want[copied])), copied + 1, want)
  {
    hide Stat.Add, Stat.Life, Offset;
    KeepsShape(s, Write(copied, want[copied]));
    var x, t := s.p.x, Apply(s, Write(copied, want[copied]));
    SlotInside(s.cfg.mtu, x, s.cfg.size);
    var before, after := Slot(s.cfg.mtu, s.buf, x, copied), Slot(s.cfg.mtu, t.buf, x, copied + 1);
    assert after == before + [want[copied]];
    assert want[..copied + 1] == want[..copied] + [want[copied]];
  }

  lemma RetKeepsCopying(s: State, want: Bytes)
    requires Shape(s) && Copying(s, |want|, want) && s.p.PFill?
    ensures Shape(Apply(s, ActionRet(|want|))) && Copying(Apply(s, ActionRet(|want|)), |want|, want)
  {
    hide Stat.Add, Stat.Life, Slot, Offset;
    KeepsShape(s, ActionRet(|want|));
    assert want[..|want|] == want;
  }

  /** Steps of other threads do not disturb the copy. */
  lemma OthersKeepCopying(s: State, t: State, copied: nat, want: Bytes)
    requires Shape(s) && Copying(s, copied, want) && Shape(t)
    requires t.cfg == s.cfg && t.p == s.p && t.buf == s.buf && t.sizes == s.sizes
    ensures Copying(t, copied, want)
  {
  }

  // ---------------------------------------------------------------- what becomes of each payload

  predicate Increasing(ids: seq<nat>) {
    forall i, j :: 0 <= i < j < |ids| ==> ids[i] < ids[j]
  }

  /** The packets a queue has accepted are payloads received, in order of arrival, cut to the mtu. */
  ghost predicate Carries(mtu: nat, received: seq<Bytes>, accepted: seq<Bytes>, ids: seq<nat>) {
    && |ids| == |accepted| && Increasing(ids)
    && forall k :: 0 <= k < |ids| ==>
         ids[k] < |received| && accepted[k] == Cut(mtu, received[ids[k]]) && accepted[k] != []
  }

  /**
   Of the payloads received (all but the newest while its push is still open) each is in the first
   queue's history, or lost to a timeout, or empty; never two of the first two.
   */
  ghost predicate Stage1(mtu: nat, received: seq<Bytes>, accepted: seq<Bytes>, carried: seq<nat>, lost: seq<nat>,
                         open: bool) {
    && Carries(mtu, received, accepted, carried)
    && Increasing(lost)
    && (open ==> received != [])
    && var top := |received| - One(open);
    && (forall k :: 0 <= k < |carried| ==> carried[k] < top)
    && (forall k :: 0 <= k < |lost| ==> lost[k] < top)
    && (forall i, j :: 0 <= i < |carried| && 0 <= j < |lost| ==> carried[i] != lost[j])
    && (forall i: nat :: i < top ==> i in carried || i in lost || Cut(mtu, received[i]) == [])
  }

  /**
   Of the payloads the echo thread has taken (all but the last while its nested push is still open)
   each is in the second queue's history or lost to a timeout, never both.
   */
  ghost predicate Stage2(mtu: nat, received: seq<Bytes>, carried1: seq<nat>, taken: nat,
                         accepted: seq<Bytes>, carried: seq<nat>, lost: seq<nat>, open: bool) {
    && taken <= |carried1| && (open ==> taken > 0)
    && Carries(mtu, received, accepted, carried)
    && Increasing(lost)
    && var top := taken - One(open);
    && (forall k :: 0 <= k < |carried| ==> carried[k] in carried1[..top])
    && (forall k :: 0 <= k < |lost| ==> lost[k] in carried1[..top])
    && (forall i, j :: 0 <= i < |carried| && 0 <= j < |lost| ==> carried[i] != lost[j])
    && (forall k :: 0 <= k < top ==> carried1[k] in carried || carried1[k] in lost)
  }

  /** What has been sent are the packets handed out (but for one still in the action), each framed. */
  ghost predicate Sent(out: seq<Bytes>, handed: seq<Bytes>, open: bool) {
    && |out| + One(open) == |handed|
    && forall k :: 0 <= k < |out| ==> out[k] == Frame(handed[k])
  }

  predicate Open1(g: Gateway) {
    g.server.SPushing? && Undecided(g.toTun.p)
  }

  predicate Open2(g: Gateway) {
    g.toTun.c.CGot? || (g.toTun.c.CAct? && (g.fromTun.p.PIdle? || Undecided(g.fromTun.p)))
  }

  predicate Open3(g: Gateway) {
    g.fromTun.c.CGot? || g.fromTun.c.CAct?
  }

  lemma Arrived(mtu: nat, received: seq<Bytes>, accepted: seq<Bytes>, carried: seq<nat>, lost: seq<nat>, x: Bytes)
    requires Stage1(mtu, received, accepted, carried, lost, false)
    ensures Stage1(mtu, received + [x], accepted, carried, lost, true)
  {
  }

  lemma Accepted1(mtu: nat, received: seq<Bytes>, accepted: seq<Bytes>, carried: seq<nat>, lost: seq<nat>)
    requires Stage1(mtu, received, accepted, carried, lost, true)
    requires Cut(mtu, received[|received| - 1]) != []
    ensures Stage1(mtu, received, accepted + [Cut(mtu, received[|received| - 1])],
                   carried + [|received| - 1], lost, false)
  {
    assert forall i :: i in carried ==> i in carried + [|received| - 1];
  }

  lemma Lost1(mtu: nat, received: seq<Bytes>, accepted: seq<Bytes>, carried: seq<nat>, lost: seq<nat>)
    requires Stage1(mtu, received, accepted, carried, lost, true)
    ensures Stage1(mtu, received, accepted, carried, lost + [|received| - 1], false)
  {
    assert forall i :: i in lost ==> i in lost + [|received| - 1];
  }

  lemma Rejected1(mtu: nat, received: seq<Bytes>, accepted: seq<Bytes>, carried: seq<nat>, lost: seq<nat>)
    requires Stage1(mtu, received, accepted, carried, lost, true)
    requires Cut(mtu, received[|received| - 1]) == []
    ensures Stage1(mtu, received, accepted, carried, lost, false)
  {
  }

  /** Stage 2 does not care about payloads that are still on their way to it. */
  lemma Upstream(mtu: nat, received: seq<Bytes>, carried1: seq<nat>, taken: nat,
                 accepted: seq<Bytes>, carried: seq<nat>, lost: seq<nat>, open: bool,
                 received': seq<Bytes>, carried1': seq<nat>)
    requires Stage2(mtu, received, carried1, taken, accepted, carried, lost, open)
    requires received <= received' && carried1 <= carried1'
    ensures Stage2(mtu, received', carried1', taken, accepted, carried, lost, open)
  {
    assert carried1'[..taken - One(open)] == carried1[..taken - One(open)];
  }

  lemma Taken(mtu: nat, received: seq<Bytes>, carried1: seq<nat>, taken: nat,
              accepted: seq<Bytes>, carried: seq<nat>, lost: seq<nat>)
    requires Stage2(mtu, received, carried1, taken, accepted, carried, lost, false)
    requires taken < |carried1|
    ensures Stage2(mtu, received, carried1, taken + 1, accepted, carried, lost, true)
  {
  }

  lemma Accepted2(mtu: nat, received: seq<Bytes>, carried1: seq<nat>, taken: nat,
                  accepted: seq<Bytes>, carried: seq<nat>, lost: seq<nat>, x: Bytes)
    requires Stage2(mtu, received, carried1, taken, accepted, carried, lost, true)
    requires Increasing(carried1) && carried1[taken - 1] < |received|
    requires x == Cut(mtu, received[carried1[taken - 1]]) && x != []
    ensures Stage2(mtu, received, carried1, taken, accepted + [x], carried + [carried1[taken - 1]], lost, false)
  {
    var id := carried1[taken - 1];
    Later(carried1, taken - 1);
    assert carried1[..taken] == carried1[..taken - 1] + [id];
    assert forall i :: i in carried ==> i in carried + [id];
  }

  lemma Lost2(mtu: nat, received: seq<Bytes>, carried1: seq<nat>, taken: nat,
              accepted: seq<Bytes>, carried: seq<nat>, lost: seq<nat>)
    requires Stage2(mtu, received, carried1, taken, accepted, carried, lost, true)
    requires Increasing(carried1)
    ensures Stage2(mtu, received, carried1, taken, accepted, carried, lost + [carried1[taken - 1]], false)
  {
    var id := carried1[taken - 1];
    Later(carried1, taken - 1);
    assert carried1[..taken] == carried1[..taken - 1] + [id];
    assert forall i :: i in lost ==> i in lost + [id];
  }

  lemma Later(ids: seq<nat>, n: nat)
    requires Increasing(ids) && n < |ids|
    ensures forall x :: x in ids[..n] ==> x < ids[n]
  {
  }
}
