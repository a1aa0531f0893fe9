/** What every step of the queue protocol keeps, and what follows for whole runs. */
module QueueInvariants {
  import opened Common
  import opened PacketLayout
  import opened Backoff
  import opened PacketStatistics
  import opened QueueProtocol

  // ---------------------------------------------------------------- the invariant

  /** The used slots are exactly the owned ones, and nobody shares a slot. */
  ghost predicate Ownership(s: State)
    requires Shape(s)
  {
    && NoDup(Owned(s))
    && forall i: nat :: i < s.cfg.size ==> (s.used[i] <==> i in Owned(s))
  }

  /** During a scan only the consumer touches the flags, and it only clears them. */
  ghost predicate Scanning(s: State)
    requires Shape(s)
  {
    match s.p
    case PScan(i, _, start) =>
      && (forall k :: 0 <= k < i ==> start[k])
      && (forall k :: 0 <= k < s.cfg.size && s.used[k] ==> start[k])
    case PMark(i, _, start) => !s.used[i] && forall k :: 0 <= k < i ==> start[k]
    case PMissed(_, start) => forall k :: 0 <= k < s.cfg.size ==> start[k]
    case PGot(x, start) => forall k :: 0 <= k < x ==> start[k]
    case PUndo(_) => false
    case PCountFailed => false
    case _ => true
  }

  /**
   The bytes lying in the ring's slots are the accepted strings not yet handed out, in order, and the
   consumer's slot still holds the string handed out last.
   */
  ghost predicate Contents(s: State)
    requires Shape(s)
  {
    && |s.accepted| == |s.handed| + |s.ring|
    && s.handed == s.accepted[..|s.handed|]
    && (forall k :: 0 <= k < |s.ring| ==> s.Packet(s.ring[k]) == s.accepted[|s.handed| + k])
    && forall x :: x in CSlots(s.c) ==>
         && s.handed != [] && x < s.cfg.size && s.sizes[x] <= s.cfg.mtu
         && s.Packet(x) == s.handed[|s.handed| - 1]
  }

  function TotalBytes(xs: seq<Bytes>): nat {
    if xs == [] then 0 else TotalBytes(xs[..|xs| - 1]) + |xs[|xs| - 1]|
  }

  function One(b: bool): nat {
    if b then 1 else 0
  }

  /** The push has counted its allocation but not yet its outcome. */
  predicate Allocated(p: Producer) {
    p.PFill? || p.PAddSize? || p.PSetSize? || p.PRing? || p.PNotify? || p.PCountOk? || p.PReject? || p.PCountReject?
  }

  /** Bytes counted as pushed that are not in the ring yet. */
  function PushedAhead(s: State): nat
    requires Shape(s)
  {
    match s.p
    case PSetSize(_, ret) => ret
    case PRing(x) => s.sizes[x]
    case _ => 0
  }

  /** Bytes taken out of the ring that are not counted as popped yet. */
  function PoppedBehind(s: State): nat
    requires Shape(s)
  {
    match s.c
    case CGot(x) => s.sizes[x]
    case _ => 0
  }

  /** The lifetime counters account for every call, packet and byte, up to what is in flight. */
  ghost predicate Accounts(s: State)
    requires Shape(s)
  {
    var life := s.ps.Life();
    && life.allocOk == life.pushOk + life.pushActionFailed + One(Allocated(s.p))
    && life.pushFailed == 0
    && |s.accepted| == life.pushOk + One(s.p.PNotify? || s.p.PCountOk?)
    && |s.handed| == life.popOk + life.popActionFailed + One(s.c.CGot? || s.c.CAct? || s.c.CCount?)
    && life.pushPacketSize == TotalBytes(s.accepted) + PushedAhead(s)
    && life.popPacketSize + PoppedBehind(s) == TotalBytes(s.handed)
    && life.popEmpty == life.popTimeout + s.woken + s.spurious + One(s.c.CLock? || s.c.CWait? || s.c.CTimeout?)
    && s.woken <= s.notifies
    && |s.accepted| == s.notifies + One(s.p.PNotify?)
  }

  ghost predicate LoopHead(s: State, l: Loop) {
    && l.tw == Slept(l.tries) && Min(l.wait, CAP) == Nap(l.tries)
    && l.tries <= Attempts(s.cfg.blockWait)
    && s.ps.Life().allocFailed == l.before + l.tries
  }

  /** Whatever the consumer does meanwhile, the back-off loop keeps its own arithmetic. */
  ghost predicate Waiting(s: State) {
    match s.p
    case PHead(l) => LoopHead(s, l)
    case PScan(_, l, _) => LoopHead(s, l) && l.tw < s.cfg.blockWait
    case PMark(_, l, _) => LoopHead(s, l) && l.tw < s.cfg.blockWait
    case PMissed(l, _) => LoopHead(s, l) && l.tw < s.cfg.blockWait
    case PNap(l) =>
      && l.tries > 0
      && LoopHead(s, l.(tries := l.tries - 1, before := l.before + 1))
      && l.tw < s.cfg.blockWait
    case PTimeout(l) => LoopHead(s, l) && l.tries == Attempts(s.cfg.blockWait)
    case _ => true
  }

  /** A pop that found nothing removed nothing, and what it saw was an empty ring. */
  ghost predicate Missing(s: State) {
    match s.c
    case CTry(base) => |s.handed| == base
    case CWoken(base) => |s.handed| == base
    case CEmpty(base, seen) => |s.handed| == base == seen <= |s.accepted|
    case CLock(base, seen) => |s.handed| == base == seen <= |s.accepted|
    case CWait(base, seen, since) => |s.handed| == base == seen <= |s.accepted| && s.notifies == since
    case CTimeout(base, seen) => |s.handed| == base == seen <= |s.accepted|
    case CFalse(base, seen) => |s.handed| == base == seen <= |s.accepted|
    case _ => true
  }

  ghost predicate Inv(s: State) {
    && Shape(s)
    && Ownership(s)
    && Scanning(s)
    && Contents(s)
    && Accounts(s)
    && Waiting(s)
    && Missing(s)
  }

  // ---------------------------------------------------------------- preservation

  lemma InitInv(s: State)
    requires Init(s)
    ensures Inv(s)
  {
    hide Stat.Life, Data.Plus;
    FreshLife();
    assert Owned(s) == [];
    assert Shape(s);
    assert Ownership(s);
    assert Scanning(s);
    assert Contents(s);
    assert Waiting(s);
    assert Missing(s);
    assert Accounts(s);
  }

  /** Has the producer no slot in its hand? */
  predicate Empty(p: Producer) {
    PSlots(p) == []
  }

  lemma LoopKeepsShape(s: State)
    requires Shape(s) && Enabled(s, PStep) && Empty(s.p)
    ensures Shape(Produce(s))
  {
    hide Stat.Add, Stat.Life, Slot, Offset;
  }

  lemma DeliveryKeepsShape(s: State)
    requires Shape(s) && Enabled(s, PStep) && !Empty(s.p)
    ensures Shape(Produce(s))
  {
    hide Stat.Add, Stat.Life, Slot, Offset;
  }

  lemma ProducerKeepsShape(s: State)
    requires Shape(s) && Enabled(s, PStep)
    ensures Shape(Produce(s))
  {
    hide Produce, Shape, Enabled, Empty;
    if Empty(s.p) {
      LoopKeepsShape(s);
    } else {
      DeliveryKeepsShape(s);
    }
  }

  lemma ConsumerKeepsShape(s: State)
    requires Shape(s) && Enabled(s, CStep)
    ensures Shape(Consume(s))
  {
    hide Stat.Add, Stat.Life, Slot, Offset;
  }

  lemma KeepsShape(s: State, step: Step)
    requires Shape(s) && Enabled(s, step)
    ensures Shape(Apply(s, step))
  {
    hide Stat.Add, Stat.Collected, Stat.Life, Slot, Offset, Produce, Consume;
    match step
    case PStep => ProducerKeepsShape(s);
    case CStep => ConsumerKeepsShape(s);
    case Write(_, _) => SlotInside(s.cfg.mtu, s.p.x, s.cfg.size);
    case _ =>
  }

  lemma ProducerKeepsOwnership(s: State)
    requires Shape(s) && Ownership(s) && Scanning(s) && Enabled(s, PStep)
    ensures Shape(Produce(s)) && Ownership(Produce(s))
  {
    hide Stat.Add, Stat.Life, Slot, Offset;
    ProducerKeepsShape(s);
    var t := Produce(s);
    if s.p.PMark? {
      assert Owned(t) == Owned(s) + [s.p.i];
      NoDupSnoc(Owned(s), s.p.i);
    } else if s.p.PReject? {
      assert Owned(s) == Owned(t) + [s.p.x];
      NoDupSnoc(Owned(t), s.p.x);
    } else {
      assert Owned(t) == Owned(s);
      assert t.used == s.used;
    }
  }

  lemma FreeKeepsOwnership(s: State)
    requires Shape(s) && Ownership(s) && s.c.CFree?
    ensures Shape(Consume(s)) && Ownership(Consume(s))
  {
    hide Stat.Add, Stat.Life, Slot, Offset;
    ConsumerKeepsShape(s);
    var t := Consume(s);
    assert Owned(s) == [s.c.x] + Owned(t);
    NoDupCons(s.c.x, Owned(t));
  }

  lemma HeadMovesOver(ring: seq<nat>, mine: seq<nat>)
    requires ring != []
    ensures [] + ring + mine == [ring[0]] + ring[1..] + mine
  {
    assert ring == [ring[0]] + ring[1..];
  }

  /** Where a consumer step leaves the slots it owns, but for a ring pop and a free. */
  lemma ConsumerHolds(s: State)
    requires Shape(s) && Enabled(s, CStep) && !s.c.CFree?
    ensures var t := Consume(s);
      && t.used == s.used && t.cfg == s.cfg && t.p == s.p
      && (if s.c.CTry? && s.ring != []
          then CSlots(s.c) == [] && CSlots(t.c) == [s.ring[0]] && t.ring == s.ring[1..]
          else CSlots(t.c) == CSlots(s.c) && t.ring == s.ring)
  {
    hide Stat.Add, Stat.Life, Slot, Offset;
  }

  lemma ConsumerKeepsOwners(s: State)
    requires Shape(s) && Enabled(s, CStep) && !s.c.CFree?
    ensures Shape(Consume(s)) && Owned(Consume(s)) == Owned(s)
    ensures Consume(s).used == s.used && Consume(s).cfg == s.cfg
  {
    ConsumerKeepsShape(s);
    ConsumerHolds(s);
    hide Shape, Consume, PSlots, CSlots, Enabled;
    if s.c.CTry? && s.ring != [] {
      HeadMovesOver(s.ring, PSlots(s.p));
    }
  }

  lemma ConsumerKeepsOwnership(s: State)
    requires Shape(s) && Ownership(s) && Enabled(s, CStep)
    ensures Shape(Consume(s)) && Ownership(Consume(s))
  {
    if s.c.CFree? {
      FreeKeepsOwnership(s);
    } else {
      hide Consume, Owned, Enabled;
      ConsumerKeepsOwners(s);
    }
  }

  lemma KeepsOwnership(s: State, step: Step)
    requires Shape(s) && Ownership(s) && Scanning(s) && Enabled(s, step)
    ensures Shape(Apply(s, step)) && Ownership(Apply(s, step))
  {
    hide Stat.Add, Stat.Collected, Stat.Life, Slot, Offset, Produce, Consume;
    KeepsShape(s, step);
    match step
    case PStep => ProducerKeepsOwnership(s);
    case CStep => ConsumerKeepsOwnership(s);
    case _ => assert Owned(Apply(s, step)) == Owned(s);
  }

  /** With a slot in the producer's hand the ring has room, so `q.push` never refuses. */
  lemma RingHasRoom(s: State)
    requires Shape(s) && Ownership(s)
    ensures |Owned(s)| <= s.cfg.size
    ensures PSlots(s.p) != [] ==> |s.ring| < s.cfg.size
  {
    var owned := Owned(s);
    BoundedNoDup(owned, s.cfg.size);
  }

  lemma ProducerKeepsScanning(s: State)
    requires Shape(s) && Ownership(s) && Scanning(s) && Enabled(s, PStep)
    ensures Shape(Produce(s)) && Scanning(Produce(s))
  {
    hide Stat.Add, Stat.Life, Slot, Offset;
    ProducerKeepsShape(s);
    RingHasRoom(s);
  }

  lemma KeepsScanning(s: State, step: Step)
    requires Shape(s) && Ownership(s) && Scanning(s) && Enabled(s, step)
    ensures Shape(Apply(s, step)) && Scanning(Apply(s, step))
  {
    hide Stat.Add, Stat.Collected, Stat.Life, Slot, Offset, Produce, Consume;
    KeepsShape(s, step);
    match step
    case PStep => ProducerKeepsScanning(s);
    case CStep => ConsumerOnlyClears(s);
    case _ =>
  }

  /** The consumer never marks a slot and never moves the producer, except out of nothing into `CWoken`. */
  lemma ConsumerOnlyClears(s: State)
    requires Shape(s) && Enabled(s, CStep)
    ensures var t := Consume(s);
      && t.p == s.p && t.cfg == s.cfg && |t.used| == |s.used|
      && t.sizes == s.sizes && t.buf == s.buf && t.accepted == s.accepted
      && forall k :: 0 <= k < |s.used| && t.used[k] ==> s.used[k]
  {
    hide Stat.Add, Stat.Life, Slot, Offset;
  }

  /** The producer moves the consumer by a notify only. */
  lemma ProducerOnlyWakes(s: State)
    requires Shape(s) && Enabled(s, PStep)
    ensures var t := Produce(s);
      t.c == s.c || (s.p.PNotify? && s.c.CWait? && t.c == CWoken(s.c.base))
  {
    hide Stat.Add, Stat.Life, Slot, Offset;
  }

  /** A packet's bytes depend on its own slot and its own size field only. */
  lemma PacketUntouched(s: State, t: State, x: nat)
    requires Memory(s) && Memory(t) && t.cfg == s.cfg && Filled(s, x)
    requires t.sizes[x] == s.sizes[x]
    requires t.buf == s.buf
    ensures t.Packet(x) == s.Packet(x)
  {
  }

  lemma WriteKeepsPacket(s: State, off: nat, b: byte, x: nat)
    requires Shape(s) && Enabled(s, Write(off, b)) && Filled(s, x) && x != s.p.x
    ensures Shape(Apply(s, Write(off, b))) && Apply(s, Write(off, b)).Packet(x) == s.Packet(x)
  {
    KeepsShape(s, Write(off, b));
    SlotInside(s.cfg.mtu, x, s.cfg.size);
    SlotInside(s.cfg.mtu, s.p.x, s.cfg.size);
    WriteElsewhere(s.cfg.mtu, s.buf, s.p.x, off, b, x, s.sizes[x]);
  }

  /** The step leaves the packet in slot `x`, bytes and size, exactly as it was. */
  predicate Intact(s: State, t: State, x: nat)
    requires Memory(s)
  {
    Filled(s, x) && Memory(t) && t.cfg == s.cfg && t.sizes[x] == s.sizes[x] && t.Packet(x) == s.Packet(x)
  }

  /** No step changes a packet between its ring-push and its free. */
  lemma KeepsPackets(s: State, step: Step, x: nat)
    requires Shape(s) && Ownership(s) && Enabled(s, step)
    requires x in CSlots(s.c) + s.ring
    ensures Intact(s, Apply(s, step), x)
  {
    hide Stat.Add, Stat.Collected, Stat.Life, Slot, Offset;
    KeepsShape(s, step);
    var t := Apply(s, step);
    NotTheProducers(s, x);
    if step.Write? {
      WriteKeepsPacket(s, step.off, step.b, x);
    } else {
      assert t.sizes[x] == s.sizes[x];
      PacketUntouched(s, t, x);
    }
  }

  lemma NotTheProducers(s: State, x: nat)
    requires Shape(s) && Ownership(s)
    requires x in CSlots(s.c) + s.ring
    ensures Filled(s, x) && x !in PSlots(s.p)
  {
    var mine := CSlots(s.c) + s.ring;
    var k :| 0 <= k < |mine| && mine[k] == x;
    assert Owned(s)[k] == x;
    assert forall m :: 0 <= m < |PSlots(s.p)| ==> Owned(s)[|mine| + m] == PSlots(s.p)[m];
  }

  // ---------------------------------------------------------------- contents

  /** `Contents` survives a step that moves no packet in or out of the ring. */
  lemma QuietKeepsContents(s: State, step: Step)
    requires Inv(s) && Enabled(s, step)
    requires NothingMoves(s, Apply(s, step))
    ensures Shape(Apply(s, step)) && Contents(Apply(s, step))
  {
    hide Stat.Add, Stat.Collected, Stat.Life, Slot, Offset, Produce, Consume, Apply;
    KeepsShape(s, step);
    var t := Apply(s, step);
    forall k | 0 <= k < |t.ring|
      ensures t.Packet(t.ring[k]) == s.Packet(s.ring[k])
    {
      assert s.ring[k] in CSlots(s.c) + s.ring;
      KeepsPackets(s, step, s.ring[k]);
    }
    forall x | x in CSlots(t.c)
      ensures Intact(s, t, x)
    {
      KeepsPackets(s, step, x);
    }
  }

  lemma PushKeepsContents(s: State)
    requires Inv(s) && Enabled(s, PStep) && s.p.PRing?
    ensures Shape(Produce(s)) && Contents(Produce(s))
  {
    hide Stat.Add, Stat.Life, Slot, Offset;
    ProducerKeepsShape(s);
    RingHasRoom(s);
    var t := Produce(s);
    forall k | 0 <= k < |t.ring|
      ensures t.Packet(t.ring[k]) == t.accepted[|t.handed| + k]
    {
      if k < |s.ring| {
        assert t.ring[k] == s.ring[k];
        PacketUntouched(s, t, s.ring[k]);
      } else {
        PacketUntouched(s, t, s.p.x);
      }
    }
    forall x | x in CSlots(t.c)
      ensures t.handed != [] && Filled(t, x) && t.Packet(x) == t.handed[|t.handed| - 1]
    {
      PacketUntouched(s, t, x);
    }
  }

  lemma PopKeepsContents(s: State)
    requires Inv(s) && Enabled(s, CStep) && s.c.CTry? && s.ring != []
    ensures Shape(Consume(s)) && Contents(Consume(s))
  {
    hide Stat.Add, Stat.Life, Slot, Offset;
    ConsumerKeepsShape(s);
    var t := Consume(s);
    forall k | 0 <= k < |t.ring|
      ensures t.Packet(t.ring[k]) == t.accepted[|t.handed| + k]
    {
      assert t.ring[k] == s.ring[k + 1];
      PacketUntouched(s, t, s.ring[k + 1]);
    }
    assert s.Packet(s.ring[0]) == s.accepted[|s.handed|];
    PacketUntouched(s, t, s.ring[0]);
  }

  /** No packet moves in or out of the ring, and the consumer takes no other slot. */
  predicate NothingMoves(s: State, t: State) {
    && t.ring == s.ring && t.accepted == s.accepted && t.handed == s.handed
    && forall x :: x in CSlots(t.c) ==> x in CSlots(s.c)
  }

  lemma ProducerMovesNothing(s: State)
    requires Shape(s) && Enabled(s, PStep) && !s.p.PRing?
    ensures NothingMoves(s, Produce(s))
  {
    hide Stat.Add, Stat.Life, Slot, Offset;
  }

  lemma ConsumerMovesNothing(s: State)
    requires Shape(s) && Enabled(s, CStep) && !(s.c.CTry? && s.ring != [])
    ensures NothingMoves(s, Consume(s))
  {
    hide Stat.Add, Stat.Life, Slot, Offset;
  }

  lemma KeepsContents(s: State, step: Step)
    requires Inv(s) && Enabled(s, step)
    ensures Shape(Apply(s, step)) && Contents(Apply(s, step))
  {
    hide Stat.Collected, Stat.Life, Slot, Offset, Produce, Consume, Contents;
    if step.PStep? && s.p.PRing? {
      PushKeepsContents(s);
    } else if step.CStep? && s.c.CTry? && s.ring != [] {
      PopKeepsContents(s);
    } else {
      assert NothingMoves(s, Apply(s, step)) by {
        if step.PStep? {
          ProducerMovesNothing(s);
        } else if step.CStep? {
          ConsumerMovesNothing(s);
        }
      }
      QuietKeepsContents(s, step);
    }
  }

  // ---------------------------------------------------------------- counters

  lemma TotalBytesSnoc(xs: seq<Bytes>, x: Bytes)
    ensures TotalBytes(xs + [x]) == TotalBytes(xs) + |x|
  {
    assert (xs + [x])[..|xs|] == xs;
  }

  /** Is the producer's next access a counter update? */
  predicate Counting(p: Producer) {
    p.PMissed? || p.PGot? || p.PAddSize? || p.PCountOk? || p.PCountFailed? || p.PCountReject? || p.PTimeout?
  }

  lemma CountingKeepsAccounts(s: State)
    requires Shape(s) && Scanning(s) && Accounts(s) && Counting(s.p)
    ensures Shape(Produce(s)) && Accounts(Produce(s))
  {
    hide Stat.Add, Stat.Life, Slot, Offset, TotalBytes;
    ProducerKeepsShape(s);
    match s.p {
      case PMissed(_, _) => LifeSteps(s.ps, AllocFailed, 1);
      case PGot(_, _) => LifeSteps(s.ps, AllocOk, 1);
      case PAddSize(_, ret) => LifeSteps(s.ps, PushPacketSize, ret);
      case PCountOk => LifeSteps(s.ps, PushOk, 1);
      case PCountReject => LifeSteps(s.ps, PushActionFailed, 1);
      case PTimeout(_) => LifeSteps(s.ps, PushTimeout, 1);
      case _ =>
    }
  }

  lemma ProducerKeepsAccounts(s: State)
    requires Shape(s) && Ownership(s) && Scanning(s) && Accounts(s) && Enabled(s, PStep)
    ensures Shape(Produce(s)) && Accounts(Produce(s))
  {
    if Counting(s.p) {
      CountingKeepsAccounts(s);
    } else {
      MovingKeepsAccounts(s);
    }
  }

  lemma RingKeepsAccounts(s: State)
    requires Shape(s) && Ownership(s) && Accounts(s) && s.p.PRing?
    ensures Shape(Produce(s)) && Accounts(Produce(s))
  {
    ProducerKeepsShape(s);
    RingHasRoom(s);
    hide Ownership, Stat.Add, Stat.Life, Slot, Offset, TotalBytes;
    TotalBytesSnoc(s.accepted, s.Packet(s.p.x));
  }

  lemma SetSizeKeepsAccounts(s: State)
    requires Shape(s) && Ownership(s) && Accounts(s) && s.p.PSetSize?
    ensures Shape(Produce(s)) && Accounts(Produce(s))
  {
    ProducerKeepsShape(s);
    if s.c.CGot? {
      NotTheProducers(s, s.c.x);
    }
    hide Ownership, Stat.Add, Stat.Life, Slot, Offset, TotalBytes;
  }

  lemma MovingKeepsAccounts(s: State)
    requires Shape(s) && Ownership(s) && Scanning(s) && Accounts(s) && Enabled(s, PStep) && !Counting(s.p)
    ensures Shape(Produce(s)) && Accounts(Produce(s))
  {
    if s.p.PSetSize? {
      SetSizeKeepsAccounts(s);
    } else if s.p.PRing? {
      RingKeepsAccounts(s);
    } else {
      hide Ownership, Stat.Add, Stat.Life, Slot, Offset, TotalBytes;
      ProducerKeepsShape(s);
    }
  }

  /** Is the consumer's next access a counter update? */
  predicate PopCounting(c: Consumer) {
    c.CGot? || c.CCount? || c.CEmpty? || c.CTimeout?
  }

  lemma PopMovingKeepsAccounts(s: State)
    requires Shape(s) && Accounts(s) && Enabled(s, CStep) && !s.c.CTry? && !PopCounting(s.c)
    ensures Shape(Consume(s)) && Accounts(Consume(s))
  {
    hide Stat.Add, Stat.Life, Slot, Offset, TotalBytes;
    ConsumerKeepsShape(s);
  }

  lemma PopCountingKeepsAccounts(s: State)
    requires Shape(s) && Accounts(s) && PopCounting(s.c)
    ensures Shape(Consume(s)) && Accounts(Consume(s))
  {
    hide Stat.Add, Stat.Life, Slot, Offset, TotalBytes;
    ConsumerKeepsShape(s);
    match s.c {
      case CGot(x) => LifeSteps(s.ps, PopPacketSize, s.sizes[x]);
      case CCount(_, ok) => LifeSteps(s.ps, if ok then PopOk else PopActionFailed, 1);
      case CEmpty(_, _) => LifeSteps(s.ps, PopEmpty, 1);
      case CTimeout(_, _) => LifeSteps(s.ps, PopTimeout, 1);
    }
  }

  lemma TryKeepsAccounts(s: State)
    requires Shape(s) && Accounts(s) && s.c.CTry?
    ensures Shape(Consume(s)) && Accounts(Consume(s))
  {
    hide Stat.Add, Stat.Life, Slot, Offset, TotalBytes;
    ConsumerKeepsShape(s);
    if s.ring != [] {
      TotalBytesSnoc(s.handed, s.Packet(s.ring[0]));
    }
  }

  lemma ConsumerKeepsAccounts(s: State)
    requires Shape(s) && Accounts(s) && Enabled(s, CStep)
    ensures Shape(Consume(s)) && Accounts(Consume(s))
  {
    hide Shape, Accounts, Consume;
    if s.c.CTry? {
      TryKeepsAccounts(s);
    } else if PopCounting(s.c) {
      PopCountingKeepsAccounts(s);
    } else {
      PopMovingKeepsAccounts(s);
    }
  }

  lemma KeepsAccounts(s: State, step: Step)
    requires Inv(s) && Enabled(s, step)
    ensures Shape(Apply(s, step)) && Accounts(Apply(s, step))
  {
    hide Stat.Add, Stat.Collected, Stat.Life, Slot, Offset, Produce, Consume;
    KeepsShape(s, step);
    match step
    case PStep => ProducerKeepsAccounts(s);
    case CStep => ConsumerKeepsAccounts(s);
    case CollectNow => LifeSteps(s.ps, PopOk, 0);
    case _ =>
  }

  // ---------------------------------------------------------------- waiting

  lemma ProducerKeepsWaiting(s: State)
    requires Shape(s) && Waiting(s) && Enabled(s, PStep)
    ensures Waiting(Produce(s))
  {
    hide Stat.Add, Stat.Life, Slot, Offset, Attempts, Slept, Nap, Min;
    match s.p {
      case PMissed(_, _) => LifeSteps(s.ps, AllocFailed, 1);
      case PHead(l) =>
        AttemptsExact(s.cfg.blockWait);
        assert Slept(l.tries) >= s.cfg.blockWait <==> l.tries >= Attempts(s.cfg.blockWait);
      case PNap(l) => OneMoreNap(s.cfg.blockWait, l.tries, l.wait);
      case _ =>
    }
  }

  lemma ConsumerKeepsWaiting(s: State)
    requires Shape(s) && Waiting(s) && Enabled(s, CStep)
    ensures Waiting(Consume(s))
  {
    hide Stat.Add, Stat.Life, Slot, Offset, Attempts;
    ConsumerOnlyClears(s);
    match s.c {
      case CGot(x) => LifeSteps(s.ps, PopPacketSize, s.sizes[x]);
      case CCount(_, ok) => LifeSteps(s.ps, if ok then PopOk else PopActionFailed, 1);
      case CEmpty(_, _) => LifeSteps(s.ps, PopEmpty, 1);
      case CTimeout(_, _) => LifeSteps(s.ps, PopTimeout, 1);
      case _ =>
    }
    assert Consume(s).ps.Life().allocFailed == s.ps.Life().allocFailed;
  }

  lemma KeepsWaiting(s: State, step: Step)
    requires Inv(s) && Enabled(s, step)
    ensures Waiting(Apply(s, step))
  {
    hide Stat.Add, Stat.Collected, Stat.Life, Slot, Offset, Produce, Consume, Attempts;
    match step
    case PushCall => AttemptsExact(s.cfg.blockWait);
    case PStep => ProducerKeepsWaiting(s);
    case CStep => ConsumerKeepsWaiting(s);
    case CollectNow => LifeSteps(s.ps, PopOk, 0);
    case _ =>
  }

  lemma ProducerKeepsMissing(s: State)
    requires Shape(s) && Missing(s) && Enabled(s, PStep)
    ensures Missing(Produce(s))
  {
    hide Stat.Add, Stat.Life, Slot, Offset;
  }

  lemma ConsumerKeepsMissing(s: State)
    requires Shape(s) && Contents(s) && Missing(s) && Enabled(s, CStep)
    ensures Missing(Consume(s))
  {
    hide Stat.Add, Stat.Life, Slot, Offset;
  }

  lemma KeepsMissing(s: State, step: Step)
    requires Inv(s) && Enabled(s, step)
    ensures Missing(Apply(s, step))
  {
    hide Stat.Add, Stat.Collected, Stat.Life, Slot, Offset, Produce, Consume;
    match step
    case PStep => ProducerKeepsMissing(s);
    case CStep => ConsumerKeepsMissing(s);
    case _ =>
  }

  /** The invariant is inductive. */
  lemma KeepsInv(s: State, step: Step)
    requires Inv(s) && Enabled(s, step)
    ensures Inv(Apply(s, step))
  {
    hide Apply, Enabled, Shape, Ownership, Scanning, Contents, Accounts, Waiting, Missing;
    assert Shape(s);
    KeepsOwnership(s, step);
    KeepsScanning(s, step);
    KeepsContents(s, step);
    KeepsAccounts(s, step);
    KeepsWaiting(s, step);
    KeepsMissing(s, step);
  }
}
