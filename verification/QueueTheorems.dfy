/** Consequences of the inductive invariant for every interleaved run of one packet queue. */
module QueueTheorems {
  import opened Common
  import opened PacketLayout
  import opened Backoff
  import opened PacketStatistics
  import opened QueueProtocol
  import opened QueueInvariants

  // ---------------------------------------------------------------- runs

  ghost predicate Next(s: State, step: Step, t: State) {
    Shape(s) && Enabled(s, step) && t == Apply(s, step)
  }

  /** `trace` is what the states look like while `steps` happen, starting from a fresh queue. */
  ghost predicate Run(trace: seq<State>, steps: seq<Step>) {
    && |trace| == |steps| + 1
    && Init(trace[0])
    && forall k :: 0 <= k < |steps| ==> Next(trace[k], steps[k], trace[k + 1])
  }

  /** Every state of every run satisfies the invariant. */
  lemma {:induction false} RunInv(trace: seq<State>, steps: seq<Step>, k: nat)
    requires Run(trace, steps) && k < |trace|
    ensures Inv(trace[k])
  {
    hide Apply, Enabled, Shape, Init, Inv;
    if k == 0 {
      InitInv(trace[0]);
    } else {
      RunInv(trace, steps, k - 1);
      assert Next(trace[k - 1], steps[k - 1], trace[k]);
      KeepsInv(trace[k - 1], steps[k - 1]);
    }
  }

  // ---------------------------------------------------------------- refinement to a bounded FIFO

  /** What a bounded FIFO of byte strings can be seen to do. */
  datatype Event = Accept(item: Bytes) | Hand(item: Bytes) | Silent

  predicate FifoStep(capacity: nat, q: seq<Bytes>, e: Event, q': seq<Bytes>) {
    match e
    case Accept(x) => |q| < capacity && q' == q + [x]
    case Hand(x) => q == [x] + q'
    case Silent => q' == q
  }

  /** The abstract queue: the packets of the ring as they lie in the buffer right now. */
  ghost function Queue(s: State): (q: seq<Bytes>)
    requires Shape(s)
    ensures |q| == |s.ring|
  {
    seq(|s.ring|, k requires 0 <= k < |s.ring| && Shape(s) => s.Packet(s.ring[k]))
  }

  /** What a step of the protocol is in the eyes of the FIFO. */
  ghost function Label(s: State, step: Step): Event
    requires Shape(s) && Enabled(s, step)
  {
    if step.PStep? && s.p.PRing? && |s.ring| < s.cfg.size then Accept(s.Packet(s.p.x))
    else if step.CStep? && s.c.CTry? && s.ring != [] then Hand(s.Packet(s.ring[0]))
    else Silent
  }

  lemma QueueIsAccepted(s: State)
    requires Inv(s)
    ensures Shape(s) && (s.ring != [] ==> Queue(s)[0] == s.Packet(s.ring[0]))
    ensures Queue(s) == s.accepted[|s.handed|..] && s.accepted == s.handed + Queue(s)
  {
  }

  /** How the two histories grow: only with the events of the FIFO. */
  lemma HistoryStep(s: State, step: Step)
    requires Inv(s) && Enabled(s, step)
    ensures var t, e := Apply(s, step), Label(s, step);
      && t.accepted == s.accepted + (if e.Accept? then [e.item] else [])
      && t.handed == s.handed + (if e.Hand? then [e.item] else [])
      && (e.Accept? ==> |s.ring| < s.cfg.size)
      && (e.Hand? ==> s.ring != [] && e.item == s.Packet(s.ring[0]))
  {
    hide Stat.Add, Stat.Collected, Stat.Life, Slot, Offset;
  }

  /** Each step of the protocol is a step of the FIFO, byte for byte. */
  lemma RefinesFifo(s: State, step: Step)
    requires Inv(s) && Enabled(s, step)
    ensures Shape(Apply(s, step))
    ensures FifoStep(s.cfg.size, Queue(s), Label(s, step), Queue(Apply(s, step)))
  {
    hide Apply, Label, Enabled, Inv, Shape, Queue;
    KeepsInv(s, step);
    HistoryStep(s, step);
    QueueIsAccepted(s);
    QueueIsAccepted(Apply(s, step));
  }

  ghost function Labels(trace: seq<State>, steps: seq<Step>): (es: seq<Event>)
    requires Run(trace, steps)
    ensures |es| == |steps|
  {
    seq(|steps|, k requires 0 <= k < |steps| && Run(trace, steps) =>
      assert Next(trace[k], steps[k], trace[k + 1]); Label(trace[k], steps[k]))
  }

  function AcceptedIn(es: seq<Event>): seq<Bytes> {
    if es == [] then []
    else
      var last := es[|es| - 1];
      AcceptedIn(es[..|es| - 1]) + if last.Accept? then [last.item] else []
  }

  function HandedIn(es: seq<Event>): seq<Bytes> {
    if es == [] then []
    else
      var last := es[|es| - 1];
      HandedIn(es[..|es| - 1]) + if last.Hand? then [last.item] else []
  }

  /** A FIFO hands out a prefix of what it accepted; what is left is what it holds. */
  lemma {:induction false} FifoPrefix(capacity: nat, qs: seq<seq<Bytes>>, es: seq<Event>)
    requires |qs| == |es| + 1 && qs[0] == []
    requires forall k :: 0 <= k < |es| ==> FifoStep(capacity, qs[k], es[k], qs[k + 1])
    ensures AcceptedIn(es) == HandedIn(es) + qs[|es|]
    ensures |qs[|es|]| <= capacity
    decreases |es|
  {
    if es != [] {
      var n := |es| - 1;
      FifoPrefix(capacity, qs[..n + 1], es[..n]);
      assert FifoStep(capacity, qs[n], es[n], qs[n + 1]);
    }
  }

  /**
   Byte-level FIFO: in every interleaving, the strings handed to pop actions are a prefix of the
   strings accepted by the ring, and the rest lies in the ring, in order and intact.
   */
  lemma ByteFifo(trace: seq<State>, steps: seq<Step>)
    requires Run(trace, steps)
    ensures Shape(trace[|steps|])
    ensures var es := Labels(trace, steps);
      && HandedIn(es) <= AcceptedIn(es)
      && AcceptedIn(es) == HandedIn(es) + Queue(trace[|steps|])
  {
    hide Apply, Enabled, Init, Label, Shape, Queue;
    forall k | 0 <= k <= |steps|
      ensures Inv(trace[k]) && trace[k].cfg == trace[0].cfg
    {
      RunInv(trace, steps, k);
      SameConfig(trace, steps, k);
    }
    var qs := seq(|trace|, k requires 0 <= k < |trace| && Inv(trace[k]) => Queue(trace[k]));
    var es := Labels(trace, steps);
    forall k | 0 <= k < |es|
      ensures FifoStep(trace[0].cfg.size, qs[k], es[k], qs[k + 1])
    {
      assert Next(trace[k], steps[k], trace[k + 1]);
      RefinesFifo(trace[k], steps[k]);
    }
    FreshQueue(trace[0]);
    FifoPrefix(trace[0].cfg.size, qs, es);
  }

  lemma FreshQueue(s: State)
    requires Init(s)
    ensures Shape(s) && Queue(s) == []
  {
  }

  lemma {:induction false} SameConfig(trace: seq<State>, steps: seq<Step>, k: nat)
    requires Run(trace, steps) && k < |trace|
    ensures trace[k].cfg == trace[0].cfg
  {
    if k > 0 {
      SameConfig(trace, steps, k - 1);
      assert Next(trace[k - 1], steps[k - 1], trace[k]);
      KeepsConfig(trace[k - 1], steps[k - 1]);
    }
  }

  lemma KeepsConfig(s: State, step: Step)
    requires Shape(s) && Enabled(s, step)
    ensures Apply(s, step).cfg == s.cfg
  {
    hide Stat.Add, Stat.Collected, Stat.Life, Slot, Offset;
  }

  /** While a pop action runs, the slot it reads holds exactly the string handed out last. */
  lemma ActionSeesHanded(s: State)
    requires Inv(s) && s.c.CAct?
    ensures Filled(s, s.c.x) && s.handed != []
    ensures s.Packet(s.c.x) == s.handed[|s.handed| - 1] && 0 < |s.Packet(s.c.x)| <= s.cfg.mtu
  {
    assert s.c.x in CSlots(s.c);
  }

  /** From its ring-push to its free, a packet keeps its bytes and its size. */
  lemma {:induction false} PacketsAreStable(trace: seq<State>, steps: seq<Step>, i: nat, j: nat, x: nat)
    requires Run(trace, steps) && i <= j < |trace|
    requires forall k :: i <= k <= j ==> x in CSlots(trace[k].c) + trace[k].ring
    ensures Memory(trace[i]) && Intact(trace[i], trace[j], x)
    decreases j
  {
    hide Apply, Enabled, Init, Label;
    RunInv(trace, steps, i);
    NotTheProducers(trace[i], x);
    if i < j {
      PacketsAreStable(trace, steps, i, j - 1, x);
      RunInv(trace, steps, j - 1);
      assert Next(trace[j - 1], steps[j - 1], trace[j]);
      KeepsPackets(trace[j - 1], steps[j - 1], x);
    }
  }

  // ---------------------------------------------------------------- slots

  ghost function UsedSlots(s: State): set<nat>
    requires Memory(s)
  {
    set i: nat | i < s.cfg.size && s.used[i]
  }

  /** No slot leaks: as many are used as there are owners, and between calls exactly the queued ones. */
  lemma SlotsAccounted(s: State)
    requires Inv(s)
    ensures |UsedSlots(s)| == |s.ring| + |PSlots(s.p)| + |CSlots(s.c)|
    ensures s.p.PIdle? && s.c.CIdle? ==>
      |UsedSlots(s)| == |s.ring| && forall i: nat :: i < s.cfg.size ==> (s.used[i] <==> i in s.ring)
  {
    var owned := Owned(s);
    NoDupCardinality(owned);
    forall x | x in owned
      ensures x < s.cfg.size
    {
      if x in s.ring {
        var k :| 0 <= k < |s.ring| && s.ring[k] == x;
        assert Filled(s, s.ring[k]);
      }
    }
    assert UsedSlots(s) == set x | x in owned;
  }

  /** `q.push` never refuses a packet: the branch that would count `pushFailed` is never entered. */
  lemma PushNeverRefused(trace: seq<State>, steps: seq<Step>, k: nat)
    requires Run(trace, steps) && k < |trace|
    ensures trace[k].ps.Life().pushFailed == 0
    ensures !trace[k].p.PUndo? && !trace[k].p.PCountFailed?
    ensures trace[k].p.PRing? ==> |trace[k].ring| < trace[k].cfg.size
  {
    RunInv(trace, steps, k);
    RingHasRoom(trace[k]);
  }

  // ---------------------------------------------------------------- where a history mark comes from

  /** The last change of a mark: since the step after `i` it has had the value it has at `k`. */
  lemma {:induction false} LastChange<T>(trace: seq<State>, k: nat, mark: State -> Option<T>) returns (i: nat)
    requires k < |trace| && mark(trace[0]).None? && mark(trace[k]).Some?
    ensures i < k && mark(trace[i]) != mark(trace[k])
    ensures forall m :: i < m <= k ==> mark(trace[m]) == mark(trace[k])
  {
    if mark(trace[k - 1]) != mark(trace[k]) {
      i := k - 1;
    } else {
      i := LastChange(trace, k - 1, mark);
    }
  }

  /** The histories only grow. */
  lemma {:induction false} HistoryGrows(trace: seq<State>, steps: seq<Step>, i: nat, j: nat)
    requires Run(trace, steps) && i <= j < |trace|
    ensures trace[i].accepted <= trace[j].accepted && trace[i].handed <= trace[j].handed
    decreases j
  {
    hide Apply, Enabled, Init, Inv, Shape;
    if i < j {
      HistoryGrows(trace, steps, i, j - 1);
      RunInv(trace, steps, j - 1);
      assert Next(trace[j - 1], steps[j - 1], trace[j]);
      HistoryStep(trace[j - 1], steps[j - 1]);
    }
  }

  // ---------------------------------------------------------------- alloc under interference

  /** The flags a scan in progress started from. */
  function ScanStart(p: Producer): Option<seq<bool>> {
    match p
    case PScan(_, _, start) => Some(start)
    case PMark(_, _, start) => Some(start)
    case PMissed(_, start) => Some(start)
    case PGot(_, start) => Some(start)
    case _ => None
  }

  /** The recorded start flags are the flags of the state in which this very scan began. */
  lemma ScanBegan(trace: seq<State>, steps: seq<Step>, k: nat) returns (i: nat)
    requires Run(trace, steps) && k < |trace| && ScanStart(trace[k].p).Some?
    ensures i < k && trace[i].p.PHead? && ScanStart(trace[k].p) == Some(trace[i].used)
    ensures forall m :: i < m <= k ==> ScanStart(trace[m].p) == ScanStart(trace[k].p)
  {
    hide Apply, Enabled, Shape, ScanStart;
    i := LastChange(trace, k, (s: State) => ScanStart(s.p)) by {
      FreshMarks(trace[0]);
    }
    assert Next(trace[i], steps[i], trace[i + 1]);
    ScanSource(trace[i], steps[i]);
  }

  lemma FreshMarks(s: State)
    requires Init(s)
    ensures ScanStart(s.p).None? && LoopMark(s.p).None?
    ensures PopBase(s.c).None? && LookMark(s.c).None? && WaitMark(s.c).None?
  {
  }

  lemma ScanSource(s: State, step: Step)
    requires Shape(s) && Enabled(s, step)
    requires ScanStart(Apply(s, step).p).Some? && ScanStart(Apply(s, step).p) != ScanStart(s.p)
    ensures s.p.PHead? && ScanStart(Apply(s, step).p) == Some(s.used)
  {
    hide Stat.Add, Stat.Collected, Stat.Life, Slot, Offset, Consume;
    if step.CStep? {
      ConsumerOnlyClears(s);
    }
  }

  /**
   `alloc` is linearizable while the consumer frees slots under it. A null result is correct for the
   moment the scan began: every slot was used then. A success is correct for the moment it marks the
   slot: nobody owned it. And no lower slot was free when the scan began.
   */
  lemma AllocLinearizes(trace: seq<State>, steps: seq<Step>, k: nat) returns (i: nat)
    requires Run(trace, steps) && k < |trace|
    requires trace[k].p.PMissed? || trace[k].p.PMark?
    ensures i < k && trace[i].p.PHead? && |trace[i].used| == trace[k].cfg.size == |trace[k].used|
    ensures forall m :: i < m <= k ==> ScanStart(trace[m].p) == Some(trace[i].used)
    ensures trace[k].p.PMissed? ==> forall x :: 0 <= x < |trace[i].used| ==> trace[i].used[x]
    ensures trace[k].p.PMark? ==>
      && trace[k].p.i < |trace[k].used| && !trace[k].used[trace[k].p.i] && trace[k].p.i !in Owned(trace[k])
      && forall x :: 0 <= x < trace[k].p.i ==> trace[i].used[x]
  {
    i := ScanBegan(trace, steps, k);
    RunInv(trace, steps, k);
    RunInv(trace, steps, i);
  }

  // ---------------------------------------------------------------- counters and waiting

  function RingBytes(s: State): nat
    requires Memory(s) && forall k :: 0 <= k < |s.ring| ==> s.ring[k] < s.cfg.size
  {
    SumSizes(s.sizes, s.ring)
  }

  function SumSizes(sizes: seq<nat>, ring: seq<nat>): nat
    requires forall k :: 0 <= k < |ring| ==> ring[k] < |sizes|
  {
    if ring == [] then 0 else SumSizes(sizes, ring[..|ring| - 1]) + sizes[ring[|ring| - 1]]
  }

  lemma {:induction false} RingBytesFrom(s: State, n: nat)
    requires Inv(s) && n <= |s.ring|
    ensures TotalBytes(s.accepted[..|s.handed| + n]) == TotalBytes(s.handed) + SumSizes(s.sizes, s.ring[..n])
  {
    hide Ownership, Scanning, Accounts, Waiting, Missing, Slot, Offset;
    if n > 0 {
      RingBytesFrom(s, n - 1);
      var upTo := s.accepted[..|s.handed| + n];
      assert upTo == s.accepted[..|s.handed| + n - 1] + [s.accepted[|s.handed| + n - 1]];
      TotalBytesSnoc(s.accepted[..|s.handed| + n - 1], s.accepted[|s.handed| + n - 1]);
      assert s.Packet(s.ring[n - 1]) == s.accepted[|s.handed| + n - 1];
      assert s.ring[..n][..n - 1] == s.ring[..n - 1];
    }
  }

  /**
   Counter conservation, whatever `collect` calls are interleaved: allocations are pushes with an
   outcome or one in flight; bytes pushed are bytes popped plus bytes in the ring; packets pushed are
   packets popped plus packets in the ring, each up to the one packet a thread has half counted.
   */
  lemma CounterConservation(trace: seq<State>, steps: seq<Step>, k: nat)
    requires Run(trace, steps) && k < |trace|
    ensures Inv(trace[k])
    ensures var s, life := trace[k], trace[k].ps.Life();
      && life.allocOk == life.pushOk + life.pushFailed + life.pushActionFailed + One(Allocated(s.p))
      && life.pushPacketSize == life.popPacketSize + PoppedBehind(s) + RingBytes(s) + PushedAhead(s)
      && life.pushOk + One(s.p.PNotify? || s.p.PCountOk?)
         == life.popOk + life.popActionFailed + One(s.c.CGot? || s.c.CAct? || s.c.CCount?) + |s.ring|
  {
    hide Apply, Enabled, Init, Label;
    RunInv(trace, steps, k);
    var s := trace[k];
    RingBytesFrom(s, |s.ring|);
    assert s.ring[..|s.ring|] == s.ring;
    assert s.accepted[..|s.accepted|] == s.accepted;
  }

  /** What `allocFailed` was when the push in progress was called. */
  function LoopMark(p: Producer): Option<nat> {
    match p
    case PHead(l) => Some(l.before)
    case PScan(_, l, _) => Some(l.before)
    case PMark(_, l, _) => Some(l.before)
    case PMissed(l, _) => Some(l.before)
    case PNap(l) => Some(l.before)
    case PTimeout(l) => Some(l.before)
    case _ => None
  }

  lemma LoopSource(s: State, step: Step)
    requires Shape(s) && Enabled(s, step)
    requires LoopMark(Apply(s, step).p).Some? && LoopMark(Apply(s, step).p) != LoopMark(s.p)
    ensures step.PushCall? && LoopMark(Apply(s, step).p) == Some(s.ps.Life().allocFailed)
  {
    hide Stat.Add, Stat.Collected, Stat.Life, Slot, Offset, Consume;
    if step.CStep? {
      ConsumerOnlyClears(s);
    }
  }

  /** The call of the push whose back-off loop is running at `k`, which has not left it since. */
  lemma PushBegan(trace: seq<State>, steps: seq<Step>, k: nat) returns (i: nat)
    requires Run(trace, steps) && k < |trace| && LoopMark(trace[k].p).Some?
    ensures i < k && steps[i].PushCall? && LoopMark(trace[k].p) == Some(trace[i].ps.Life().allocFailed)
    ensures forall m :: i < m <= k ==> LoopMark(trace[m].p) == LoopMark(trace[k].p)
  {
    hide Apply, Enabled, Shape, LoopMark, Stat.Life;
    i := LastChange(trace, k, (s: State) => LoopMark(s.p)) by {
      FreshMarks(trace[0]);
    }
    assert Next(trace[i], steps[i], trace[i + 1]);
    LoopSource(trace[i], steps[i]);
  }

  /**
   A push that times out, called at `i`, has made exactly `Attempts(blockWait)` allocation attempts
   since, each counted, and has asked to sleep at least `blockWait` and less than `blockWait + 100`
   milliseconds, even while a consumer frees slots that its scans miss.
   */
  lemma TimedOutPush(trace: seq<State>, steps: seq<Step>, k: nat) returns (i: nat)
    requires Run(trace, steps) && k < |trace| && trace[k].p.PTimeout?
    ensures i < k && steps[i].PushCall?
    ensures forall m :: i < m <= k ==> LoopMark(trace[m].p).Some?
    ensures var tw, wait := trace[k].p.l.tw, trace[k].cfg.blockWait;
      && trace[k].ps.Life().allocFailed == trace[i].ps.Life().allocFailed + Attempts(wait)
      && (wait > 0 ==> wait <= tw < wait + CAP) && (wait == 0 ==> tw == 0)
  {
    i := PushBegan(trace, steps, k);
    RunInv(trace, steps, k);
    AttemptsExact(trace[k].cfg.blockWait);
  }

  /** How much had been handed out when the pop in progress, empty-handed so far, was called. */
  function PopBase(c: Consumer): Option<nat> {
    match c
    case CTry(base) => Some(base)
    case CEmpty(base, _) => Some(base)
    case CLock(base, _) => Some(base)
    case CWait(base, _, _) => Some(base)
    case CWoken(base) => Some(base)
    case CTimeout(base, _) => Some(base)
    case CFalse(base, _) => Some(base)
    case _ => None
  }

  lemma BaseSource(s: State, step: Step)
    requires Shape(s) && Enabled(s, step)
    requires PopBase(Apply(s, step).c).Some? && PopBase(Apply(s, step).c) != PopBase(s.c)
    ensures step.PopCall? && s.c.CIdle? && PopBase(Apply(s, step).c) == Some(|s.handed|)
  {
    hide Stat.Add, Stat.Collected, Stat.Life, Slot, Offset, Produce;
    if step.PStep? {
      ProducerOnlyWakes(s);
    }
  }

  /** The call of the pop in progress at `k`, which has found nothing since. */
  lemma PopBegan(trace: seq<State>, steps: seq<Step>, k: nat) returns (i: nat)
    requires Run(trace, steps) && k < |trace| && PopBase(trace[k].c).Some?
    ensures i < k && trace[i].c.CIdle? && steps[i].PopCall? && PopBase(trace[k].c) == Some(|trace[i].handed|)
    ensures forall m :: i < m <= k ==> PopBase(trace[m].c) == PopBase(trace[k].c)
  {
    hide Apply, Enabled, Shape, PopBase;
    i := LastChange(trace, k, (s: State) => PopBase(s.c)) by {
      FreshMarks(trace[0]);
    }
    assert Next(trace[i], steps[i], trace[i + 1]);
    BaseSource(trace[i], steps[i]);
  }

  /** How much had been accepted when the ring was last found empty. */
  function LookMark(c: Consumer): Option<nat> {
    match c
    case CEmpty(_, seen) => Some(seen)
    case CLock(_, seen) => Some(seen)
    case CWait(_, seen, _) => Some(seen)
    case CTimeout(_, seen) => Some(seen)
    case CFalse(_, seen) => Some(seen)
    case _ => None
  }

  lemma LookSource(s: State, step: Step)
    requires Shape(s) && Enabled(s, step)
    requires LookMark(Apply(s, step).c).Some? && LookMark(Apply(s, step).c) != LookMark(s.c)
    ensures step.CStep? && s.c.CTry? && s.ring == [] && LookMark(Apply(s, step).c) == Some(|s.accepted|)
  {
    hide Stat.Add, Stat.Collected, Stat.Life, Slot, Offset, Produce;
    if step.PStep? {
      ProducerOnlyWakes(s);
    }
  }

  /** The pop's last look at the ring, which was empty then; it has not looked again. */
  lemma LookBegan(trace: seq<State>, steps: seq<Step>, k: nat) returns (i: nat)
    requires Run(trace, steps) && k < |trace| && LookMark(trace[k].c).Some?
    ensures i < k && steps[i].CStep? && trace[i].c.CTry? && trace[i].ring == []
    ensures LookMark(trace[k].c) == Some(|trace[i].accepted|)
    ensures forall m :: i < m <= k ==> LookMark(trace[m].c) == LookMark(trace[k].c)
  {
    hide Apply, Enabled, Shape, LookMark;
    i := LastChange(trace, k, (s: State) => LookMark(s.c)) by {
      FreshMarks(trace[0]);
    }
    assert Next(trace[i], steps[i], trace[i + 1]);
    LookSource(trace[i], steps[i]);
  }

  /** How many notifies had been issued when the wait began. */
  function WaitMark(c: Consumer): Option<nat> {
    if c.CWait? then Some(c.since) else None
  }

  lemma WaitSource(s: State, step: Step)
    requires Shape(s) && Enabled(s, step)
    requires WaitMark(Apply(s, step).c).Some? && WaitMark(Apply(s, step).c) != WaitMark(s.c)
    ensures step.CStep? && s.c.CLock? && WaitMark(Apply(s, step).c) == Some(s.notifies)
  {
    hide Stat.Add, Stat.Collected, Stat.Life, Slot, Offset, Produce;
    if step.PStep? {
      ProducerOnlyWakes(s);
    }
  }

  /** Where the wait in progress began. */
  lemma WaitBegan(trace: seq<State>, steps: seq<Step>, k: nat) returns (i: nat)
    requires Run(trace, steps) && k < |trace| && trace[k].c.CWait?
    ensures i < k && steps[i].CStep? && trace[i].c.CLock? && trace[k].c.since == trace[i].notifies
    ensures forall m :: i < m <= k ==> trace[m].c.CWait?
  {
    hide Apply, Enabled, Shape;
    i := LastChange(trace, k, (s: State) => WaitMark(s.c)) by {
      FreshMarks(trace[0]);
    }
    assert Next(trace[i], steps[i], trace[i + 1]);
    WaitSource(trace[i], steps[i]);
    assert forall m :: i < m <= k ==> WaitMark(trace[m].c) == WaitMark(trace[k].c);
  }

  /** Between its last look and now a pop has taken nothing, so the ring holds just what has come since. */
  lemma SinceLook(trace: seq<State>, steps: seq<Step>, k: nat) returns (look: nat)
    requires Run(trace, steps) && k < |trace| && LookMark(trace[k].c).Some?
    ensures look < k && trace[look].c.CTry? && trace[look].ring == []
    ensures forall m :: look < m <= k ==> LookMark(trace[m].c).Some?
    ensures Shape(trace[k]) && trace[k].accepted == trace[look].accepted + Queue(trace[k])
    ensures trace[k].handed == trace[look].handed == trace[look].accepted
  {
    hide Apply, Enabled, Init, Queue;
    look := LookBegan(trace, steps, k);
    RunInv(trace, steps, look);
    RunInv(trace, steps, k);
    QueueIsAccepted(trace[k]);
    QueueIsAccepted(trace[look]);
    HistoryGrows(trace, steps, look, k);
  }

  /**
   Missed wakeups lose no packet. A pop that returns false, called at `call`, has handed out nothing;
   at `look`, its last look, the ring was empty; and what the ring holds now is exactly what has been
   accepted since that look, first come first.
   */
  lemma FailedPopLosesNothing(trace: seq<State>, steps: seq<Step>, k: nat) returns (call: nat, look: nat)
    requires Run(trace, steps) && k < |trace| && trace[k].c.CFalse?
    ensures call < look < k && steps[call].PopCall? && trace[look].c.CTry? && trace[look].ring == []
    ensures forall m :: call < m <= k ==> PopBase(trace[m].c).Some?
    ensures forall m :: look < m <= k ==> !trace[m].c.CTry?
    ensures trace[k].handed == trace[call].handed == trace[look].handed
    ensures Shape(trace[k]) && trace[k].accepted == trace[look].accepted + Queue(trace[k])
  {
    hide Apply, Enabled, Init, Queue, Shape;
    call := PopBegan(trace, steps, k);
    look := SinceLook(trace, steps, k);
    assert PopBase(trace[k].c) == Some(|trace[k].handed|) by {
      RunInv(trace, steps, k);
    }
    HistoryGrows(trace, steps, call, k);
    assert Next(trace[call], steps[call], trace[call + 1]);
    Called(trace[call]);
    assert LookMark(trace[call + 1].c).None? && LookMark(trace[call].c).None?;
  }

  lemma Called(s: State)
    requires Shape(s) && Enabled(s, PopCall)
    ensures Apply(s, PopCall).c.CTry?
  {
  }

  /**
   Which wakeups can be missed. In front of a consumer that waits at `k` lie exactly the packets whose
   notify was issued between its look at the empty ring and the beginning of its wait, and the one
   whose notify is just about to be issued, less one whose notify was about to be issued at the look.
   No wait outlasts a notify.
   */
  lemma MissedWakeups(trace: seq<State>, steps: seq<Step>, k: nat) returns (look: nat, wait: nat)
    requires Run(trace, steps) && k < |trace| && trace[k].c.CWait?
    ensures look < wait < k && trace[look].c.CTry? && trace[look].ring == [] && trace[wait].c.CLock?
    ensures forall m :: wait < m <= k ==> trace[m].c.CWait?
    ensures trace[k].notifies == trace[wait].notifies
    ensures Shape(trace[k]) && trace[k].accepted == trace[look].accepted + Queue(trace[k])
    ensures |trace[k].ring| == trace[wait].notifies - trace[look].notifies
                               + One(trace[k].p.PNotify?) - One(trace[look].p.PNotify?)
  {
    hide Apply, Enabled, Init, Queue, Shape;
    look := SinceLook(trace, steps, k);
    wait := WaitBegan(trace, steps, k);
    WaitFacts(trace, steps, k);
    WaitFacts(trace, steps, look);
    assert |Queue(trace[k])| == |trace[k].ring|;
  }

  lemma WaitFacts(trace: seq<State>, steps: seq<Step>, k: nat)
    requires Run(trace, steps) && k < |trace|
    ensures |trace[k].accepted| == trace[k].notifies + One(trace[k].p.PNotify?)
    ensures trace[k].c.CWait? ==> trace[k].notifies == trace[k].c.since
  {
    hide Apply, Enabled, Init;
    RunInv(trace, steps, k);
  }

  /** How many notifies have been issued in the first `k` steps. */
  function Notifies(trace: seq<State>, steps: seq<Step>, k: nat): nat
    requires k <= |steps| < |trace|
  {
    if k == 0 then 0 else Notifies(trace, steps, k - 1) + One(steps[k - 1].PStep? && trace[k - 1].p.PNotify?)
  }

  function Spurious(steps: seq<Step>): nat {
    if steps == [] then 0 else Spurious(steps[..|steps| - 1]) + One(steps[|steps| - 1].SpuriousWake?)
  }

  lemma WakeSteps(s: State, step: Step)
    requires Shape(s) && Enabled(s, step)
    ensures var t := Apply(s, step);
      && t.notifies == s.notifies + One(step.PStep? && s.p.PNotify?)
      && t.spurious == s.spurious + One(step.SpuriousWake?)
  {
    hide Stat.Add, Stat.Collected, Stat.Life, Slot, Offset;
  }

  /** The two wake counts of a state are what happened in the run. */
  lemma {:induction false} WakesHappened(trace: seq<State>, steps: seq<Step>, k: nat)
    requires Run(trace, steps) && k < |trace|
    ensures trace[k].notifies == Notifies(trace, steps, k) && trace[k].spurious == Spurious(steps[..k])
  {
    hide Apply, Enabled, Shape;
    if k > 0 {
      WakesHappened(trace, steps, k - 1);
      assert Next(trace[k - 1], steps[k - 1], trace[k]);
      WakeSteps(trace[k - 1], steps[k - 1]);
      assert steps[..k][..k - 1] == steps[..k - 1];
    }
  }

  /** Every look at an empty ring ended in a timeout, used up a notify or was spurious, but for the last. */
  lemma WakeAccounting(trace: seq<State>, steps: seq<Step>, k: nat)
    requires Run(trace, steps) && k < |trace|
    ensures var life := trace[k].ps.Life();
      life.popEmpty <= life.popTimeout + Notifies(trace, steps, k) + Spurious(steps[..k]) + 1
  {
    hide Apply, Enabled, Init;
    RunInv(trace, steps, k);
    WakesHappened(trace, steps, k);
  }
}
