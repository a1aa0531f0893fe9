/**
 What the statistics of a run say about the run: each counter against the steps it is meant to count,
 and each window against the steps between two collects.
 */
module QueueEvents {
  import opened Common
  import opened PacketLayout
  import opened PacketStatistics
  import opened QueueProtocol
  import opened QueueInvariants
  import opened QueueTheorems

  // ---------------------------------------------------------------- every run there should be

  /** A fresh queue of any dimensions, with any bytes in its buffer. */
  lemma FreshState(cfg: Config, buf: Bytes) returns (s: State)
    requires |buf| == Offset(cfg.mtu, cfg.size)
    ensures Init(s) && s.cfg == cfg && s.buf == buf
  {
    s := State(cfg, seq(cfg.size, _ => false), seq(cfg.size, _ => 0), buf, [], PIdle, CIdle, FRESH, [], [], 0, 0, 0);
  }

  /**
   No thread ever has to wait for another inside a call, an action may do what it likes within its slot,
   a wait may end in any way, and anybody may collect at any time.
   */
  lemma NothingIsBlocked(s: State)
    ensures s.p.PIdle? ==> Enabled(s, PushCall)
    ensures s.p.PFill? ==> forall ret :: ret <= s.cfg.mtu ==> Enabled(s, ActionRet(ret))
    ensures s.p.PFill? ==> forall off: nat, b: byte :: off < s.cfg.mtu ==> Enabled(s, Write(off, b))
    ensures s.p.PDone? ==> Enabled(s, PushReturn)
    ensures !s.p.PIdle? && !s.p.PFill? && !s.p.PDone? ==> Enabled(s, PStep)
    ensures s.c.CIdle? ==> Enabled(s, PopCall)
    ensures s.c.CAct? ==> forall result :: Enabled(s, PopRet(result))
    ensures s.c.CWait? ==> Enabled(s, Expire) && Enabled(s, SpuriousWake)
    ensures s.c.CTrue? || s.c.CFalse? ==> Enabled(s, PopReturn)
    ensures !s.c.CIdle? && !s.c.CAct? && !s.c.CWait? && !s.c.CTrue? && !s.c.CFalse? ==> Enabled(s, CStep)
    ensures Enabled(s, CollectNow)
  {
  }

  // ---------------------------------------------------------------- the statistics as a record of the run

  /** What a step is meant to count. */
  function Happens(s: State, step: Step): seq<PacketStatistics.Event>
    requires Shape(s)
  {
    match step
    case CollectNow => [Collect]
    case PStep => PushHappens(s.p)
    case CStep => PopHappens(s)
    case _ => []
  }

  function PushHappens(p: Producer): seq<PacketStatistics.Event> {
    match p
    case PMissed(_, _) => [Count(AllocFailed, 1)]
    case PGot(_, _) => [Count(AllocOk, 1)]
    case PAddSize(_, ret) => [Count(PushPacketSize, ret)]
    case PCountOk => [Count(PushOk, 1)]
    case PCountFailed => [Count(PushFailed, 1)]
    case PCountReject => [Count(PushActionFailed, 1)]
    case PTimeout(_) => [Count(PushTimeout, 1)]
    case _ => []
  }

  function PopHappens(s: State): seq<PacketStatistics.Event>
    requires Shape(s)
  {
    match s.c
    case CGot(x) => [Count(PopPacketSize, |s.Packet(x)|)]
    case CCount(_, ok) => [Count(if ok then PopOk else PopActionFailed, 1)]
    case CEmpty(_, _) => [Count(PopEmpty, 1)]
    case CTimeout(_, _) => [Count(PopTimeout, 1)]
    case _ => []
  }

  /** The effect of at most one event on the statistics. */
  function Counted(ps: Stat, es: seq<PacketStatistics.Event>): Stat {
    if es == [] then ps
    else
      match es[0]
      case Count(c, n) => ps.Add(c, n)
      case Collect => ps.Collected()
  }

  lemma PushCounts(s: State)
    requires Shape(s) && Enabled(s, PStep)
    ensures Produce(s).ps == Counted(s.ps, PushHappens(s.p))
  {
    hide Stat.Add, Slot, Offset;
  }

  lemma PopCounts(s: State)
    requires Shape(s) && Enabled(s, CStep)
    ensures Consume(s).ps == Counted(s.ps, PopHappens(s))
  {
    hide Stat.Add, Slot, Offset;
  }

  lemma StepCounts(s: State, step: Step)
    requires Shape(s) && Enabled(s, step)
    ensures |Happens(s, step)| <= 1
    ensures Apply(s, step).ps == Counted(s.ps, Happens(s, step))
  {
    hide Produce, Consume, Stat.Add, Stat.Collected, Slot, Offset, Shape;
    match step
    case PStep => PushCounts(s);
    case CStep => PopCounts(s);
    case _ =>
  }

  /** The events of the steps from `i` to `k`. */
  ghost function EventsIn(trace: seq<State>, steps: seq<Step>, i: nat, k: nat): seq<PacketStatistics.Event>
    requires Run(trace, steps) && i <= k < |trace|
  {
    if i == k then []
    else
      assert Next(trace[k - 1], steps[k - 1], trace[k]);
      EventsIn(trace, steps, i, k - 1) + Happens(trace[k - 1], steps[k - 1])
  }

  lemma AfterMore(es: seq<PacketStatistics.Event>, more: seq<PacketStatistics.Event>)
    requires |more| <= 1
    ensures After(es + more) == Counted(After(es), more)
  {
    if more == [] {
      assert es + more == es;
    } else {
      assert (es + more)[..|es|] == es;
    }
  }

  /** The statistics are what the events of the run make of a fresh object. */
  lemma {:induction false} StatisticsOfRun(trace: seq<State>, steps: seq<Step>, k: nat)
    requires Run(trace, steps) && k < |trace|
    ensures trace[k].ps == After(EventsIn(trace, steps, 0, k))
  {
    hide Apply, Enabled, Shape, Happens, Counted;
    if k > 0 {
      StatisticsOfRun(trace, steps, k - 1);
      assert Next(trace[k - 1], steps[k - 1], trace[k]);
      StepCounts(trace[k - 1], steps[k - 1]);
      AfterMore(EventsIn(trace, steps, 0, k - 1), Happens(trace[k - 1], steps[k - 1]));
    }
  }

  /** The windows that were open when the run's collects came, oldest first. */
  function WindowsClosed(trace: seq<State>, steps: seq<Step>, k: nat): seq<Data>
    requires k <= |steps| < |trace|
  {
    if k == 0 then []
    else WindowsClosed(trace, steps, k - 1) + if steps[k - 1].CollectNow? then [trace[k - 1].ps.current] else []
  }

  lemma CollectHappens(s: State, step: Step)
    requires Shape(s)
    ensures step.CollectNow? <==> Happens(s, step) == [Collect]
    ensures !step.CollectNow? ==> forall e :: e in Happens(s, step) ==> e.Count?
  {
  }

  lemma WindowsMore(es: seq<PacketStatistics.Event>, more: seq<PacketStatistics.Event>)
    requires |more| <= 1
    ensures Windows(es + more) == Windows(es) + if more == [Collect] then [After(es).current] else []
  {
    if more == [] {
      assert es + more == es;
    } else {
      assert (es + more)[..|es|] == es;
    }
  }

  lemma {:induction false} WindowsAreClosed(trace: seq<State>, steps: seq<Step>, k: nat)
    requires Run(trace, steps) && k < |trace|
    ensures Windows(EventsIn(trace, steps, 0, k)) == WindowsClosed(trace, steps, k)
  {
    hide Apply, Enabled, Shape, Happens, After;
    if k > 0 {
      WindowsAreClosed(trace, steps, k - 1);
      assert Next(trace[k - 1], steps[k - 1], trace[k]);
      StatisticsOfRun(trace, steps, k - 1);
      StepCounts(trace[k - 1], steps[k - 1]);
      CollectHappens(trace[k - 1], steps[k - 1]);
      WindowsMore(EventsIn(trace, steps, 0, k - 1), Happens(trace[k - 1], steps[k - 1]));
    }
  }

  /**
   Collecting under any interleaving. The running total of every counter is the sum of the windows the
   run's collects have closed, total and open window together are what has happened since the beginning,
   and the open window is what has happened since the last collect.
   */
  lemma CollectedRun(trace: seq<State>, steps: seq<Step>, k: nat, c: Counter)
    requires Run(trace, steps) && k < |trace|
    ensures trace[k].ps.total.Get(c) == SumOf(WindowsClosed(trace, steps, k), c)
    ensures trace[k].ps.total.Get(c) + trace[k].ps.current.Get(c) == Happened(EventsIn(trace, steps, 0, k), c)
  {
    hide Apply, Enabled, Shape, Happens, After, Data.Get;
    StatisticsOfRun(trace, steps, k);
    WindowsAreClosed(trace, steps, k);
    WindowedConservation(EventsIn(trace, steps, 0, k), c);
  }

  lemma {:induction false} EventsSplit(trace: seq<State>, steps: seq<Step>, i: nat, k: nat)
    requires Run(trace, steps) && i < k < |trace| && steps[i].CollectNow?
    requires forall m :: i < m < k ==> !steps[m].CollectNow?
    ensures EventsIn(trace, steps, 0, k) == EventsIn(trace, steps, 0, i) + [Collect] + EventsIn(trace, steps, i + 1, k)
    ensures forall e :: e in EventsIn(trace, steps, i + 1, k) ==> e.Count?
    decreases k
  {
    hide Apply, Enabled, Shape, Happens;
    assert Next(trace[k - 1], steps[k - 1], trace[k]);
    CollectHappens(trace[k - 1], steps[k - 1]);
    if k == i + 1 {
      assert EventsIn(trace, steps, i + 1, k) == [];
      assert EventsIn(trace, steps, 0, i) + [Collect] + [] == EventsIn(trace, steps, 0, i) + [Collect];
    } else {
      EventsSplit(trace, steps, i, k - 1);
      var more := Happens(trace[k - 1], steps[k - 1]);
      Reassociated(EventsIn(trace, steps, 0, i) + [Collect], EventsIn(trace, steps, i + 1, k - 1), more);
    }
  }

  lemma Reassociated<T>(a: seq<T>, b: seq<T>, c: seq<T>)
    ensures a + b + c == a + (b + c)
  {
  }

  lemma WindowSinceCollect(trace: seq<State>, steps: seq<Step>, i: nat, k: nat, c: Counter)
    requires Run(trace, steps) && i < k < |trace| && steps[i].CollectNow?
    requires forall m :: i < m < k ==> !steps[m].CollectNow?
    ensures trace[k].ps.current.Get(c) == Happened(EventsIn(trace, steps, i + 1, k), c)
  {
    hide Apply, Enabled, Shape, Happens, After, Data.Get;
    StatisticsOfRun(trace, steps, k);
    EventsSplit(trace, steps, i, k);
    WindowIsRecent(EventsIn(trace, steps, 0, i), EventsIn(trace, steps, i + 1, k), c);
  }

  // ---------------------------------------------------------------- counters and what the callers see

  /** How many of the first `k` steps are such a step in such a state. */
  ghost function Times(trace: seq<State>, steps: seq<Step>, k: nat, what: (State, Step) -> bool): nat
    requires k <= |steps| < |trace|
  {
    if k == 0 then 0 else Times(trace, steps, k - 1, what) + One(what(trace[k - 1], steps[k - 1]))
  }

  /** What the counters and the threads' positions say has happened at the interface of the queue. */
  datatype Book = Book(
    pushed: int, notPushed: int, refusedByAction: int,
    approved: int, disapproved: int, popped: int, notPopped: int, foundEmpty: int, expired: int)

  function BookOf(s: State): Book {
    var life := s.ps.Life();
    Book(
      life.pushOk - One(s.p == PDone(true)),
      life.pushActionFailed + life.pushFailed + life.pushTimeout - One(s.p == PDone(false)),
      life.pushActionFailed + One(s.p.PReject? || s.p.PCountReject?),
      life.popOk + One(s.c.CCount? && s.c.ok),
      life.popActionFailed + One(s.c.CCount? && !s.c.ok),
      life.popOk + life.popActionFailed - One(s.c.CFree? || s.c.CTrue?),
      life.popTimeout - One(s.c.CFalse?),
      life.popEmpty + One(s.c.CEmpty?),
      life.popTimeout + One(s.c.CTimeout?))
  }

  predicate Pushed(s: State, step: Step) { step.PushReturn? && s.p == PDone(true) }
  predicate NotPushed(s: State, step: Step) { step.PushReturn? && s.p == PDone(false) }
  predicate RefusedByAction(s: State, step: Step) { step.ActionRet? && step.ret <= 0 }
  predicate Approved(s: State, step: Step) { step.PopRet? && step.result >= 0 }
  predicate Disapproved(s: State, step: Step) { step.PopRet? && step.result < 0 }
  predicate Popped(s: State, step: Step) { step.PopReturn? && s.c.CTrue? }
  predicate NotPopped(s: State, step: Step) { step.PopReturn? && s.c.CFalse? }
  predicate FoundEmpty(s: State, step: Step) { step.CStep? && s.c.CTry? && s.ring == [] }

  predicate Expired(s: State, step: Step) { step.Expire? }

  predicate Booked(a: Book, b: Book, s: State, step: Step) {
    && b.pushed == a.pushed + One(Pushed(s, step))
    && b.notPushed == a.notPushed + One(NotPushed(s, step))
    && b.refusedByAction == a.refusedByAction + One(RefusedByAction(s, step))
    && b.approved == a.approved + One(Approved(s, step))
    && b.disapproved == a.disapproved + One(Disapproved(s, step))
    && b.popped == a.popped + One(Popped(s, step))
    && b.notPopped == a.notPopped + One(NotPopped(s, step))
    && b.foundEmpty == a.foundEmpty + One(FoundEmpty(s, step))
    && b.expired == a.expired + One(Expired(s, step))
  }

  /** Where a counting producer goes. */
  function PastCount(p: Producer): Producer
    requires Counting(p) && !p.PCountFailed?
  {
    match p
    case PMissed(l, _) => PNap(l.(tries := l.tries + 1))
    case PGot(x, _) => PFill(x)
    case PAddSize(x, ret) => PSetSize(x, ret)
    case PCountOk => PDone(true)
    case PCountReject => PDone(false)
    case PTimeout(_) => PDone(false)
  }

  lemma PushCountLife(s: State)
    requires Shape(s) && Scanning(s) && Counting(s.p)
    ensures PushHappens(s.p) != [] && PushHappens(s.p)[0].Count? && !s.p.PCountFailed?
    ensures var t, e := Produce(s), PushHappens(s.p)[0];
      t.ps.Life() == s.ps.Life().Add(e.c, e.n) && t.c == s.c && t.p == PastCount(s.p)
  {
    var e := PushHappens(s.p)[0];
    LifeSteps(s.ps, e.c, e.n);
    hide Stat.Add, Stat.Life, Slot, Offset;
  }

  lemma PushCountBooked(s: State)
    requires Shape(s) && Scanning(s) && Counting(s.p)
    ensures BookOf(Produce(s)) == BookOf(s)
  {
    hide Produce, Shape, Scanning, Stat.Life;
    PushCountLife(s);
  }

  lemma PushMoveBooked(s: State)
    requires Shape(s) && Enabled(s, PStep) && !Counting(s.p)
    ensures BookOf(Produce(s)) == BookOf(s)
  {
    hide Stat.Add, Stat.Life, Slot, Offset;
  }

  lemma PushBooked(s: State)
    requires Shape(s) && Scanning(s) && Enabled(s, PStep)
    ensures Booked(BookOf(s), BookOf(Produce(s)), s, PStep)
  {
    hide Shape, Scanning, Produce, BookOf;
    if Counting(s.p) {
      PushCountBooked(s);
    } else {
      PushMoveBooked(s);
    }
  }

  lemma PopCountLife(s: State)
    requires Shape(s) && PopCounting(s.c)
    ensures PopHappens(s) != [] && PopHappens(s)[0].Count?
    ensures var t, e := Consume(s), PopHappens(s)[0];
      && t.ps.Life() == s.ps.Life().Add(e.c, e.n) && t.p == s.p
      && (s.c.CGot? <==> t.c.CAct?) && (s.c.CCount? <==> t.c.CFree?)
      && (s.c.CEmpty? <==> t.c.CLock?) && (s.c.CTimeout? <==> t.c.CFalse?)
  {
    var e := PopHappens(s)[0];
    LifeSteps(s.ps, e.c, e.n);
    hide Stat.Add, Stat.Life, Slot, Offset;
  }

  lemma PopCountBooked(s: State)
    requires Shape(s) && PopCounting(s.c)
    ensures BookOf(Consume(s)) == BookOf(s)
  {
    hide Consume, Shape, Stat.Life, State.Packet;
    PopCountLife(s);
  }

  lemma PopMoveBooked(s: State)
    requires Shape(s) && Enabled(s, CStep) && !PopCounting(s.c)
    ensures Booked(BookOf(s), BookOf(Consume(s)), s, CStep)
  {
    hide Stat.Add, Stat.Life, Slot, Offset;
  }

  lemma PopBooked(s: State)
    requires Shape(s) && Enabled(s, CStep)
    ensures Booked(BookOf(s), BookOf(Consume(s)), s, CStep)
  {
    hide Shape, Consume, BookOf;
    if PopCounting(s.c) {
      PopCountBooked(s);
    } else {
      PopMoveBooked(s);
    }
  }

  lemma CallBooked(s: State, step: Step)
    requires Shape(s) && Enabled(s, step) && !step.PStep? && !step.CStep? && !step.CollectNow?
    ensures Booked(BookOf(s), BookOf(Apply(s, step)), s, step)
  {
    hide Produce, Consume, Stat.Life, Slot, Offset, Shape;
  }

  lemma CollectBooked(s: State)
    requires Shape(s)
    ensures Booked(BookOf(s), BookOf(Apply(s, CollectNow)), s, CollectNow)
  {
    LifeSteps(s.ps, PopOk, 0);
    hide Stat.Add, Stat.Collected, Stat.Life, Shape;
  }

  lemma StepBooked(s: State, step: Step)
    requires Shape(s) && Scanning(s) && Enabled(s, step)
    ensures Booked(BookOf(s), BookOf(Apply(s, step)), s, step)
  {
    hide Shape, Scanning, BookOf, Booked;
    match step
    case PStep => PushBooked(s);
    case CStep => PopBooked(s);
    case CollectNow => CollectBooked(s);
    case _ => CallBooked(s, step);
  }

  /** The same record, read off the steps of the run. */
  ghost function Seen(trace: seq<State>, steps: seq<Step>, k: nat): Book
    requires k <= |steps| < |trace|
  {
    Book(
      Times(trace, steps, k, Pushed), Times(trace, steps, k, NotPushed), Times(trace, steps, k, RefusedByAction),
      Times(trace, steps, k, Approved), Times(trace, steps, k, Disapproved),
      Times(trace, steps, k, Popped), Times(trace, steps, k, NotPopped), Times(trace, steps, k, FoundEmpty),
      Times(trace, steps, k, Expired))
  }

  lemma SeenMore(trace: seq<State>, steps: seq<Step>, k: nat)
    requires 0 < k <= |steps| < |trace|
    ensures Booked(Seen(trace, steps, k - 1), Seen(trace, steps, k), trace[k - 1], steps[k - 1])
  {
    hide Pushed, NotPushed, RefusedByAction, Approved, Disapproved, Popped, NotPopped, FoundEmpty, Expired;
  }

  lemma BookedOnce(a: Book, b: Book, c: Book, s: State, step: Step)
    requires Booked(a, b, s, step) && Booked(a, c, s, step)
    ensures b == c
  {
    hide Pushed, NotPushed, RefusedByAction, Approved, Disapproved, Popped, NotPopped, FoundEmpty, Expired;
  }

  lemma {:induction false} BookIsSeen(trace: seq<State>, steps: seq<Step>, k: nat)
    requires Run(trace, steps) && k < |trace|
    ensures BookOf(trace[k]) == Seen(trace, steps, k)
  {
    hide Apply, Enabled, Shape, Scanning, BookOf, Booked;
    if k == 0 {
      FreshBook(trace[0]);
    } else {
      hide Seen;
      BookIsSeen(trace, steps, k - 1);
      assert Next(trace[k - 1], steps[k - 1], trace[k]);
      InvScans(trace, steps, k - 1);
      StepBooked(trace[k - 1], steps[k - 1]);
      SeenMore(trace, steps, k);
      BookedOnce(BookOf(trace[k - 1]), BookOf(trace[k]), Seen(trace, steps, k), trace[k - 1], steps[k - 1]);
    }
  }

  /**
   The counters are what callers and actions have seen: pushes that returned true and false, actions
   that gave nothing, pop actions that reported success and failure, pops that returned true and false
   (the latter exactly those whose wait has timed out), and looks at an empty ring; each up to the one
   call that is about to count or about to return.
   */
  lemma CountersAreOutcomes(trace: seq<State>, steps: seq<Step>, k: nat)
    requires Run(trace, steps) && k < |trace|
    ensures var s, life := trace[k], trace[k].ps.Life();
      && life.pushOk == Times(trace, steps, k, Pushed) + One(s.p == PDone(true))
      && life.pushActionFailed + life.pushFailed + life.pushTimeout
         == Times(trace, steps, k, NotPushed) + One(s.p == PDone(false))
      && life.pushActionFailed + One(s.p.PReject? || s.p.PCountReject?) == Times(trace, steps, k, RefusedByAction)
      && life.popOk + One(s.c.CCount? && s.c.ok) == Times(trace, steps, k, Approved)
      && life.popActionFailed + One(s.c.CCount? && !s.c.ok) == Times(trace, steps, k, Disapproved)
      && life.popOk + life.popActionFailed == Times(trace, steps, k, Popped) + One(s.c.CFree? || s.c.CTrue?)
      && life.popTimeout == Times(trace, steps, k, NotPopped) + One(s.c.CFalse?)
      && life.popTimeout + One(s.c.CTimeout?) == Times(trace, steps, k, Expired)
      && life.popEmpty + One(s.c.CEmpty?) == Times(trace, steps, k, FoundEmpty)
  {
    hide Run, Times, Stat.Life;
    BookIsSeen(trace, steps, k);
  }

  lemma FreshBook(s: State)
    requires Init(s)
    ensures BookOf(s) == Book(0, 0, 0, 0, 0, 0, 0, 0, 0)
  {
    FreshLife();
    hide Stat.Life;
  }

  lemma InvScans(trace: seq<State>, steps: seq<Step>, k: nat)
    requires Run(trace, steps) && k < |trace|
    ensures Shape(trace[k]) && Scanning(trace[k])
  {
    hide Apply, Enabled, Init;
    RunInv(trace, steps, k);
  }
}
