/** Every push ends after a bounded number of its own steps, whatever the consumer does meanwhile. */
module PushTermination {
  import opened PacketLayout
  import opened Backoff
  import opened PacketStatistics
  import opened QueueProtocol
  import opened QueueInvariants
  import opened QueueTheorems

  /** The steps of `n` rounds of the back-off loop: loop test, a full scan, the count and the nap. */
  function Rounds(size: nat, n: int): nat {
    if n <= 0 then 0 else Rounds(size, n - 1) + size + 4
  }

  lemma {:induction false} RoundsClosedForm(size: nat, n: nat)
    ensures Rounds(size, n) == n * (size + 4)
  {
    if n > 0 {
      RoundsClosedForm(size, n - 1);
      assert (n - 1) * (size + 4) + (size + 4) == n * (size + 4);
    }
  }

  /** The steps a push needs once its scan has found a slot, or its patience has ended. */
  const DELIVERY: nat := 10

  /** A bound on the steps left to the push in progress. */
  function StepsLeft(s: State): int {
    var size, most := s.cfg.size, Attempts(s.cfg.blockWait);
    match s.p
    case PIdle => 0
    case PDone(_) => 1
    case PTimeout(_) => 2
    case PCountOk => 2
    case PCountReject => 2
    case PCountFailed => 2
    case PNotify => 3
    case PUndo(_) => 3
    case PReject(_) => 3
    case PRing(_) => 4
    case PSetSize(_, _) => 5
    case PAddSize(_, _) => 6
    case PFill(_) => 7
    case PGot(_, _) => 8
    case PMark(_, _, _) => 9
    case PHead(l) => DELIVERY + Rounds(size, most - l.tries)
    case PScan(i, l, _) => DELIVERY + Rounds(size, most - l.tries) - 1 - i
    case PMissed(l, _) => DELIVERY + Rounds(size, most - l.tries) - 2 - size
    case PNap(l) => DELIVERY + Rounds(size, most - l.tries) + 1
  }

  /** The pushing thread's own steps after the call. */
  predicate OwnStep(step: Step) {
    step.PStep? || step.ActionRet? || step.PushReturn?
  }

  lemma PatienceLeft(s: State, l: Loop)
    requires LoopHead(s, l)
    ensures l.tw < s.cfg.blockWait <==> l.tries < Attempts(s.cfg.blockWait)
  {
    AttemptsExact(s.cfg.blockWait);
  }

  /** The own steps a push can need: a full scan, a count and a nap for each attempt, and the delivery. */
  function Budget(cfg: Config): nat {
    Attempts(cfg.blockWait) * (cfg.size + 4) + DELIVERY
  }

  lemma BudgetRounds(cfg: Config)
    ensures Budget(cfg) == DELIVERY + Rounds(cfg.size, Attempts(cfg.blockWait))
  {
    hide Attempts, Rounds;
    RoundsClosedForm(cfg.size, Attempts(cfg.blockWait));
  }

  lemma StepsLeftBounds(s: State)
    requires Shape(s) && Waiting(s)
    ensures 0 <= StepsLeft(s) <= Budget(s.cfg)
  {
    BudgetRounds(s.cfg);
    hide LoopHead, Attempts, Stat.Life, Budget;
    var size, most := s.cfg.size, Attempts(s.cfg.blockWait);
    match s.p
    case PHead(l) => MoreRounds(size, most - l.tries, most);
    case PScan(_, l, _) =>
      PatienceLeft(s, l);
      MoreRounds(size, most - l.tries, most);
    case PMissed(l, _) =>
      PatienceLeft(s, l);
      MoreRounds(size, most - l.tries, most);
    case PNap(l) =>
      NapsLeft(s);
      MoreRounds(size, most - l.tries + 1, most);
    case _ =>
  }

  lemma NapsLeft(s: State)
    requires Waiting(s) && s.p.PNap?
    ensures 1 <= s.p.l.tries <= Attempts(s.cfg.blockWait)
  {
    var l := s.p.l;
    PatienceLeft(s, l.(tries := l.tries - 1, before := l.before + 1));
  }

  lemma {:induction false} MoreRounds(size: nat, m: int, n: int)
    requires m <= n
    ensures Rounds(size, m) <= Rounds(size, n)
    decreases n - m
  {
    if m < n {
      MoreRounds(size, m, n - 1);
    }
  }

  predicate Looping(p: Producer) {
    p.PHead? || p.PScan? || p.PMark? || p.PMissed? || p.PNap?
  }

  lemma LoopAdvances(s: State)
    requires Shape(s) && Waiting(s) && Looping(s.p)
    ensures StepsLeft(Produce(s)) < StepsLeft(s)
  {
    hide LoopHead, Attempts, Stat.Life, Stat.Add, Slot, Offset;
    match s.p
    case PHead(l) => PatienceLeft(s, l);
    case PScan(_, l, _) => PatienceLeft(s, l);
    case PMissed(l, _) => PatienceLeft(s, l);
    case _ =>
  }

  lemma DeliveryAdvances(s: State)
    requires Shape(s) && Enabled(s, PStep) && !Looping(s.p)
    ensures StepsLeft(Produce(s)) < StepsLeft(s)
  {
    hide Rounds, Attempts, Stat.Life, Stat.Add, Slot, Offset;
  }

  /** Each own step of a push brings its end nearer, and no step of anybody else takes it away. */
  lemma PushAdvances(s: State, step: Step)
    requires Inv(s) && Enabled(s, step) && !step.PushCall?
    ensures StepsLeft(Apply(s, step)) <= StepsLeft(s) - One(OwnStep(step))
  {
    hide Produce, Consume, Attempts, Stat.Life, Stat.Collected, Slot, Offset;
    match step
    case PStep =>
      if Looping(s.p) {
        LoopAdvances(s);
      } else {
        DeliveryAdvances(s);
      }
    case CStep => ConsumerOnlyClears(s);
    case _ =>
  }

  function CountSteps(steps: seq<Step>, own: Step -> bool): nat {
    if steps == [] then 0 else CountSteps(steps[..|steps| - 1], own) + One(own(steps[|steps| - 1]))
  }

  lemma CountOneMore(steps: seq<Step>, own: Step -> bool, i: nat, j: nat)
    requires i < j <= |steps|
    ensures CountSteps(steps[i..j], own) == CountSteps(steps[i..j - 1], own) + One(own(steps[j - 1]))
  {
    assert steps[i..j][..j - 1 - i] == steps[i..j - 1];
  }

  lemma {:induction false} StepsUsed(trace: seq<State>, steps: seq<Step>, i: nat, j: nat)
    requires Run(trace, steps) && i <= j < |trace|
    requires forall k :: i <= k < j ==> !steps[k].PushCall?
    ensures StepsLeft(trace[j]) + CountSteps(steps[i..j], OwnStep) <= StepsLeft(trace[i])
    decreases j
  {
    hide Apply, Enabled, Init, Inv, Shape, StepsLeft;
    if i < j {
      StepsUsed(trace, steps, i, j - 1);
      RunInv(trace, steps, j - 1);
      assert Next(trace[j - 1], steps[j - 1], trace[j]);
      PushAdvances(trace[j - 1], steps[j - 1]);
      CountOneMore(steps, OwnStep, i, j);
    }
  }

  /**
   A push called at `i` has used, by any later moment `j` before the next call, at most
   `Attempts(blockWait) * (size + 4) + 10` steps of its own, however the consumer's steps fall; and
   when it has used that many it has returned.
   */
  lemma PushTerminates(trace: seq<State>, steps: seq<Step>, i: nat, j: nat)
    requires Run(trace, steps) && i < j < |trace| && steps[i].PushCall?
    requires forall k :: i < k < j ==> !steps[k].PushCall?
    ensures var used := CountSteps(steps[i + 1..j], OwnStep);
      used <= Budget(trace[j].cfg) && (used == Budget(trace[j].cfg) ==> trace[j].p == PIdle)
  {
    hide Enabled, Init, Inv, Shape, StepsLeft, Attempts, Budget, Rounds, Waiting, Apply;
    StepsUsed(trace, steps, i + 1, j);
    RunInv(trace, steps, i + 1);
    RunInv(trace, steps, j);
    InvWaits(trace[i + 1]);
    InvWaits(trace[j]);
    assert Next(trace[i], steps[i], trace[i + 1]);
    CallBegins(trace[i]);
    StepsLeftBounds(trace[i + 1]);
    StepsLeftBounds(trace[j]);
    SameConfig(trace, steps, i + 1);
    SameConfig(trace, steps, j);
    Ended(trace[j]);
  }

  lemma CallBegins(s: State)
    requires Shape(s) && Enabled(s, PushCall)
    ensures Apply(s, PushCall).p.PHead?
  {
  }

  lemma InvWaits(s: State)
    requires Inv(s)
    ensures Shape(s) && Waiting(s)
  {
  }

  /** Only a push that has returned has no step left. */
  lemma Ended(s: State)
    requires Shape(s) && Waiting(s)
    ensures StepsLeft(s) <= 0 <==> s.p.PIdle?
  {
    hide LoopHead, Attempts, Stat.Life;
    match s.p
    case PHead(l) =>
    case PScan(_, l, _) => PatienceLeft(s, l);
    case PMissed(l, _) => PatienceLeft(s, l);
    case _ =>
  }
}
