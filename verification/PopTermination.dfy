/**
 Every pop ends. A pop can be woken without reason, once by a notify whose packet an earlier pop has
 taken, and once by a notify whose packet it then finds; never more often.
 */
module PopTermination {
  import opened PacketLayout
  import opened PacketStatistics
  import opened QueueProtocol
  import opened QueueInvariants
  import opened QueueTheorems
  import opened PushTermination

  /** The steps of a pop that nobody wakes, and those one more wakeup can add. */
  const LOOK: nat := 6
  const WAKE: nat := 4

  /** The most steps a pop can need without spurious wakeups. */
  const POP: nat := 14

  /** The notifies that can still wake the pop in progress. */
  function Credits(s: State): nat {
    if s.c.CTry? || s.c.CWoken? then if s.ring == [] then 1 + One(s.p.PNotify?) else 0
    else if s.c.CEmpty? || s.c.CLock? || s.c.CWait? then 1 + One(s.ring == [] && s.p.PNotify?)
    else 0
  }

  /** The steps left to the pop in progress, if nobody wakes it again. */
  function LookSteps(c: Consumer): nat {
    match c
    case CIdle => 0
    case CTrue => 1
    case CFalse(_, _) => 1
    case CFree(_) => 2
    case CTimeout(_, _) => 2
    case CCount(_, _) => 3
    case CWait(_, _, _) => 3
    case CAct(_) => 4
    case CLock(_, _) => 4
    case CGot(_) => 5
    case CEmpty(_, _) => 5
    case CTry(_) => LOOK
    case CWoken(_) => LOOK + 1
  }

  /** A bound on the steps left to the pop in progress, if it is not woken without reason. */
  function PopStepsLeft(s: State): nat {
    LookSteps(s.c) + WAKE * Credits(s)
  }

  /** The popping thread's own steps after the call; the end of a wait by timeout is one of them. */
  predicate PopOwnStep(step: Step) {
    step.CStep? || step.PopRet? || step.Expire? || step.PopReturn?
  }

  /** Has the pop found a packet, or returned? */
  predicate Found(c: Consumer) {
    c.CGot? || c.CAct? || c.CCount? || c.CFree? || c.CTrue? || c.CIdle?
  }

  /** What the step from `s` to `t` may do to the pop in progress, if it is its own or somebody else's. */
  predicate Advances(s: State, t: State, own: bool) {
    && s.spurious <= t.spurious
    && PopStepsLeft(t) + One(own) <= PopStepsLeft(s) + WAKE * (t.spurious - s.spurious)
    && (Found(s.c) ==> Found(t.c) && PopStepsLeft(t) + One(own) <= PopStepsLeft(s))
  }

  lemma ProducerWakes(s: State)
    requires Shape(s) && Enabled(s, PStep)
    ensures Advances(s, Produce(s), false)
  {
    hide Stat.Add, Stat.Life, Slot, Offset;
  }

  lemma ConsumerAdvances(s: State)
    requires Shape(s) && Enabled(s, CStep)
    ensures Advances(s, Consume(s), true)
  {
    hide Stat.Add, Stat.Life, Slot, Offset;
  }

  lemma PopAdvances(s: State, step: Step)
    requires Shape(s) && Enabled(s, step) && !step.PopCall?
    ensures Advances(s, Apply(s, step), PopOwnStep(step))
  {
    hide Produce, Consume, Stat.Collected, Stat.Life, Slot, Offset;
    match step
    case PStep => ProducerWakes(s);
    case CStep => ConsumerAdvances(s);
    case _ =>
  }

  lemma {:induction false} PopStepsUsed(trace: seq<State>, steps: seq<Step>, i: nat, j: nat)
    requires Run(trace, steps) && i <= j < |trace|
    requires forall k :: i <= k < j ==> !steps[k].PopCall?
    ensures trace[i].spurious <= trace[j].spurious
    ensures PopStepsLeft(trace[j]) + CountSteps(steps[i..j], PopOwnStep)
            <= PopStepsLeft(trace[i]) + WAKE * (trace[j].spurious - trace[i].spurious)
    ensures Found(trace[i].c) ==>
      Found(trace[j].c) && PopStepsLeft(trace[j]) + CountSteps(steps[i..j], PopOwnStep) <= PopStepsLeft(trace[i])
    decreases j
  {
    hide Apply, Enabled, Init, Shape, PopStepsLeft, Found, PopOwnStep;
    if i < j {
      PopStepsUsed(trace, steps, i, j - 1);
      assert Next(trace[j - 1], steps[j - 1], trace[j]);
      PopAdvances(trace[j - 1], steps[j - 1]);
      CountOneMore(steps, PopOwnStep, i, j);
    }
  }

  lemma PopCalled(s: State)
    requires Shape(s) && Enabled(s, PopCall)
    ensures Apply(s, PopCall).spurious == s.spurious && PopStepsLeft(Apply(s, PopCall)) <= POP
  {
  }

  /** Only a pop that has returned has no step left. */
  lemma PopEnded(s: State)
    ensures PopStepsLeft(s) == 0 <==> s.c == CIdle
  {
  }

  /**
   A pop called at `i` has used, by any later moment `j` before the next call, at most fourteen steps of
   its own, and four more for each spurious wakeup since, however much is pushed meanwhile; when it has
   used that many it has returned.
   */
  lemma PopTerminates(trace: seq<State>, steps: seq<Step>, i: nat, j: nat)
    requires Run(trace, steps) && i < j < |trace| && steps[i].PopCall?
    requires forall k :: i < k < j ==> !steps[k].PopCall?
    ensures trace[i].spurious <= trace[j].spurious
    ensures var used := CountSteps(steps[i + 1..j], PopOwnStep);
      var bound := POP + WAKE * (trace[j].spurious - trace[i].spurious);
      used <= bound && (used == bound ==> trace[j].c == CIdle)
  {
    hide Enabled, Init, Shape, Apply, PopStepsLeft, PopOwnStep;
    assert Next(trace[i], steps[i], trace[i + 1]);
    PopCalled(trace[i]);
    PopStepsUsed(trace, steps, i + 1, j);
    PopEnded(trace[j]);
  }

  /** A pop that has found a packet returns within five more steps of its own, whatever anybody does. */
  lemma FoundReturns(trace: seq<State>, steps: seq<Step>, i: nat, j: nat)
    requires Run(trace, steps) && i <= j < |trace| && trace[i].c.CGot?
    requires forall k :: i <= k < j ==> !steps[k].PopCall?
    ensures var used := CountSteps(steps[i..j], PopOwnStep);
      used <= 5 && (used == 5 ==> trace[j].c == CIdle)
  {
    PopStepsUsed(trace, steps, i, j);
    PopEnded(trace[j]);
    hide Run;
  }
}
