/**
 Whole runs of the gateway: each of its queues runs the queue protocol, starting and stopping means what
 it says, and the receive thread's packets are counted as sent.
 */
module GatewayRuns {
  import opened Common
  import opened PacketStatistics
  import opened QueueProtocol
  import opened QueueInvariants
  import opened QueueTheorems
  import opened QueueEvents
  import opened PushTermination
  import opened PopTermination
  import opened WsPackets
  import opened EchoGateway
  import opened EchoInvariants
  import opened EchoPreservation
  import opened GatewayTheorems

  // ---------------------------------------------------------------- each queue runs its protocol

  datatype Side = To | From

  function QueueOf(g: Gateway, side: Side): State {
    if side == To then g.toTun else g.fromTun
  }

  /** What a step of the gateway makes the first queue do. */
  function ToMoves(g: Gateway, step: GStep): seq<Step>
    requires Ready(g) && GEnabled(g, step)
  {
    match step
    case Arrive(msg) => if |msg| >= 4 && msg[..4] == [0x50, 0x41, 0x4B, 0x54] then [PushCall] else []
    case ServerStep => [PStep]
    case ServerCopy => [Write(g.server.copied, g.received[|g.received| - 1][g.server.copied])]
    case ServerRet => [ActionRet(Min(g.toTun.cfg.mtu, |g.received[|g.received| - 1]|))]
    case ServerReturn => [PushReturn]
    case EchoLoop => if g.running then [PopCall] else []
    case EchoStep => [CStep]
    case EchoWake => [SpuriousWake]
    case EchoExpire => [Expire]
    case EchoActed => [PopRet(if g.fromTun.p == PDone(true) then 1 else -1)]
    case EchoReturn => [PopReturn]
    case CollectTo => [CollectNow]
    case _ => []
  }

  /** And the second. */
  function FromMoves(g: Gateway, step: GStep): seq<Step>
    requires Ready(g) && GEnabled(g, step)
  {
    match step
    case EchoCall => [PushCall]
    case EchoPush => [PStep]
    case EchoCopy => [Write(g.echo.copied, g.toTun.Packet(g.toTun.c.x)[g.echo.copied])]
    case EchoRet => [ActionRet(g.toTun.sizes[g.toTun.c.x])]
    case EchoActed => [PushReturn]
    case RecvCall => [PopCall]
    case RecvStep => [CStep]
    case RecvWake => [SpuriousWake]
    case RecvExpire => [Expire]
    case RecvSend => [PopRet(1)]
    case RecvReturn => [PopReturn]
    case CollectFrom => [CollectNow]
    case _ => []
  }

  function Moves(g: Gateway, step: GStep, side: Side): seq<Step>
    requires Ready(g) && GEnabled(g, step)
  {
    if side == To then ToMoves(g, step) else FromMoves(g, step)
  }

  /** The queue stands still, or makes the one step `moves` names. */
  ghost predicate Follows(s: State, moves: seq<Step>, t: State) {
    |moves| <= 1 && if moves == [] then t == s else Next(s, moves[0], t)
  }

  lemma ServerFollows(g: Gateway, step: GStep)
    requires Ready(g) && GEnabled(g, step) && ByServer(step)
    ensures Follows(g.toTun, ToMoves(g, step), ServerApply(g, step).toTun)
    ensures Follows(g.fromTun, FromMoves(g, step), ServerApply(g, step).fromTun)
  {
    if step.Arrive? {
      HeaderExact(step.msg, PAKT);
    }
    hide Apply, Shape;
  }

  lemma EchoFollowsTo(g: Gateway, step: GStep)
    requires Ready(g) && GEnabled(g, step) && ByEcho(step)
    ensures Follows(g.toTun, ToMoves(g, step), EchoApply(g, step).toTun)
  {
    hide Apply, Shape;
  }

  lemma EchoFollowsFrom(g: Gateway, step: GStep)
    requires Ready(g) && GEnabled(g, step) && ByEcho(step)
    ensures Follows(g.fromTun, FromMoves(g, step), EchoApply(g, step).fromTun)
  {
    hide Apply, Shape;
  }

  lemma RecvFollows(g: Gateway, step: GStep)
    requires Ready(g) && GEnabled(g, step) && !ByServer(step) && !ByEcho(step)
    ensures Follows(g.toTun, ToMoves(g, step), RecvApply(g, step).toTun)
    ensures Follows(g.fromTun, FromMoves(g, step), RecvApply(g, step).fromTun)
  {
    hide Apply, Shape;
  }

  lemma QueueFollows(g: Gateway, step: GStep, side: Side)
    requires Ready(g) && GEnabled(g, step)
    ensures Follows(QueueOf(g, side), Moves(g, step, side), QueueOf(GApply(g, step), side))
  {
    hide ServerApply, EchoApply, RecvApply, Ready, GEnabled, Follows, ToMoves, FromMoves;
    if ByServer(step) {
      ServerFollows(g, step);
    } else if ByEcho(step) {
      EchoFollowsTo(g, step);
      EchoFollowsFrom(g, step);
    } else {
      RecvFollows(g, step);
    }
  }

  /** All that one queue does in the first `k` steps of the gateway. */
  ghost function MovesOf(trace: seq<Gateway>, steps: seq<GStep>, side: Side, k: nat): seq<Step>
    requires GRun(trace, steps) && k < |trace|
  {
    if k == 0 then []
    else
      assert GNext(trace[k - 1], steps[k - 1], trace[k]);
      MovesOf(trace, steps, side, k - 1) + Moves(trace[k - 1], steps[k - 1], side)
  }

  lemma Extended(qtrace: seq<State>, qsteps: seq<Step>, moves: seq<Step>, t: State) returns (longer: seq<State>)
    requires Run(qtrace, qsteps) && Follows(qtrace[|qsteps|], moves, t)
    ensures Run(longer, qsteps + moves) && longer[|qsteps + moves|] == t
  {
    if moves == [] {
      longer := qtrace;
      assert qsteps + moves == qsteps;
    } else {
      longer := qtrace + [t];
      assert forall k :: 0 <= k < |qsteps| ==> Next(qtrace[k], qsteps[k], qtrace[k + 1]);
    }
  }

  /**
   Each queue of a gateway run has itself made a run of the queue protocol, with exactly the steps the
   gateway's threads took on it; so every theorem about such runs is one about the gateway's queues.
   */
  lemma {:induction false} QueuesRun(trace: seq<Gateway>, steps: seq<GStep>, side: Side, k: nat)
      returns (qtrace: seq<State>)
    requires GRun(trace, steps) && k < |trace|
    ensures Run(qtrace, MovesOf(trace, steps, side, k))
    ensures qtrace[|MovesOf(trace, steps, side, k)|] == QueueOf(trace[k], side)
  {
    hide GApply, GEnabled, Ready, Moves, Follows, Run, Init;
    if k == 0 {
      qtrace := [QueueOf(trace[0], side)];
      RunOfNothing(QueueOf(trace[0], side)) by {
        GFresh(trace[0], side);
      }
    } else {
      var before := QueuesRun(trace, steps, side, k - 1);
      assert GNext(trace[k - 1], steps[k - 1], trace[k]);
      QueueFollows(trace[k - 1], steps[k - 1], side);
      RunShape(before, MovesOf(trace, steps, side, k - 1));
      qtrace := Extended(before, MovesOf(trace, steps, side, k - 1), Moves(trace[k - 1], steps[k - 1], side),
                         QueueOf(trace[k], side));
    }
  }

  lemma GFresh(g: Gateway, side: Side)
    requires GInit(g)
    ensures Init(QueueOf(g, side))
  {
  }

  lemma RunOfNothing(s: State)
    requires Init(s)
    ensures Run([s], [])
  {
  }

  lemma RunShape(trace: seq<State>, steps: seq<Step>)
    requires Run(trace, steps)
    ensures |trace| == |steps| + 1
  {
  }

  /** A gateway to start with, for any two fresh queues of the same dimensions. */
  lemma FreshGateway(toTun: State, fromTun: State) returns (g: Gateway)
    requires Init(toTun) && Init(fromTun) && toTun.cfg == fromTun.cfg
    ensures GInit(g) && g.toTun == toTun && g.fromTun == fromTun
  {
    g := Gateway(toTun, fromTun, SIdle, EOff, false, [], [], [], [], [], []);
  }

  // ---------------------------------------------------------------- start and stop

  /** Has the device been started and not stopped since? */
  function Started(steps: seq<GStep>): bool {
    if steps == [] then false
    else
      var last := steps[|steps| - 1];
      last.Start? || (!last.Stop? && Started(steps[..|steps| - 1]))
  }

  lemma LifecycleStep(g: Gateway, step: GStep)
    requires Ready(g) && GEnabled(g, step) && (g.running ==> !g.echo.EOff?)
    ensures var t := GApply(g, step);
      && t.running == (step.Start? || (!step.Stop? && g.running))
      && (t.running ==> !t.echo.EOff?)
  {
    hide Apply, Shape, Enabled;
  }

  /**
   The device runs exactly if it has been started and not stopped since; while it runs the echo thread
   does; and it is started only when it does not run and the echo thread has ended.
   */
  lemma {:induction false} RunningIs(trace: seq<Gateway>, steps: seq<GStep>, k: nat)
    requires GRun(trace, steps) && k < |trace|
    ensures trace[k].running == Started(steps[..k])
    ensures trace[k].running ==> !trace[k].echo.EOff?
    ensures k < |steps| && steps[k].Start? ==> !trace[k].running && trace[k].echo.EOff? && !trace[k + 1].echo.EOff?
  {
    if k < |steps| && steps[k].Start? {
      StartStep(trace, steps, k);
    }
    hide GApply, GEnabled, Ready;
    if k > 0 {
      RunningIs(trace, steps, k - 1);
      assert GNext(trace[k - 1], steps[k - 1], trace[k]);
      LifecycleStep(trace[k - 1], steps[k - 1]);
      assert steps[..k][..k - 1] == steps[..k - 1];
    }
  }

  lemma StartStep(trace: seq<Gateway>, steps: seq<GStep>, k: nat)
    requires GRun(trace, steps) && k < |steps| && steps[k].Start?
    ensures !trace[k].running && trace[k].echo.EOff? && !trace[k + 1].echo.EOff?
  {
    assert GNext(trace[k], steps[k], trace[k + 1]);
    hide Shape;
  }

  /** What a step does while the device does not run. */
  lemma StoppedStep(g: Gateway, step: GStep)
    requires Ready(g) && Control(g) && GEnabled(g, step) && !g.running && !step.Start?
    ensures var t := GApply(g, step);
      && !t.running
      && (step.EchoLoop? ==> t.echo.EOff?)
      && (g.toTun.c.CIdle? ==> t.toTun.c.CIdle?)
  {
    hide Shape, Produce;
    if step.ServerStep? {
      ProducerOnlyWakes(g.toTun) by {
        assert Shape(g.toTun);
      }
    }
  }

  /**
   After a stop, until the next start: the device does not run, the echo thread's next loop test ends it,
   and no pop of `toTun` is begun.
   */
  lemma {:induction false} StopStops(trace: seq<Gateway>, steps: seq<GStep>, i: nat, m: nat, j: nat)
    requires GRun(trace, steps) && i < m <= j < |trace| && steps[i].Stop?
    requires forall k :: i < k < j ==> !steps[k].Start?
    ensures !trace[j].running
    ensures j > i + 1 && steps[j - 1].EchoLoop? ==> trace[j].echo.EOff?
    ensures trace[m].toTun.c.CIdle? ==> trace[j].toTun.c.CIdle?
    decreases j
  {
    hide GApply, GEnabled, Ready, GInit, Control;
    assert GNext(trace[j - 1], steps[j - 1], trace[j]);
    if j == i + 1 {
      RunningIs(trace, steps, j);
    } else {
      StopStops(trace, steps, i, if m < j then m else m - 1, j - 1);
      GRunInv(trace, steps, j - 1);
      StoppedStep(trace[j - 1], steps[j - 1]);
    }
  }

  // ---------------------------------------------------------------- how soon the echo thread ends

  /** The most steps a nested push can take, its copying included. */
  function PushCost(cfg: Config): nat {
    Budget(cfg) + cfg.mtu
  }

  /** Can the pop in progress still come to its action? */
  predicate Unfinished(c: Consumer) {
    c.CTry? || c.CWoken? || c.CEmpty? || c.CLock? || c.CWait? || c.CGot? || c.CAct?
  }

  /** Bytes the nested push has still to copy. */
  function CopiesLeft(g: Gateway): int
    requires Ready(g) && g.echo.EPushing?
  {
    if BeforeFill(g.fromTun.p) || g.fromTun.p.PFill? then g.toTun.sizes[g.toTun.c.x] - g.echo.copied else 0
  }

  /** A bound on the steps left to the echo thread of a stopped device. */
  function EchoStepsLeft(g: Gateway): int
    requires Ready(g)
  {
    match g.echo
    case EOff => 0
    case EHead => 1
    case EPopping => 1 + PopStepsLeft(g.toTun) + if Unfinished(g.toTun.c) then PushCost(g.fromTun.cfg) + 1 else 0
    case EPushing(_) => 1 + PopStepsLeft(g.toTun) + StepsLeft(g.fromTun) + CopiesLeft(g)
  }

  /** What a step may do to the echo thread's remaining work. */
  ghost predicate Nearer(g: Gateway, step: GStep, t: Gateway)
    requires Ready(g) && Ready(t)
  {
    && g.toTun.spurious <= t.toTun.spurious && t.fromTun.cfg == g.fromTun.cfg
    && EchoStepsLeft(t) + One(EchoOwnStep(step)) <= EchoStepsLeft(g) + WAKE * (t.toTun.spurious - g.toTun.spurious)
  }

  /** The pushing thread's moves, and everybody's. */
  predicate ByPusher(move: Step) {
    move.PushCall? || move.PStep? || move.Write? || move.ActionRet? || move.PushReturn? || move.CollectNow?
  }

  /** They bring a pop in progress no further from its end. */
  lemma PusherMove(s: State, move: Step)
    requires Inv(s) && Enabled(s, move) && ByPusher(move)
    ensures Shape(s) && Shape(Apply(s, move))
    ensures var t := Apply(s, move);
      && PopStepsLeft(t) <= PopStepsLeft(s) && t.spurious == s.spurious && t.cfg == s.cfg
      && (Unfinished(t.c) <==> Unfinished(s.c))
      && (s.c.CAct? ==> t.c == s.c && t.sizes[s.c.x] == s.sizes[s.c.x])
  {
    InvParts(s);
    KeepsShape(s, move);
    PopAdvances(s, move);
    KeepsConfig(s, move);
    if s.c.CAct? {
      assert s.c.x in CSlots(s.c) + s.ring;
      KeepsPackets(s, move, s.c.x);
    }
    hide Inv, Shape, Ownership, Scanning, Produce, PopStepsLeft, Intact;
    if move.PStep? {
      ProducerOnlyWakes(s);
    }
    assert s.c.CAct? ==> Intact(s, Apply(s, move), s.c.x);
    IntactSize(s, Apply(s, move));
  }

  lemma IntactSize(s: State, t: State)
    requires Memory(s)
    ensures s.c.CAct? && Intact(s, t, s.c.x) ==> Memory(t) && t.cfg == s.cfg && t.sizes[s.c.x] == s.sizes[s.c.x]
  {
  }

  /** The popping thread's moves, and everybody's. */
  predicate ByPopper(move: Step) {
    move.PopCall? || move.CStep? || move.PopRet? || move.SpuriousWake? || move.Expire? || move.PopReturn?
    || move.CollectNow?
  }

  /** They leave a push in progress where it is. */
  lemma PopperMove(s: State, move: Step)
    requires Shape(s) && Enabled(s, move) && ByPopper(move)
    ensures var t := Apply(s, move); t.p == s.p && t.cfg == s.cfg && StepsLeft(t) == StepsLeft(s)
  {
    hide Consume, Stat.Life, Stat.Collected, Rounds;
    if move.CStep? {
      ConsumerOnlyClears(s);
    }
  }

  predicate ByPushers(moves: seq<Step>) {
    |moves| <= 1 && (moves == [] || ByPusher(moves[0]))
  }

  predicate ByPoppers(moves: seq<Step>) {
    |moves| <= 1 && (moves == [] || ByPopper(moves[0]))
  }

  lemma OthersMoves(g: Gateway, step: GStep)
    requires Ready(g) && GEnabled(g, step) && !ByEcho(step)
    ensures ByPushers(ToMoves(g, step)) && ByPoppers(FromMoves(g, step))
  {
    hide Shape;
  }

  lemma PusherFollows(s: State, moves: seq<Step>, t: State)
    requires Inv(s) && ByPushers(moves) && Follows(s, moves, t)
    ensures Shape(s) && Shape(t)
    ensures PopStepsLeft(t) <= PopStepsLeft(s) && t.spurious == s.spurious && t.cfg == s.cfg
    ensures Unfinished(t.c) <==> Unfinished(s.c)
    ensures s.c.CAct? ==> t.c == s.c && t.sizes[s.c.x] == s.sizes[s.c.x]
  {
    InvParts(s);
    hide Inv, Shape, Ownership, Scanning, PopStepsLeft, Apply, Enabled;
    if moves != [] {
      PusherMove(s, moves[0]);
    }
  }

  lemma PopperFollows(s: State, moves: seq<Step>, t: State)
    requires Inv(s) && ByPoppers(moves) && Follows(s, moves, t)
    ensures t.p == s.p && t.cfg == s.cfg && StepsLeft(t) == StepsLeft(s)
  {
    InvParts(s);
    hide Inv, Shape, Ownership, Scanning, StepsLeft, Apply, Enabled;
    if moves != [] {
      PopperMove(s, moves[0]);
    }
  }

  lemma SameWork(g: Gateway, t: Gateway)
    requires Ready(g) && Ready(t) && t.echo == g.echo
    requires PopStepsLeft(t.toTun) <= PopStepsLeft(g.toTun) && (Unfinished(t.toTun.c) <==> Unfinished(g.toTun.c))
    requires g.toTun.c.CAct? ==> t.toTun.c == g.toTun.c && t.toTun.sizes[g.toTun.c.x] == g.toTun.sizes[g.toTun.c.x]
    requires StepsLeft(t.fromTun) == StepsLeft(g.fromTun) && t.fromTun.p == g.fromTun.p
    requires t.fromTun.cfg == g.fromTun.cfg
    ensures EchoStepsLeft(t) <= EchoStepsLeft(g)
  {
    hide PopStepsLeft, StepsLeft, Unfinished, PushCost;
  }

  lemma OthersKeepWork(g: Gateway, t: Gateway, toMoves: seq<Step>, fromMoves: seq<Step>)
    requires Ready(g) && Ready(t) && t.echo == g.echo && Inv(g.toTun) && Inv(g.fromTun)
    requires ByPushers(toMoves) && Follows(g.toTun, toMoves, t.toTun)
    requires ByPoppers(fromMoves) && Follows(g.fromTun, fromMoves, t.fromTun)
    ensures EchoStepsLeft(t) <= EchoStepsLeft(g)
    ensures t.toTun.spurious == g.toTun.spurious && t.fromTun.cfg == g.fromTun.cfg
  {
    hide Inv, Follows, PopStepsLeft, StepsLeft, EchoStepsLeft, Unfinished, ByPushers, ByPoppers;
    PusherFollows(g.toTun, toMoves, t.toTun);
    PopperFollows(g.fromTun, fromMoves, t.fromTun);
    SameWork(g, t);
  }

  /** Both queues of the gateway at once. */
  lemma BothFollow(g: Gateway, step: GStep)
    requires Ready(g) && GEnabled(g, step)
    ensures Follows(g.toTun, ToMoves(g, step), GApply(g, step).toTun)
    ensures Follows(g.fromTun, FromMoves(g, step), GApply(g, step).fromTun)
  {
    hide GApply, GEnabled, Ready, ToMoves, FromMoves, Follows;
    QueueFollows(g, step, To);
    QueueFollows(g, step, From);
  }

  lemma NotEchosOwn(step: GStep)
    requires !ByEcho(step)
    ensures One(EchoOwnStep(step)) == 0
  {
  }

  lemma OthersNearer(g: Gateway, step: GStep)
    requires GInv(g) && GEnabled(g, step) && !ByEcho(step) && !step.Start?
    ensures Ready(GApply(g, step)) && Nearer(g, step, GApply(g, step))
  {
    GInvQueues(g);
    hide GInv, GApply, GEnabled, Inv, Ready, Follows, ToMoves, FromMoves, EchoStepsLeft, ByPushers, ByPoppers;
    hide ByEcho, EchoOwnStep, One;
    GKeeps(g, step);
    GInvQueues(GApply(g, step));
    OthersMoves(g, step);
    BothFollow(g, step);
    SameEcho(g, step);
    NotEchosOwn(step);
    OthersKeepWork(g, GApply(g, step), ToMoves(g, step), FromMoves(g, step));
  }

  lemma SameEcho(g: Gateway, step: GStep)
    requires Ready(g) && GEnabled(g, step) && !ByEcho(step) && !step.Start?
    ensures GApply(g, step).echo == g.echo
  {
    hide Shape, Apply;
  }

  /** The echo thread's moves inside its pop. */
  lemma PopOnwards(s: State, move: Step)
    requires Shape(s) && Enabled(s, move)
    requires move.CStep? || move.SpuriousWake? || move.Expire? || move.PopReturn?
    ensures var t := Apply(s, move);
      && t.cfg == s.cfg && s.spurious <= t.spurious
      && PopStepsLeft(t) + One(!move.SpuriousWake?) <= PopStepsLeft(s) + WAKE * (t.spurious - s.spurious)
      && (Unfinished(t.c) ==> Unfinished(s.c))
      && (move.PopReturn? ==> PopStepsLeft(s) == 1 && !Unfinished(s.c) && t.spurious == s.spurious)
  {
    PopAdvances(s, move);
    KeepsConfig(s, move);
    hide Stat.Add, Stat.Life, Stat.Collected;
  }

  lemma PoppingNearer(g: Gateway, step: GStep)
    requires Ready(g) && GEnabled(g, step) && Ready(EchoApply(g, step))
    requires step.EchoStep? || step.EchoWake? || step.EchoExpire? || step.EchoReturn?
    ensures Nearer(g, step, EchoApply(g, step))
  {
    var move := if step.EchoStep? then CStep else if step.EchoWake? then SpuriousWake
                else if step.EchoExpire? then Expire else PopReturn;
    assert Shape(g.toTun);
    PopOnwards(g.toTun, move);
    hide Shape, Apply, PopStepsLeft, StepsLeft, PushCost, Unfinished;
  }

  lemma CalledPush(s: State)
    requires Inv(s) && Enabled(s, PushCall)
    ensures Shape(s)
    ensures var t := Apply(s, PushCall); t.cfg == s.cfg && StepsLeft(t) <= Budget(s.cfg) && BeforeFill(t.p)
  {
    KeepsInv(s, PushCall);
    InvWaits(Apply(s, PushCall));
    StepsLeftBounds(Apply(s, PushCall));
    hide Inv, Shape, StepsLeft, Budget, Waiting, Stat.Life;
    InvWaits(s);
  }

  /** The nested push begins: its cost was set aside. */
  lemma CallNearer(g: Gateway)
    requires Ready(g) && Inv(g.fromTun) && GEnabled(g, EchoCall) && Ready(EchoApply(g, EchoCall))
    ensures Nearer(g, EchoCall, EchoApply(g, EchoCall))
  {
    CalledPush(g.fromTun);
    assert PopStepsLeft(g.toTun) == 4 && g.toTun.sizes[g.toTun.c.x] <= g.toTun.cfg.mtu;
    hide Inv, Shape, StepsLeft, Budget, Apply, PopStepsLeft, BeforeFill;
  }

  /** What the echo thread has copied is part of what it copies. */
  lemma CopiesBounded(g: Gateway)
    requires GInv(g) && g.echo.EPushing?
    ensures Ready(g) && CopiesLeft(g) >= 0 && PopStepsLeft(g.toTun) == 4
    ensures BeforeFill(g.fromTun.p) ==> g.echo.copied == 0
  {
    HandFull(g);
    hide Inv, Flow, Tally;
  }

  lemma PushingNearer(g: Gateway, step: GStep)
    requires GInv(g) && GEnabled(g, step) && Ready(EchoApply(g, step))
    requires step.EchoPush? || step.EchoCopy? || step.EchoRet?
    ensures Nearer(g, step, EchoApply(g, step))
  {
    CopiesBounded(g);
    GInvQueues(g);
    hide GInv, Inv, Ready, Nearer, EchoApply, GEnabled, CopiesLeft;
    match step
    case EchoPush => PushStepNearer(g);
    case EchoCopy => CopyNearer(g);
    case EchoRet => RetNearer(g);
  }

  lemma PushStepNearer(g: Gateway)
    requires Ready(g) && Inv(g.fromTun) && GEnabled(g, EchoPush) && Ready(EchoApply(g, EchoPush)) && CopiesLeft(g) >= 0
    ensures Nearer(g, EchoPush, EchoApply(g, EchoPush))
  {
    PushAdvances(g.fromTun, PStep);
    KeepsConfig(g.fromTun, PStep);
    assert Shape(g.fromTun);
    FillsOnce(g.fromTun, PStep);
    hide Inv, Shape, StepsLeft, Apply, BeforeFill, PopStepsLeft;
  }

  lemma CopyNearer(g: Gateway)
    requires Ready(g) && Inv(g.fromTun) && GEnabled(g, EchoCopy) && Ready(EchoApply(g, EchoCopy)) && CopiesLeft(g) >= 0
    ensures Nearer(g, EchoCopy, EchoApply(g, EchoCopy))
  {
    var move := Write(g.echo.copied, g.toTun.Packet(g.toTun.c.x)[g.echo.copied]);
    PushAdvances(g.fromTun, move);
    KeepsConfig(g.fromTun, move);
    assert Shape(g.fromTun);
    FillsOnce(g.fromTun, move);
    hide Inv, Shape, StepsLeft, Apply, BeforeFill, PopStepsLeft;
  }

  lemma RetNearer(g: Gateway)
    requires Ready(g) && Inv(g.fromTun) && GEnabled(g, EchoRet) && Ready(EchoApply(g, EchoRet)) && CopiesLeft(g) >= 0
    ensures Nearer(g, EchoRet, EchoApply(g, EchoRet))
  {
    var move := ActionRet(g.toTun.sizes[g.toTun.c.x]);
    PushAdvances(g.fromTun, move);
    KeepsConfig(g.fromTun, move);
    assert Shape(g.fromTun);
    FillsOnce(g.fromTun, move);
    hide Inv, Shape, StepsLeft, Apply, BeforeFill, PopStepsLeft;
  }

  /** A push that has left its action does not come back to it. */
  lemma FillsOnce(s: State, move: Step)
    requires Shape(s) && Enabled(s, move) && (move.PStep? || move.Write? || move.ActionRet?)
    ensures var t := Apply(s, move);
      && (BeforeFill(t.p) || t.p.PFill? ==> BeforeFill(s.p) || s.p.PFill?)
      && (move.ActionRet? ==> !BeforeFill(t.p) && !t.p.PFill?)
      && (move.Write? ==> t.p == s.p)
  {
    hide Stat.Add, Stat.Life;
  }

  lemma ActedNearer(g: Gateway)
    requires Ready(g) && GEnabled(g, EchoActed) && Ready(EchoApply(g, EchoActed))
    ensures Nearer(g, EchoActed, EchoApply(g, EchoActed))
  {
    assert PopStepsLeft(g.toTun) == 4 && StepsLeft(g.fromTun) == 1;
    hide Shape, Rounds, Stat.Life, PushCost;
  }

  lemma LoopNearer(g: Gateway)
    requires Ready(g) && GEnabled(g, EchoLoop) && !g.running && Ready(EchoApply(g, EchoLoop))
    ensures Nearer(g, EchoLoop, EchoApply(g, EchoLoop))
  {
    hide Shape;
  }

  lemma EchoGApply(g: Gateway, step: GStep)
    requires Ready(g) && GEnabled(g, step) && ByEcho(step)
    ensures GApply(g, step) == EchoApply(g, step)
  {
    hide EchoApply, ServerApply, RecvApply, Ready, GEnabled;
  }

  lemma EchoKinds(step: GStep)
    requires ByEcho(step)
    ensures step.EchoLoop? || step.EchoCall? || step.EchoActed? || step.EchoPush? || step.EchoCopy? || step.EchoRet?
            || step.EchoStep? || step.EchoWake? || step.EchoExpire? || step.EchoReturn?
  {
  }

  lemma EchoNearer(g: Gateway, step: GStep)
    requires GInv(g) && GEnabled(g, step) && ByEcho(step) && !g.running
    ensures Ready(GApply(g, step)) && Nearer(g, step, GApply(g, step))
  {
    GKeeps(g, step);
    GInvQueues(g);
    GInvQueues(GApply(g, step));
    EchoGApply(g, step);
    hide GInv, GApply, EchoApply, GEnabled, Inv, Ready, Nearer, ByEcho;
    EchoKinds(step);
    match step
    case EchoLoop => LoopNearer(g);
    case EchoCall => CallNearer(g);
    case EchoActed => ActedNearer(g);
    case EchoPush => PushingNearer(g, step);
    case EchoCopy => PushingNearer(g, step);
    case EchoRet => PushingNearer(g, step);
    case _ => PoppingNearer(g, step);
  }

  function EchoSteps(steps: seq<GStep>): nat {
    if steps == [] then 0 else EchoSteps(steps[..|steps| - 1]) + One(EchoOwnStep(steps[|steps| - 1]))
  }

  lemma {:induction false} EchoStepsUsed(trace: seq<Gateway>, steps: seq<GStep>, i: nat, j: nat)
    requires GRun(trace, steps) && i < j < |trace| && steps[i].Stop?
    requires forall k :: i < k < j ==> !steps[k].Start?
    ensures Ready(trace[i + 1]) && Ready(trace[j])
    ensures trace[i + 1].toTun.spurious <= trace[j].toTun.spurious && trace[j].fromTun.cfg == trace[i + 1].fromTun.cfg
    ensures EchoStepsLeft(trace[j]) + EchoSteps(steps[i + 1..j])
            <= EchoStepsLeft(trace[i + 1]) + WAKE * (trace[j].toTun.spurious - trace[i + 1].toTun.spurious)
    decreases j
  {
    hide GApply, GEnabled, Ready, GInit, GInv, EchoStepsLeft, EchoOwnStep, ByEcho;
    GRunInv(trace, steps, j);
    GInvQueues(trace[j]);
    if j > i + 1 {
      EchoStepsUsed(trace, steps, i, j - 1);
      assert GNext(trace[j - 1], steps[j - 1], trace[j]);
      GRunInv(trace, steps, j - 1);
      StopStops(trace, steps, i, i + 1, j - 1);
      if ByEcho(steps[j - 1]) {
        EchoNearer(trace[j - 1], steps[j - 1]);
      } else {
        OthersNearer(trace[j - 1], steps[j - 1]);
      }
      assert steps[i + 1..j][..j - i - 2] == steps[i + 1..j - 1];
    }
  }

  /** No more than this is ever left, and nothing only to a thread that has ended. */
  lemma EchoStepsBounds(g: Gateway)
    requires GInv(g)
    ensures Ready(g) && 0 <= EchoStepsLeft(g) <= PushCost(g.fromTun.cfg) + 17
    ensures EchoStepsLeft(g) == 0 <==> g.echo.EOff?
  {
    GInvQueues(g);
    InvWaits(g.fromTun);
    StepsLeftBounds(g.fromTun);
    if g.echo.EPushing? {
      HandFull(g) by {
        assert g.toTun.c.CAct?;
      }
      CopiesBounded(g);
    }
    hide GInv, Inv, Shape, Waiting, StepsLeft, Budget;
  }

  /**
   A device that has been stopped at `i`, and not started again, comes to rest: by `j` the echo thread
   has taken no more steps of its own than one pop, one nested push and the copying of one packet can
   need, and four more for each spurious wakeup; and when it has taken that many it has ended. Neither the
   message handler nor the receive thread can prolong it.
   */
  lemma StopEnds(trace: seq<Gateway>, steps: seq<GStep>, i: nat, j: nat)
    requires GRun(trace, steps) && i < j < |trace| && steps[i].Stop?
    requires forall k :: i < k < j ==> !steps[k].Start?
    ensures trace[i + 1].toTun.spurious <= trace[j].toTun.spurious
    ensures var used := EchoSteps(steps[i + 1..j]);
      var bound := PushCost(trace[j].fromTun.cfg) + 17 + WAKE * (trace[j].toTun.spurious - trace[i + 1].toTun.spurious);
      used <= bound && (used == bound ==> trace[j].echo.EOff?)
  {
    hide GApply, GEnabled, Ready, GInit, GInv, EchoStepsLeft, PushCost;
    EchoStepsUsed(trace, steps, i, j);
    GRunInv(trace, steps, i + 1);
    GRunInv(trace, steps, j);
    EchoStepsBounds(trace[i + 1]);
    EchoStepsBounds(trace[j]);
  }

  // ---------------------------------------------------------------- what the two ends have counted

  lemma {:induction false} NoneDisapproved(trace: seq<Gateway>, steps: seq<GStep>, k: nat)
    requires GRun(trace, steps) && k < |trace|
    ensures forall m :: 0 <= m < |MovesOf(trace, steps, From, k)| && MovesOf(trace, steps, From, k)[m].PopRet? ==>
      MovesOf(trace, steps, From, k)[m].result == 1
  {
    hide GApply, GEnabled, Ready;
    if k > 0 {
      NoneDisapproved(trace, steps, k - 1);
      assert GNext(trace[k - 1], steps[k - 1], trace[k]);
      MovesApprove(trace[k - 1], steps[k - 1]);
    }
  }

  lemma MovesApprove(g: Gateway, step: GStep)
    requires Ready(g) && GEnabled(g, step)
    ensures var moves := Moves(g, step, From); forall m :: 0 <= m < |moves| && moves[m].PopRet? ==> moves[m].result == 1
  {
    hide Shape;
  }

  lemma {:induction false} NoTimes(trace: seq<State>, steps: seq<Step>, k: nat)
    requires k <= |steps| < |trace|
    requires forall m :: 0 <= m < |steps| && steps[m].PopRet? ==> steps[m].result >= 0
    ensures Times(trace, steps, k, Disapproved) == 0
  {
    if k > 0 {
      NoTimes(trace, steps, k - 1);
    }
  }

  /**
   Every packet the receive thread has sent is counted as a successful pop of `fromTun`, and none as a
   failed one, in every state of every run; up to the one just sent.
   */
  lemma SentIsCounted(trace: seq<Gateway>, steps: seq<GStep>, k: nat)
    requires GRun(trace, steps) && k < |trace|
    ensures var s := trace[k].fromTun;
      && s.ps.Life().popActionFailed == 0
      && s.ps.Life().popOk + One(s.c.CCount?) == |trace[k].out|
  {
    hide GRun, Run, Times, Stat.Life, GInv;
    var moves := MovesOf(trace, steps, From, k);
    var qtrace := QueuesRun(trace, steps, From, k);
    RunShape(qtrace, moves);
    NoneDisapproved(trace, steps, k);
    NoTimes(qtrace, moves, |moves|);
    CountersAreOutcomes(qtrace, moves, |moves|);
    GRunInv(trace, steps, k);
    SentSum(trace[k]);
  }

  lemma SentSum(g: Gateway)
    requires GInv(g)
    ensures var s := g.fromTun;
      |g.out| == s.ps.Life().popOk + s.ps.Life().popActionFailed + One(s.c.CCount?)
  {
    hide Copies, Stage1, Stage2, Ownership, Scanning, Contents, Waiting, Missing, Stat.Life, Shape;
  }

  /** Pushes of the message handler, returned from or going on, against the messages it was given. */
  ghost predicate Answered(g: Gateway)
  {
    BookOf(g.toTun).pushed + BookOf(g.toTun).notPushed + One(g.server.SPushing?) == |g.received|
  }

  lemma BookFollows(s: State, moves: seq<Step>, t: State)
    requires Inv(s) && Follows(s, moves, t)
    ensures var a, b := BookOf(s), BookOf(t);
      b.pushed + b.notPushed == a.pushed + a.notPushed + One(moves != [] && moves[0].PushReturn?)
  {
    if moves != [] {
      assert Scanning(s);
      StepBooked(s, moves[0]);
      hide Inv, Shape, BookOf, Apply;
    }
  }

  lemma AnswersFollow(g: Gateway, step: GStep)
    requires Ready(g) && GEnabled(g, step)
    ensures var t, moves := GApply(g, step), ToMoves(g, step);
      |t.received| - One(t.server.SPushing?)
      == |g.received| - One(g.server.SPushing?) + One(moves != [] && moves[0].PushReturn?)
  {
    hide Shape, Apply;
    if step.Arrive? {
      HeaderExact(step.msg, PAKT);
    }
  }

  lemma AnsweredStep(g: Gateway, step: GStep)
    requires GInv(g) && GEnabled(g, step) && Answered(g)
    ensures Answered(GApply(g, step))
  {
    GInvQueues(g);
    hide GInv, GApply, GEnabled, Inv, Ready, ToMoves, FromMoves, Follows, BookOf;
    BothFollow(g, step);
    BookFollows(g.toTun, ToMoves(g, step), GApply(g, step).toTun);
    AnswersFollow(g, step);
  }

  lemma {:induction false} AlwaysAnswered(trace: seq<Gateway>, steps: seq<GStep>, k: nat)
    requires GRun(trace, steps) && k < |trace|
    ensures Answered(trace[k])
  {
    hide GApply, GEnabled, Ready, GInv, Answered, GInit;
    if k > 0 {
      AlwaysAnswered(trace, steps, k - 1);
      assert GNext(trace[k - 1], steps[k - 1], trace[k]);
      GRunInv(trace, steps, k - 1);
      AnsweredStep(trace[k - 1], steps[k - 1]);
    } else {
      FreshAnswered(trace[0]);
    }
  }

  lemma FreshAnswered(g: Gateway)
    requires GInit(g)
    ensures Answered(g)
  {
    hide BookOf, Init;
    FreshBook(g.toTun);
  }

  /**
   Every PAKT message that has come in is counted once by `toTun`: as queued, as empty or as timed out;
   up to the one whose push is still undecided.
   */
  lemma MessagesAreCounted(trace: seq<Gateway>, steps: seq<GStep>, k: nat)
    requires GRun(trace, steps) && k < |trace|
    ensures var g, life := trace[k], trace[k].toTun.ps.Life();
      && life.pushFailed == 0
      && life.pushOk + life.pushActionFailed + life.pushTimeout + One(g.server.SPushing? && !g.toTun.p.PDone?)
         == |Payloads(steps[..k])|
  {
    hide GRun, Stat.Life, GInv;
    ReceivedAre(trace, steps, k);
    AlwaysAnswered(trace, steps, k);
    GRunInv(trace, steps, k);
    HandlerAndPush(trace[k]);
  }

  lemma HandlerAndPush(g: Gateway)
    requires GInv(g)
    ensures g.toTun.p.PDone? ==> g.server.SPushing?
    ensures g.toTun.ps.Life().pushFailed == 0
  {
    hide Copies, Flow, Ownership, Scanning, Contents, Waiting, Missing, Stat.Life, Shape;
  }
}
