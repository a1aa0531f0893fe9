/** The inductive invariant of the echo gateway. */
module EchoPreservation {
  import opened Common
  import opened PacketLayout
  import opened PacketStatistics
  import opened QueueProtocol
  import opened QueueInvariants
  import opened WsPackets
  import opened EchoGateway
  import opened EchoInvariants

  /** The packet the echo thread holds is the one it took last. */
  function LastTaken(g: Gateway): Bytes {
    if g.toTun.handed == [] then [] else g.toTun.handed[|g.toTun.handed| - 1]
  }

  /** Which thread is where. */
  ghost predicate Control(g: Gateway) {
    && (g.server.SIdle? <==> g.toTun.p.PIdle?)
    && match g.echo {
         case EOff => g.toTun.c.CIdle? && g.fromTun.p.PIdle?
         case EHead => g.toTun.c.CIdle? && g.fromTun.p.PIdle?
         case EPopping => !g.toTun.c.CIdle? && g.fromTun.p.PIdle?
         case EPushing(_) => g.toTun.c.CAct? && !g.fromTun.p.PIdle?
       }
  }

  /** Both copies in progress put the right bytes into their slots. */
  ghost predicate Copies(g: Gateway)
    requires Ready(g)
  {
    && (g.server.SPushing? ==> Copying(g.toTun, g.server.copied, Incoming(g)))
    && (g.echo.EPushing? ==> Copying(g.fromTun, g.echo.copied, LastTaken(g)))
  }

  ghost predicate Flow(g: Gateway) {
    && Stage1(g.toTun.cfg.mtu, g.received, g.toTun.accepted, g.carried1, g.lost1, Open1(g))
    && Stage2(g.toTun.cfg.mtu, g.received, g.carried1, |g.toTun.handed|,
              g.fromTun.accepted, g.carried2, g.lost2, Open2(g))
    && Sent(g.out, g.fromTun.handed, Open3(g))
  }

  /** The counters of the two queues against each other and against the lost payloads. */
  ghost predicate Tally(g: Gateway) {
    var into, onto := g.toTun.ps.Life(), g.fromTun.ps.Life();
    && into.pushTimeout == |g.lost1|
    && onto.pushTimeout == |g.lost2|
    && onto.pushActionFailed == 0
    && into.popOk + One(g.fromTun.p == PDone(true) || (g.toTun.c.CCount? && g.toTun.c.ok)) == onto.pushOk
    && into.popActionFailed + One(g.fromTun.p == PDone(false) || (g.toTun.c.CCount? && !g.toTun.c.ok))
       == onto.pushTimeout
  }

  ghost predicate GInv(g: Gateway) {
    && Ready(g)
    && Inv(g.toTun) && Inv(g.fromTun)
    && Control(g) && Copies(g) && Flow(g) && Tally(g)
  }

  lemma GInitInv(g: Gateway)
    requires GInit(g)
    ensures GInv(g)
  {
    hide Stat.Life, Data.Plus, Inv;
    FreshLife();
    InitInv(g.toTun);
    InitInv(g.fromTun);
    assert Ready(g);
  }

  /** What the pop action sees, and that it is not empty. */
  lemma HandFull(g: Gateway)
    requires Inv(g.toTun) && (g.toTun.c.CAct? || g.toTun.c.CGot?)
    ensures g.toTun.handed != [] && Filled(g.toTun, g.toTun.c.x)
    ensures g.toTun.Packet(g.toTun.c.x) == LastTaken(g) && |LastTaken(g)| == g.toTun.sizes[g.toTun.c.x]
    ensures 0 < |LastTaken(g)| <= g.toTun.cfg.mtu
  {
    assert g.toTun.c.x in CSlots(g.toTun.c);
  }

  /** The parts of a queue's invariant the gateway's own proof uses. */
  lemma InvParts(s: State)
    requires Inv(s)
    ensures Shape(s) && Ownership(s) && Scanning(s) && |s.handed| <= |s.accepted|
  {
  }

  // ---------------------------------------------------------------- the message handler

  lemma ServerStepFlow(g: Gateway)
    requires Ready(g) && Inv(g.toTun) && Control(g) && Copies(g) && Flow(g) && GEnabled(g, ServerStep)
    ensures Flow(ServerApply(g, ServerStep))
  {
    hide Produce, Stage1, Stage2, Sent;
    ProduceEffect(g.toTun);
    var mtu := g.toTun.cfg.mtu;
    var t := ServerApply(g, ServerStep);
    if Accepts(g.toTun) {
      assert g.toTun.Packet(g.toTun.p.x) == Incoming(g) != [];
      Accepted1(mtu, g.received, g.toTun.accepted, g.carried1, g.lost1);
    } else if g.toTun.p.PTimeout? {
      Lost1(mtu, g.received, g.toTun.accepted, g.carried1, g.lost1);
    }
    Upstream(mtu, g.received, g.carried1, |g.toTun.handed|,
             g.fromTun.accepted, g.carried2, g.lost2, Open2(g), g.received, t.carried1);
  }

  lemma ServerStepTally(g: Gateway)
    requires Ready(g) && Inv(g.toTun) && Control(g) && Tally(g) && GEnabled(g, ServerStep)
    ensures Tally(ServerApply(g, ServerStep))
  {
    hide Produce, Stat.Life;
    ProduceEffect(g.toTun);
    ProduceCounts(g.toTun);
  }

  lemma ServerStepCopies(g: Gateway)
    requires Ready(g) && Inv(g.toTun) && Control(g) && Copies(g) && GEnabled(g, ServerStep)
    ensures var t := ServerApply(g, ServerStep);
      t.fromTun == g.fromTun && Inv(t.toTun) && Ready(t) && Control(t) && Copies(t)
  {
    hide Produce, Inv, Copying, Shape;
    assert Shape(g.toTun) && Ownership(g.toTun) && Scanning(g.toTun) by {
      InvParts(g.toTun);
    }
    KeepsInv(g.toTun, PStep);
    InvParts(Apply(g.toTun, PStep));
    ProduceKeepsCopying(g.toTun, g.server.copied, Incoming(g));
    ProduceEffect(g.toTun);
  }

  lemma ServerStepKeeps(g: Gateway)
    requires GInv(g) && GEnabled(g, ServerStep)
    ensures GInv(ServerApply(g, ServerStep))
  {
    hide ServerApply, GEnabled, Inv, Ready, Control, Copies, Flow, Tally;
    ServerStepFlow(g);
    ServerStepTally(g);
    ServerStepCopies(g);
  }

  lemma StartStopKeeps(g: Gateway, step: GStep)
    requires GInv(g) && GEnabled(g, step) && (step.Start? || step.Stop?)
    ensures GInv(ServerApply(g, step))
  {
    hide Inv, Shape, Copying, Stage1, Stage2, Sent, Stat.Life;
  }

  lemma ArriveKeeps(g: Gateway, msg: Bytes)
    requires GInv(g) && GEnabled(g, Arrive(msg))
    ensures GInv(ServerApply(g, Arrive(msg)))
  {
    hide Inv, Shape, Stage1, Stage2, Sent, Stat.Life, Header;
    if IsPakt(msg) {
      InvParts(g.toTun);
      KeepsInv(g.toTun, PushCall);
      InvParts(Apply(g.toTun, PushCall));
      HeaderExact(msg, PAKT);
      var payload := msg[HEADER_LEN..];
      Arrived(g.toTun.cfg.mtu, g.received, g.toTun.accepted, g.carried1, g.lost1, payload);
      Upstream(g.toTun.cfg.mtu, g.received, g.carried1, |g.toTun.handed|,
               g.fromTun.accepted, g.carried2, g.lost2, Open2(g),
               g.received + [payload], g.carried1);
    }
  }

  lemma ServerCopyKeeps(g: Gateway)
    requires GInv(g) && GEnabled(g, ServerCopy)
    ensures GInv(ServerApply(g, ServerCopy))
  {
    hide Inv, Shape, Copying, Stage1, Stage2, Sent, Stat.Life, Slot, Offset;
    InvParts(g.toTun);
    var want, j := Incoming(g), g.server.copied;
    WriteKeepsCopying(g.toTun, j, want);
    KeepsInv(g.toTun, Write(j, want[j]));
  }

  lemma ServerRetKeeps(g: Gateway)
    requires GInv(g) && GEnabled(g, ServerRet)
    ensures GInv(ServerApply(g, ServerRet))
  {
    hide Inv, Shape, Copying, Stage1, Stage2, Sent, Stat.Life, Slot, Offset;
    InvParts(g.toTun);
    var want := Incoming(g);
    RetKeepsCopying(g.toTun, want);
    KeepsInv(g.toTun, ActionRet(|want|));
    if want == [] {
      Rejected1(g.toTun.cfg.mtu, g.received, g.toTun.accepted, g.carried1, g.lost1);
    }
  }

  lemma ServerReturnKeeps(g: Gateway)
    requires GInv(g) && GEnabled(g, ServerReturn)
    ensures GInv(ServerApply(g, ServerReturn))
  {
    hide Inv, Shape, Copying, Stage1, Stage2, Sent, Stat.Life;
    InvParts(g.toTun);
    KeepsInv(g.toTun, PushReturn);
    InvParts(Apply(g.toTun, PushReturn));
  }

  lemma ServerKeeps(g: Gateway, step: GStep)
    requires GInv(g) && GEnabled(g, step) && ByServer(step)
    ensures GInv(ServerApply(g, step))
  {
    hide ServerApply, GInv;
    match step
    case Arrive(msg) => ArriveKeeps(g, msg);
    case ServerStep => ServerStepKeeps(g);
    case ServerCopy => ServerCopyKeeps(g);
    case ServerRet => ServerRetKeeps(g);
    case ServerReturn => ServerReturnKeeps(g);
    case _ => StartStopKeeps(g, step);
  }

  // ---------------------------------------------------------------- the echo thread

  /** A change of `toTun` and of the echo thread the rest of the gateway cannot see. */
  lemma ToFrame(g: Gateway, s: State, e: Echo)
    requires GInv(g) && Inv(s) && Shape(s) && !g.echo.EPushing? && !e.EPushing?
    requires s.cfg == g.toTun.cfg && s.p == g.toTun.p && s.buf == g.toTun.buf && s.sizes == g.toTun.sizes
    requires s.accepted == g.toTun.accepted && s.handed == g.toTun.handed
    requires s.ps.Life() == g.toTun.ps.Life()
    requires e.EPopping? <==> !s.c.CIdle?
    requires s.c.CGot? || s.c.CAct? <==> g.toTun.c.CGot? || g.toTun.c.CAct?
    requires s.c.CAct? <==> g.toTun.c.CAct?
    requires s.c.CCount? || g.toTun.c.CCount? ==> s.c == g.toTun.c
    ensures GInv(g.(toTun := s, echo := e))
  {
    hide Inv, Shape, Copying, Stage1, Stage2, Sent, Stat.Life;
    if g.server.SPushing? {
      InvParts(g.toTun);
      OthersKeepCopying(g.toTun, s, g.server.copied, Incoming(g));
    }
  }

  /** The steps that start, suspend or end a pop. */
  predicate Turns(qstep: Step) {
    qstep.PopCall? || qstep.SpuriousWake? || qstep.Expire? || qstep.PopReturn?
  }

  /** They move no packet and count nothing. */
  lemma TurnEffect(s: State, qstep: Step)
    requires Inv(s) && Enabled(s, qstep) && Turns(qstep)
    ensures Shape(s)
    ensures var t := Apply(s, qstep);
      && Inv(t) && Shape(t)
      && t.cfg == s.cfg && t.p == s.p && t.buf == s.buf && t.sizes == s.sizes
      && t.accepted == s.accepted && t.handed == s.handed && t.ps == s.ps
      && (t.c.CIdle? <==> qstep.PopReturn?)
      && !t.c.CGot? && !t.c.CAct? && !t.c.CCount? && !s.c.CGot? && !s.c.CAct? && !s.c.CCount?
  {
    hide Inv, Shape, Stat.Life;
    InvParts(s);
    KeepsInv(s, qstep);
    InvParts(Apply(s, qstep));
  }

  /** The echo thread enters, waits in or leaves a pop. */
  lemma EchoTurns(g: Gateway, qstep: Step, e: Echo)
    requires GInv(g) && !g.echo.EPushing? && !e.EPushing? && Enabled(g.toTun, qstep) && Turns(qstep)
    requires e.EPopping? <==> !qstep.PopReturn?
    ensures Ready(g) && GInv(g.(toTun := Apply(g.toTun, qstep), echo := e))
  {
    GInvQueues(g);
    hide Inv, Shape, GInv, Ready, Stat.Life, Apply, Enabled, Turns;
    TurnEffect(g.toTun, qstep);
    ToFrame(g, Apply(g.toTun, qstep), e);
  }

  /** The echo thread has seen that the device has stopped. */
  lemma EchoStops(g: Gateway)
    requires GInv(g) && g.echo.EHead? && g.toTun.c.CIdle?
    ensures GInv(g.(echo := EOff))
  {
    GInvQueues(g);
    hide Inv, Shape, GInv, Ready, Stat.Life;
    InvParts(g.toTun);
    ToFrame(g, g.toTun, EOff);
    assert g.(toTun := g.toTun, echo := EOff) == g.(echo := EOff);
  }

  /** Steps of the echo thread around its pop that move no packet. */
  lemma EchoQuietKeeps(g: Gateway, step: GStep)
    requires GInv(g) && GEnabled(g, step)
    requires step.EchoLoop? || step.EchoWake? || step.EchoExpire? || step.EchoReturn?
    ensures GInv(EchoApply(g, step))
  {
    hide Inv, Shape, GInv, Ready, Apply;
    match step
    case EchoLoop =>
      if g.running {
        EchoTurns(g, PopCall, EPopping);
      } else {
        EchoStops(g);
      }
    case EchoWake => EchoTurns(g, SpuriousWake, EPopping);
    case EchoExpire => EchoTurns(g, Expire, EPopping);
    case EchoReturn => EchoTurns(g, PopReturn, EHead);
  }

  lemma EchoStepFlow(g: Gateway)
    requires Ready(g) && Inv(g.toTun) && Control(g) && Copies(g) && Flow(g) && GEnabled(g, EchoStep)
    ensures var t := EchoApply(g, EchoStep);
      t.fromTun == g.fromTun && Inv(t.toTun) && Ready(t) && Control(t) && Copies(t) && Flow(t)
  {
    hide Inv, Shape, Copying, Stage1, Stage2, Sent, Consume;
    var s := g.toTun;
    InvParts(s);
    ConsumeEffect(s);
    KeepsInv(s, CStep);
    InvParts(Apply(s, CStep));
    if g.server.SPushing? {
      OthersKeepCopying(s, Apply(s, CStep), g.server.copied, Incoming(g));
    }
    if s.c.CTry? && s.ring != [] {
      StageLengths(g);
      RingBehind(s);
      Taken(s.cfg.mtu, g.received, g.carried1, |s.handed|, g.fromTun.accepted, g.carried2, g.lost2);
    }
  }

  lemma RingBehind(s: State)
    requires Inv(s)
    ensures |s.accepted| == |s.handed| + |s.ring|
  {
  }

  lemma StageLengths(g: Gateway)
    requires Flow(g)
    ensures |g.carried1| == |g.toTun.accepted| && |g.carried2| == |g.fromTun.accepted|
    ensures Increasing(g.carried1) && forall k :: 0 <= k < |g.carried1| ==>
      g.carried1[k] < |g.received| && g.toTun.accepted[k] == Cut(g.toTun.cfg.mtu, g.received[g.carried1[k]])
  {
  }

  lemma EchoStepTally(g: Gateway)
    requires Ready(g) && Inv(g.toTun) && Control(g) && Tally(g) && GEnabled(g, EchoStep)
    ensures Tally(EchoApply(g, EchoStep))
  {
    hide Consume, Stat.Life;
    ConsumeEffect(g.toTun);
    ConsumeCounts(g.toTun);
  }

  lemma EchoStepKeeps(g: Gateway)
    requires GInv(g) && GEnabled(g, EchoStep)
    ensures GInv(EchoApply(g, EchoStep))
  {
    hide EchoApply, GEnabled, Inv, Ready, Control, Copies, Flow, Tally;
    EchoStepFlow(g);
    EchoStepTally(g);
  }

  lemma EchoCallKeeps(g: Gateway)
    requires GInv(g) && GEnabled(g, EchoCall)
    ensures GInv(EchoApply(g, EchoCall))
  {
    hide Inv, Shape, Stage1, Stage2, Sent, Stat.Life;
    InvParts(g.fromTun);
    InvParts(g.toTun);
    HandFull(g);
    StageLengths(g);
    KeepsInv(g.fromTun, PushCall);
    InvParts(Apply(g.fromTun, PushCall));
  }

  lemma EchoPushFlow(g: Gateway)
    requires Ready(g) && Inv(g.toTun) && Inv(g.fromTun) && Control(g) && Copies(g) && Flow(g) && GEnabled(g, EchoPush)
    ensures Flow(EchoApply(g, EchoPush))
  {
    hide Produce, Stage1, Stage2, Sent, Inv;
    InvParts(g.fromTun);
    InvParts(g.toTun);
    ProduceEffect(g.fromTun);
    StageLengths(g);
    HandFull(g);
    TakenIsCarried(g);
    var mtu, taken := g.toTun.cfg.mtu, |g.toTun.handed|;
    if Accepts(g.fromTun) {
      Accepted2(mtu, g.received, g.carried1, taken, g.fromTun.accepted, g.carried2, g.lost2, LastTaken(g));
    } else if g.fromTun.p.PTimeout? {
      Lost2(mtu, g.received, g.carried1, taken, g.fromTun.accepted, g.carried2, g.lost2);
    }
  }

  /** The packet in the echo thread's hand is the payload its id says. */
  lemma TakenIsCarried(g: Gateway)
    requires Inv(g.toTun) && Flow(g) && g.toTun.handed != []
    ensures |g.toTun.handed| <= |g.carried1|
    ensures LastTaken(g) == Cut(g.toTun.cfg.mtu, g.received[g.carried1[|g.toTun.handed| - 1]])
  {
    StageLengths(g);
    RingBehind(g.toTun);
    var n := |g.toTun.handed| - 1;
    assert g.toTun.handed[n] == g.toTun.accepted[n];
  }

  lemma EchoPushCopies(g: Gateway)
    requires Ready(g) && Inv(g.toTun) && Inv(g.fromTun) && Control(g) && Copies(g) && Flow(g) && GEnabled(g, EchoPush)
    ensures var t := EchoApply(g, EchoPush); t.toTun == g.toTun && Inv(t.fromTun) && Ready(t) && Control(t) && Copies(t)
  {
    hide Produce, Inv, Copying, Shape, Stage1, Stage2, Sent;
    InvParts(g.fromTun);
    KeepsInv(g.fromTun, PStep);
    InvParts(Apply(g.fromTun, PStep));
    ProduceKeepsCopying(g.fromTun, g.echo.copied, LastTaken(g));
    ProduceEffect(g.fromTun);
  }

  /** The echo thread never pushes an empty packet, so its pushes are never rejected. */
  lemma EchoPushTally(g: Gateway)
    requires Ready(g) && Inv(g.toTun) && Inv(g.fromTun) && Control(g) && Copies(g) && Tally(g) && GEnabled(g, EchoPush)
    ensures Tally(EchoApply(g, EchoPush))
  {
    hide Produce, Stat.Life, Inv;
    InvParts(g.fromTun);
    HandFull(g);
    ProduceEffect(g.fromTun);
    ProduceCounts(g.fromTun);
  }

  lemma EchoPushKeeps(g: Gateway)
    requires GInv(g) && GEnabled(g, EchoPush)
    ensures GInv(EchoApply(g, EchoPush))
  {
    hide EchoApply, GEnabled, Inv, Ready, Control, Copies, Flow, Tally;
    EchoPushFlow(g);
    EchoPushTally(g);
    EchoPushCopies(g);
  }

  lemma EchoCopyKeeps(g: Gateway)
    requires GInv(g) && GEnabled(g, EchoCopy)
    ensures GInv(EchoApply(g, EchoCopy))
  {
    hide Inv, Shape, Copying, Stage1, Stage2, Sent, Stat.Life, Slot, Offset;
    InvParts(g.fromTun);
    InvParts(g.toTun);
    HandFull(g);
    var want, j := LastTaken(g), g.echo.copied;
    WriteKeepsCopying(g.fromTun, j, want);
    KeepsInv(g.fromTun, Write(j, want[j]));
  }

  lemma EchoRetKeeps(g: Gateway)
    requires GInv(g) && GEnabled(g, EchoRet)
    ensures GInv(EchoApply(g, EchoRet))
  {
    hide Inv, Shape, Copying, Stage1, Stage2, Sent, Stat.Life, Slot, Offset;
    InvParts(g.fromTun);
    InvParts(g.toTun);
    HandFull(g);
    var want := LastTaken(g);
    RetKeepsCopying(g.fromTun, want);
    KeepsInv(g.fromTun, ActionRet(|want|));
  }

  lemma EchoActedQueues(g: Gateway)
    requires GInv(g) && GEnabled(g, EchoActed)
    ensures var t := EchoApply(g, EchoActed);
      Inv(t.toTun) && Inv(t.fromTun) && Ready(t) && Control(t) && Copies(t)
  {
    hide Inv, Shape, Copying, Flow, Stat.Life, Tally;
    InvParts(g.fromTun);
    InvParts(g.toTun);
    var result := PopRet(if g.fromTun.p.ok then 1 else -1);
    KeepsInv(g.toTun, result);
    KeepsInv(g.fromTun, PushReturn);
    InvParts(Apply(g.toTun, result));
    InvParts(Apply(g.fromTun, PushReturn));
    if g.server.SPushing? {
      OthersKeepCopying(g.toTun, Apply(g.toTun, result), g.server.copied, Incoming(g));
    }
  }

  lemma EchoActedFlow(g: Gateway)
    requires Ready(g) && Control(g) && Flow(g) && GEnabled(g, EchoActed)
    ensures Flow(EchoApply(g, EchoActed))
  {
    hide Shape, Stage1, Stage2, Sent;
  }

  /** The result of the nested push is what the outer pop counts. */
  lemma EchoActedTally(g: Gateway)
    requires Ready(g) && Control(g) && Tally(g) && GEnabled(g, EchoActed)
    ensures Tally(EchoApply(g, EchoActed))
  {
    hide Stat.Life, Shape;
  }

  lemma EchoActedKeeps(g: Gateway)
    requires GInv(g) && GEnabled(g, EchoActed)
    ensures GInv(EchoApply(g, EchoActed))
  {
    hide EchoApply, GEnabled, Inv, Ready, Control, Copies, Flow, Tally;
    GInvQueues(g);
    EchoActedQueues(g);
    EchoActedFlow(g);
    EchoActedTally(g);
  }

  lemma EchoKeeps(g: Gateway, step: GStep)
    requires GInv(g) && GEnabled(g, step) && ByEcho(step)
    ensures GInv(EchoApply(g, step))
  {
    hide EchoApply, GInv;
    match step
    case EchoStep => EchoStepKeeps(g);
    case EchoCall => EchoCallKeeps(g);
    case EchoPush => EchoPushKeeps(g);
    case EchoCopy => EchoCopyKeeps(g);
    case EchoRet => EchoRetKeeps(g);
    case EchoActed => EchoActedKeeps(g);
    case _ => EchoQuietKeeps(g, step);
  }

  // ---------------------------------------------------------------- the receive thread and the statistics

  /** A change of `fromTun` the rest of the gateway cannot see. */
  lemma FromFrame(g: Gateway, s: State)
    requires GInv(g) && Inv(s) && Shape(s)
    requires s.cfg == g.fromTun.cfg && s.p == g.fromTun.p && s.buf == g.fromTun.buf && s.sizes == g.fromTun.sizes
    requires s.accepted == g.fromTun.accepted && s.handed == g.fromTun.handed
    requires s.ps.Life() == g.fromTun.ps.Life()
    requires s.c.CGot? || s.c.CAct? <==> Open3(g)
    ensures GInv(g.(fromTun := s))
  {
    hide Inv, Shape, Copying, Stage1, Stage2, Sent, Stat.Life;
    if g.echo.EPushing? {
      InvParts(g.fromTun);
      OthersKeepCopying(g.fromTun, s, g.echo.copied, LastTaken(g));
    }
  }

  lemma RecvQuietKeeps(g: Gateway, step: GStep)
    requires GInv(g) && GEnabled(g, step)
    requires step.RecvCall? || step.RecvWake? || step.RecvExpire? || step.RecvReturn?
    ensures GInv(RecvApply(g, step))
  {
    hide Inv, Shape, GInv, Stat.Life;
    GInvQueues(g);
    InvParts(g.fromTun);
    var qstep := if step.RecvCall? then PopCall else if step.RecvWake? then SpuriousWake
                 else if step.RecvExpire? then Expire else PopReturn;
    TurnEffect(g.fromTun, qstep);
    FromFrame(g, Apply(g.fromTun, qstep));
  }

  lemma GInvQueues(g: Gateway)
    requires GInv(g)
    ensures Ready(g) && Inv(g.toTun) && Inv(g.fromTun)
  {
  }

  lemma RecvStepFlow(g: Gateway)
    requires GInv(g) && GEnabled(g, RecvStep)
    ensures var t := RecvApply(g, RecvStep);
      t.toTun == g.toTun && Inv(t.fromTun) && Ready(t) && Control(t) && Copies(t) && Flow(t)
  {
    hide Inv, Shape, Copying, Stage1, Stage2, Stat.Life, Consume, Tally;
    var s := g.fromTun;
    InvParts(s);
    ConsumeEffect(s);
    KeepsInv(s, CStep);
    InvParts(Apply(s, CStep));
    StageLengths(g);
    if g.echo.EPushing? {
      OthersKeepCopying(s, Apply(s, CStep), g.echo.copied, LastTaken(g));
    }
  }

  lemma RecvStepTally(g: Gateway)
    requires Ready(g) && Tally(g) && GEnabled(g, RecvStep)
    ensures Tally(RecvApply(g, RecvStep))
  {
    hide Consume, Stat.Life;
    ConsumeEffect(g.fromTun);
    ConsumeCounts(g.fromTun);
  }

  lemma RecvStepKeeps(g: Gateway)
    requires GInv(g) && GEnabled(g, RecvStep)
    ensures GInv(RecvApply(g, RecvStep))
  {
    hide RecvApply, GEnabled, Inv, Ready, Control, Copies, Flow, Tally;
    RecvStepFlow(g);
    RecvStepTally(g);
  }

  lemma RecvSendKeeps(g: Gateway)
    requires GInv(g) && GEnabled(g, RecvSend)
    ensures GInv(RecvApply(g, RecvSend))
  {
    hide Inv, Shape, Copying, Stage1, Stage2, Stat.Life;
    var s := g.fromTun;
    InvParts(s);
    LastHanded(s);
    KeepsInv(s, PopRet(1));
    InvParts(Apply(s, PopRet(1)));
    if g.echo.EPushing? {
      OthersKeepCopying(s, Apply(s, PopRet(1)), g.echo.copied, LastTaken(g));
    }
  }

  lemma LastHanded(s: State)
    requires Inv(s) && (s.c.CGot? || s.c.CAct?)
    ensures Filled(s, s.c.x) && s.handed != [] && s.Packet(s.c.x) == s.handed[|s.handed| - 1]
  {
    assert s.c.x in CSlots(s.c);
  }

  lemma CollectToKeeps(g: Gateway)
    requires Ready(g) && GInv(g)
    ensures GInv(RecvApply(g, CollectTo))
  {
    hide Inv, Shape, Copying, Stage1, Stage2, Sent, Stat.Life, Stat.Collected;
    InvParts(g.toTun);
    KeepsInv(g.toTun, CollectNow);
    InvParts(Apply(g.toTun, CollectNow));
    LifeSteps(g.toTun.ps, PopOk, 0);
    if g.server.SPushing? {
      OthersKeepCopying(g.toTun, Apply(g.toTun, CollectNow), g.server.copied, Incoming(g));
    }
  }

  lemma CollectFromKeeps(g: Gateway)
    requires Ready(g) && GInv(g)
    ensures GInv(RecvApply(g, CollectFrom))
  {
    hide Inv, Shape, GInv, Stat.Life, Stat.Collected;
    GInvQueues(g);
    InvParts(g.fromTun);
    KeepsInv(g.fromTun, CollectNow);
    InvParts(Apply(g.fromTun, CollectNow));
    LifeSteps(g.fromTun.ps, PopOk, 0);
    FromFrame(g, Apply(g.fromTun, CollectNow));
  }

  lemma RecvKeeps(g: Gateway, step: GStep)
    requires GInv(g) && GEnabled(g, step) && !ByServer(step) && !ByEcho(step)
    ensures GInv(RecvApply(g, step))
  {
    hide RecvApply, GInv;
    match step
    case RecvStep => RecvStepKeeps(g);
    case RecvSend => RecvSendKeeps(g);
    case CollectTo =>
      GInvQueues(g);
      CollectToKeeps(g);
    case CollectFrom =>
      GInvQueues(g);
      CollectFromKeeps(g);
    case _ => RecvQuietKeeps(g, step);
  }

  /** The invariant of the gateway is inductive. */
  lemma GKeeps(g: Gateway, step: GStep)
    requires GInv(g) && GEnabled(g, step)
    ensures GInv(GApply(g, step))
  {
    hide ServerApply, EchoApply, RecvApply, GInv, GEnabled;
    if ByServer(step) {
      ServerKeeps(g, step);
    } else if ByEcho(step) {
      EchoKeeps(g, step);
    } else {
      RecvKeeps(g, step);
    }
  }
}
