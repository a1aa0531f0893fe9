/** What the echo gateway promises, over every run of all its threads. */
module GatewayTheorems {
  import opened Common
  import opened PacketStatistics
  import opened QueueProtocol
  import opened QueueInvariants
  import opened QueueTheorems
  import opened WsPackets
  import opened EchoGateway
  import opened EchoInvariants
  import opened EchoPreservation

  ghost predicate GNext(g: Gateway, step: GStep, t: Gateway) {
    Ready(g) && GEnabled(g, step) && t == GApply(g, step)
  }

  ghost predicate GRun(trace: seq<Gateway>, steps: seq<GStep>) {
    && |trace| == |steps| + 1
    && GInit(trace[0])
    && forall k :: 0 <= k < |steps| ==> GNext(trace[k], steps[k], trace[k + 1])
  }

  lemma {:induction false} GRunInv(trace: seq<Gateway>, steps: seq<GStep>, k: nat)
    requires GRun(trace, steps) && k < |trace|
    ensures GInv(trace[k])
  {
    hide GApply, GEnabled, Ready, GInit, GInv;
    if k == 0 {
      GInitInv(trace[0]);
    } else {
      GRunInv(trace, steps, k - 1);
      assert GNext(trace[k - 1], steps[k - 1], trace[k]);
      GKeeps(trace[k - 1], steps[k - 1]);
    }
  }

  /** The payloads of the PAKT messages among the messages that came in, oldest first. */
  function Payloads(steps: seq<GStep>): seq<Bytes> {
    if steps == [] then []
    else
      var last := steps[|steps| - 1];
      Payloads(steps[..|steps| - 1]) +
        if last.Arrive? && IsPakt(last.msg) then (HeaderExact(last.msg, PAKT); [last.msg[HEADER_LEN..]]) else []
  }

  lemma ReceivedStep(g: Gateway, step: GStep)
    requires Ready(g) && GEnabled(g, step)
    ensures GApply(g, step).received == g.received + Payloads([step])
  {
    hide Apply, Shape, Enabled;
    assert [step][..0] == [];
  }

  /** `received` is what the messages of the run carried. */
  lemma {:induction false} ReceivedAre(trace: seq<Gateway>, steps: seq<GStep>, k: nat)
    requires GRun(trace, steps) && k < |trace|
    ensures trace[k].received == Payloads(steps[..k])
  {
    hide GApply, GEnabled, Ready;
    if k > 0 {
      ReceivedAre(trace, steps, k - 1);
      assert GNext(trace[k - 1], steps[k - 1], trace[k]);
      ReceivedStep(trace[k - 1], steps[k - 1]);
      assert steps[..k][..k - 1] == steps[..k - 1];
      assert [steps[k - 1]][..0] == [];
    }
  }

  /** Nothing is queued, and no thread has a packet in its hand; the threads may be waiting inside a pop. */
  predicate Drained(g: Gateway) {
    g.toTun.ring == [] && g.fromTun.ring == [] && !Open1(g) && !Open2(g) && !Open3(g)
  }

  /** Payload numbers, sorted by where the payload is. */
  datatype Whereabouts = Whereabouts(
    sent: seq<nat>, sending: seq<nat>, inFrom: seq<nat>, echoing: seq<nat>, inTo: seq<nat>, arriving: seq<nat>,
    lost: seq<nat>)
  {
    function Alive(): seq<nat> {
      sent + sending + inFrom + echoing + inTo + arriving
    }
  }

  /** Byte strings are, position by position, the payloads with these numbers, cut to the mtu. */
  ghost predicate Are(mtu: nat, payloads: seq<Bytes>, ids: seq<nat>, items: seq<Bytes>) {
    && |items| == |ids|
    && forall k :: 0 <= k < |ids| ==> ids[k] < |payloads| && items[k] == Cut(mtu, payloads[ids[k]]) && items[k] != []
  }

  /**
   The payloads kept (sent, in a queue or in a thread's hand) are in order of arrival from the output
   back to the input; the others are lost, once, or empty.
   */
  ghost predicate Split(mtu: nat, payloads: seq<Bytes>, alive: seq<nat>, lost: seq<nat>) {
    && Increasing(alive) && NoDup(lost)
    && (forall i :: i in alive ==> i < |payloads| && i !in lost)
    && (forall i: nat :: i < |payloads| && Cut(mtu, payloads[i]) != [] ==> i in alive || i in lost)
  }

  /**
   What the threads hold. The receive thread and the echo thread each hold the payload whose bytes lie in
   the slot they have popped, until it is sent or its nested push is decided; the message handler holds
   the newest payload until its push is decided; and nobody holds anything else.
   */
  ghost predicate InHands(g: Gateway, payloads: seq<Bytes>, w: Whereabouts)
    requires Shape(g.toTun) && Shape(g.fromTun)
  {
    && |w.sending| == One(Open3(g)) && |w.echoing| == One(Open2(g))
    && (Open3(g) ==> Are(g.toTun.cfg.mtu, payloads, w.sending, [g.fromTun.Packet(g.fromTun.c.x)]))
    && (Open2(g) ==> Are(g.toTun.cfg.mtu, payloads, w.echoing, [g.toTun.Packet(g.toTun.c.x)]))
    && |w.arriving| == One(Open1(g)) && (Open1(g) ==> w.arriving[0] == |payloads| - 1)
  }

  /** The books of the gateway balance. */
  ghost predicate Accounted(g: Gateway, payloads: seq<Bytes>, w: Whereabouts)
    requires Shape(g.toTun) && Shape(g.fromTun)
  {
    var mtu := g.toTun.cfg.mtu;
    && Split(mtu, payloads, w.Alive(), w.lost)
    && Are(mtu, payloads, w.inFrom, Queue(g.fromTun)) && Are(mtu, payloads, w.inTo, Queue(g.toTun))
    && InHands(g, payloads, w)
    && |w.lost| == g.toTun.ps.Life().pushTimeout + g.fromTun.ps.Life().pushTimeout
    && |w.sent| == |g.out|
    && forall k :: 0 <= k < |g.out| ==>
         && w.sent[k] < |payloads| && Cut(mtu, payloads[w.sent[k]]) != []
         && g.out[k] == Frame(Cut(mtu, payloads[w.sent[k]]))
  }

  /**
   End to end. Number the payloads of the incoming PAKT messages in order of arrival. At every moment
   of every run, the numbers split into those sent, in the receive thread's hand, waiting in
   `fromTun`, in the echo thread's hand, waiting in `toTun`, in the message handler's hand (all of
   these together in order of arrival), those lost, and empty payloads, which are never sent. What has
   been sent are the payloads with those numbers, cut to the mtu and framed; the queues and the slots
   the two popping threads hold contain theirs byte for byte; every lost payload was counted by a push
   timeout; and a hand is full exactly while `Open1`, `Open2` or `Open3` says so.
   */
  lemma EchoEndToEnd(trace: seq<Gateway>, steps: seq<GStep>) returns (w: Whereabouts)
    requires GRun(trace, steps)
    ensures Ready(trace[|steps|]) && Accounted(trace[|steps|], Payloads(steps), w)
  {
    hide GApply, GEnabled, GInit, Accounted, GInv, Ready;
    GRunInv(trace, steps, |steps|);
    ReceivedAre(trace, steps, |steps|);
    assert steps[..|steps|] == steps;
    GInvQueues(trace[|steps|]);
    w := Sort(trace[|steps|]);
  }

  function Hand2(g: Gateway): seq<nat> {
    if Open2(g) && 0 < |g.toTun.handed| <= |g.carried1| then [g.carried1[|g.toTun.handed| - 1]] else []
  }

  function Hand1(g: Gateway): seq<nat> {
    if Open1(g) && g.received != [] then [|g.received| - 1] else []
  }

  /** The payloads not yet settled by the echo thread, then those not yet settled by the handler. */
  function Upstairs(g: Gateway): seq<nat> {
    if |g.toTun.handed| <= |g.carried1| then Hand2(g) + g.carried1[|g.toTun.handed|..] + Hand1(g) else []
  }

  /** The packets in a ring are the newest of those the queue has accepted. */
  lemma RingHolds(s: State, received: seq<Bytes>, ids: seq<nat>)
    requires Inv(s) && Carries(s.cfg.mtu, received, s.accepted, ids)
    ensures |s.handed| <= |ids| && Are(s.cfg.mtu, received, ids[|s.handed|..], Queue(s))
  {
    hide Shape, Ownership, Scanning, Accounts, Waiting, Missing;
    QueueIsAccepted(s);
  }

  lemma FlowCarries(g: Gateway)
    requires Flow(g)
    ensures Carries(g.toTun.cfg.mtu, g.received, g.toTun.accepted, g.carried1)
    ensures Carries(g.toTun.cfg.mtu, g.received, g.fromTun.accepted, g.carried2)
    ensures |g.out| + One(Open3(g)) == |g.fromTun.handed|
  {
  }

  /** Every payload number the gateway still knows, by where the payload is. */
  function Located(g: Gateway): Whereabouts
    requires |g.out| <= |g.fromTun.handed| <= |g.carried2| && |g.toTun.handed| <= |g.carried1|
  {
    Whereabouts(
      g.carried2[..|g.out|], g.carried2[|g.out|..|g.fromTun.handed|], g.carried2[|g.fromTun.handed|..],
      Hand2(g), g.carried1[|g.toTun.handed|..], Hand1(g),
      g.lost1 + g.lost2)
  }

  lemma LocatedAlive(g: Gateway)
    requires |g.out| <= |g.fromTun.handed| <= |g.carried2| && |g.toTun.handed| <= |g.carried1|
    ensures Located(g).Alive() == g.carried2 + Upstairs(g)
  {
    hide Hand1, Hand2;
  }

  /** A popped packet is the payload that its place in the queue's history says. */
  lemma Held(s: State, received: seq<Bytes>, ids: seq<nat>)
    requires Inv(s) && Carries(s.cfg.mtu, received, s.accepted, ids)
    ensures |s.handed| <= |ids| && Shape(s)
    ensures s.c.CGot? || s.c.CAct? ==>
      s.handed != [] && Are(s.cfg.mtu, received, [ids[|s.handed| - 1]], [s.Packet(s.c.x)])
  {
    if s.c.CGot? || s.c.CAct? {
      LastHanded(s);
      hide Ownership, Scanning, Accounts, Waiting, Missing;
      var n := |s.handed| - 1;
      assert s.handed[n] == s.accepted[n];
    }
  }

  lemma Holds(g: Gateway)
    requires GInv(g) && |g.out| <= |g.fromTun.handed| <= |g.carried2| && |g.toTun.handed| <= |g.carried1|
    ensures Ready(g) && InHands(g, g.received, Located(g))
  {
    hide Stat.Life, Copies, Inv, Flow, Are, Carries, Shape, Control;
    FlowCarries(g);
    StageSizes(g);
    Held(g.toTun, g.received, g.carried1);
    Held(g.fromTun, g.received, g.carried2);
    var n := |g.fromTun.handed|;
    if Open3(g) {
      assert g.carried2[|g.out|..n] == [g.carried2[n - 1]];
    }
  }

  lemma Sort(g: Gateway) returns (w: Whereabouts)
    requires GInv(g)
    ensures Ready(g) && Accounted(g, g.received, w)
  {
    hide Stat.Life, Copies, Inv, Flow, Queue, Split, Are, Carries, Shape, Frame, Control, InHands;
    FlowCarries(g);
    StageSizes(g);
    RingHolds(g.toTun, g.received, g.carried1);
    RingHolds(g.fromTun, g.received, g.carried2);
    LocatedAlive(g);
    FlowSplits(g);
    SentAre(g);
    Holds(g);
    hide Whereabouts.Alive, Upstairs, Hand1, Hand2;
    w := Located(g);
  }

  lemma SentAre(g: Gateway)
    requires Inv(g.fromTun) && Flow(g)
    ensures |g.out| <= |g.carried2|
    ensures forall k :: 0 <= k < |g.out| ==>
      && g.carried2[k] < |g.received|
      && Cut(g.toTun.cfg.mtu, g.received[g.carried2[k]]) != []
      && g.out[k] == Frame(Cut(g.toTun.cfg.mtu, g.received[g.carried2[k]]))
  {
    hide Shape, Ownership, Scanning, Accounts, Waiting, Missing, Stage1;
    forall k | 0 <= k < |g.out|
      ensures g.out[k] == Frame(Cut(g.toTun.cfg.mtu, g.received[g.carried2[k]]))
    {
      assert g.fromTun.handed[k] == g.fromTun.accepted[k];
    }
  }

  lemma FlowSplits(g: Gateway)
    requires Flow(g)
    ensures Split(g.toTun.cfg.mtu, g.received, g.carried2 + Upstairs(g), g.lost1 + g.lost2)
  {
    hide Stage1, Stage2, Sent, Split, Open1, Open2, Open3;
    var mtu, taken := g.toTun.cfg.mtu, |g.toTun.handed|;
    StageSizes(g);
    StagesSplit(mtu, g.received, g.toTun.accepted, g.carried1, g.lost1, Open1(g),
                taken, g.fromTun.accepted, g.carried2, g.lost2, Open2(g));
    UpstairsAhead(g);
  }

  lemma Uncons(xs: seq<nat>, n: nat)
    requires n < |xs|
    ensures xs[n..] == [xs[n]] + xs[n + 1..]
  {
  }

  lemma NothingAhead(xs: seq<nat>)
    ensures [] + xs == xs
  {
  }

  lemma UpstairsAhead(g: Gateway)
    requires |g.toTun.handed| <= |g.carried1|
    requires (Open2(g) ==> g.toTun.handed != []) && (Open1(g) ==> g.received != [])
    ensures Upstairs(g) == Ahead(g.received, g.carried1, |g.toTun.handed| - One(Open2(g)), Open1(g))
  {
    hide Open1, Open2;
    var taken := |g.toTun.handed|;
    if Open2(g) {
      Uncons(g.carried1, taken - 1);
    } else {
      NothingAhead(g.carried1[taken..]);
    }
  }

  lemma StageSizes(g: Gateway)
    requires Flow(g)
    ensures |g.toTun.handed| <= |g.carried1|
    ensures (Open2(g) ==> g.toTun.handed != []) && (Open1(g) ==> g.received != [])
  {
    hide Open1, Open2;
  }

  /** What of the first queue's history the echo thread has not settled, and what the handler has not. */
  function Ahead(received: seq<Bytes>, carried1: seq<nat>, top: int, open1: bool): seq<nat>
    requires 0 <= top <= |carried1| && (open1 ==> received != [])
  {
    carried1[top..] + if open1 then [|received| - 1] else []
  }

  lemma StagesSplit(mtu: nat, received: seq<Bytes>,
                    accepted1: seq<Bytes>, carried1: seq<nat>, lost1: seq<nat>, open1: bool,
                    taken: nat, accepted2: seq<Bytes>, carried2: seq<nat>, lost2: seq<nat>, open2: bool)
    requires Stage1(mtu, received, accepted1, carried1, lost1, open1)
    requires Stage2(mtu, received, carried1, taken, accepted2, carried2, lost2, open2)
    ensures Split(mtu, received, carried2 + Ahead(received, carried1, taken - One(open2), open1), lost1 + lost2)
  {
    var top := taken - One(open2);
    var settled, ahead := carried1[..top], Ahead(received, carried1, top, open1);
    AheadFacts(received, carried1, top, open1);
    forall x | x in carried2 || x in lost2
      ensures x in settled && x in carried1
    {
    }
    Joined(carried2, ahead);
    LostOnce(lost1, lost2, carried1);
    NoneForgotten(mtu, received, accepted1, carried1, lost1, open1, taken, accepted2, carried2, lost2, open2);
    hide Ahead;
  }

  lemma NoneForgotten(mtu: nat, received: seq<Bytes>,
                      accepted1: seq<Bytes>, carried1: seq<nat>, lost1: seq<nat>, open1: bool,
                      taken: nat, accepted2: seq<Bytes>, carried2: seq<nat>, lost2: seq<nat>, open2: bool)
    requires Stage1(mtu, received, accepted1, carried1, lost1, open1)
    requires Stage2(mtu, received, carried1, taken, accepted2, carried2, lost2, open2)
    ensures forall i: nat :: i < |received| && Cut(mtu, received[i]) != [] ==>
      i in carried2 + Ahead(received, carried1, taken - One(open2), open1) || i in lost1 + lost2
  {
    var top := taken - One(open2);
    AheadFacts(received, carried1, top, open1);
    hide Ahead;
    forall i: nat | i < |received| && Cut(mtu, received[i]) != []
      ensures i in carried2 + Ahead(received, carried1, top, open1) || i in lost1 + lost2
    {
      if i in carried1[..top] {
        var k :| 0 <= k < top && carried1[k] == i;
      }
    }
  }

  lemma AheadFacts(received: seq<Bytes>, carried1: seq<nat>, top: int, open1: bool)
    requires 0 <= top <= |carried1| && (open1 ==> received != [])
    requires Increasing(carried1)
    requires forall k :: 0 <= k < |carried1| ==> carried1[k] < |received| - One(open1)
    ensures var settled, ahead := carried1[..top], Ahead(received, carried1, top, open1);
      && Increasing(ahead)
      && (forall x, y :: x in settled && y in ahead ==> x < y)
      && (forall x: nat :: x in carried1 || (open1 && x == |received| - 1) <==> x in settled || x in ahead)
      && (forall x :: x in ahead ==> x < |received|)
  {
    var hand := if open1 then [|received| - 1] else [];
    assert carried1 == carried1[..top] + carried1[top..];
    Joined(carried1[top..], hand);
  }

  lemma LostOnce(lost1: seq<nat>, lost2: seq<nat>, carried1: seq<nat>)
    requires Increasing(lost1) && Increasing(lost2)
    requires forall x :: x in lost2 ==> x in carried1
    requires forall i, j :: 0 <= i < |carried1| && 0 <= j < |lost1| ==> carried1[i] != lost1[j]
    ensures NoDup(lost1 + lost2)
  {
    forall i, j | 0 <= i < |lost1| && 0 <= j < |lost2|
      ensures lost1[i] != lost2[j]
    {
      assert lost2[j] in carried1;
    }
  }

  lemma Joined(a: seq<nat>, b: seq<nat>)
    requires Increasing(a) && Increasing(b)
    requires forall x, y :: x in a && y in b ==> x < y
    ensures Increasing(a + b)
  {
    forall i, j | 0 <= i < |a| && 0 <= j < |b|
      ensures a[i] < b[j]
    {
      assert a[i] in a && b[j] in b;
    }
  }

  // ---------------------------------------------------------------- the lossless case

  /** What a perfect echo of the first `n` payloads sends. */
  function Echoed(mtu: nat, payloads: seq<Bytes>, n: nat): seq<Bytes>
    requires n <= |payloads|
  {
    if n == 0 then []
    else
      var cut := Cut(mtu, payloads[n - 1]);
      if cut == [] then Echoed(mtu, payloads, n - 1) else Echoed(mtu, payloads, n - 1) + [Frame(cut)]
  }

  /** Ascending numbers below `n` that miss no non-empty payload, and the messages they stand for. */
  ghost predicate Spells(mtu: nat, payloads: seq<Bytes>, n: nat, ids: seq<nat>, out: seq<Bytes>) {
    && n <= |payloads| && |ids| == |out| && Increasing(ids)
    && (forall k :: 0 <= k < |ids| ==>
          ids[k] < n && Cut(mtu, payloads[ids[k]]) != [] && out[k] == Frame(Cut(mtu, payloads[ids[k]])))
    && forall i: nat :: i < n && Cut(mtu, payloads[i]) != [] ==> i in ids
  }

  lemma LastIsLargest(ids: seq<nat>)
    requires Increasing(ids) && ids != []
    ensures forall k :: 0 <= k < |ids| ==> ids[k] <= ids[|ids| - 1]
  {
  }

  lemma SpellsLast(mtu: nat, payloads: seq<Bytes>, n: nat, ids: seq<nat>, out: seq<Bytes>)
    requires Spells(mtu, payloads, n, ids, out) && n > 0 && Cut(mtu, payloads[n - 1]) != []
    ensures out != [] && |ids| == |out| && out[|out| - 1] == Frame(Cut(mtu, payloads[n - 1]))
    ensures Spells(mtu, payloads, n - 1, ids[..|ids| - 1], out[..|out| - 1])
  {
    var last := |ids| - 1;
    var k :| 0 <= k < |ids| && ids[k] == n - 1;
    LastIsLargest(ids);
    assert ids[last] == n - 1;
    forall i: nat | i < n - 1 && Cut(mtu, payloads[i]) != []
      ensures i in ids[..last]
    {
      var j :| 0 <= j < |ids| && ids[j] == i;
      assert ids[..last][j] == i;
    }
  }

  lemma SpellsSkip(mtu: nat, payloads: seq<Bytes>, n: nat, ids: seq<nat>, out: seq<Bytes>)
    requires Spells(mtu, payloads, n, ids, out)
    ensures n == 0 ==> out == []
    ensures n > 0 && Cut(mtu, payloads[n - 1]) == [] ==> Spells(mtu, payloads, n - 1, ids, out)
  {
    hide Frame, Cut;
    assert forall k :: 0 <= k < |ids| ==> Cut(mtu, payloads[ids[k]]) != [];
    assert ids != [] ==> 0 <= ids[0] < n;
  }

  lemma {:induction false} SpellsEchoed(mtu: nat, payloads: seq<Bytes>, n: nat, ids: seq<nat>, out: seq<Bytes>)
    requires Spells(mtu, payloads, n, ids, out)
    ensures n <= |payloads| && out == Echoed(mtu, payloads, n)
    decreases n
  {
    assert n <= |payloads|;
    hide Frame, Cut, Spells;
    SpellsSkip(mtu, payloads, n, ids, out);
    if n > 0 {
      if Cut(mtu, payloads[n - 1]) != [] {
        SpellsLast(mtu, payloads, n, ids, out);
        var ids', out' := ids[..|ids| - 1], out[..|out| - 1];
        assert out == out' + [out[|out| - 1]];
        SpellsEchoed(mtu, payloads, n - 1, ids', out');
      } else {
        SpellsEchoed(mtu, payloads, n - 1, ids, out);
      }
    }
  }

  /**
   Once both rings are empty and no thread has a packet in its hand, a run in which no push timed out
   has sent exactly one framed, mtu-cut copy of every non-empty payload, in order of arrival.
   */
  lemma LosslessEcho(trace: seq<Gateway>, steps: seq<GStep>)
    requires GRun(trace, steps)
    requires Drained(trace[|steps|])
    requires trace[|steps|].toTun.ps.Life().pushTimeout == 0 && trace[|steps|].fromTun.ps.Life().pushTimeout == 0
    ensures trace[|steps|].out == Echoed(trace[|steps|].toTun.cfg.mtu, Payloads(steps), |Payloads(steps)|)
  {
    hide GNext, GInit, Stat.Life, Shape;
    var g := trace[|steps|];
    var w := EchoEndToEnd(trace, steps);
    assert w.Alive() == w.sent;
    SpellsEchoed(g.toTun.cfg.mtu, Payloads(steps), |Payloads(steps)|, w.sent, g.out);
  }

  // ---------------------------------------------------------------- nobody is blocked

  predicate HandlerStep(step: GStep) {
    step.ServerStep? || step.ServerCopy? || step.ServerRet? || step.ServerReturn?
  }

  /** The echo thread's own steps; the end of a wait by timeout is one of them. */
  predicate EchoOwnStep(step: GStep) {
    ByEcho(step) && !step.EchoWake?
  }

  predicate RecvOwnStep(step: GStep) {
    step.RecvCall? || step.RecvStep? || step.RecvExpire? || step.RecvSend? || step.RecvReturn?
  }

  lemma HandlerCanMove(g: Gateway) returns (step: GStep)
    requires GInv(g) && g.server.SPushing?
    ensures Ready(g) && HandlerStep(step) && GEnabled(g, step)
  {
    hide Inv, Flow, Tally, Stat.Life;
    step := if g.toTun.p.PDone? then ServerReturn
            else if !g.toTun.p.PFill? then ServerStep
            else if g.server.copied < |Incoming(g)| then ServerCopy
            else ServerRet;
  }

  lemma EchoPopCanMove(g: Gateway) returns (step: GStep)
    requires Ready(g) && Control(g) && (g.echo.EHead? || g.echo.EPopping?)
    ensures EchoOwnStep(step) && GEnabled(g, step)
  {
    hide Shape;
    step := if g.echo.EHead? then EchoLoop
            else if g.toTun.c.CAct? then EchoCall
            else if g.toTun.c.CWait? then EchoExpire
            else if g.toTun.c.CTrue? || g.toTun.c.CFalse? then EchoReturn
            else EchoStep;
  }

  lemma EchoPushCanMove(g: Gateway) returns (step: GStep)
    requires Ready(g) && Control(g) && Copies(g) && g.echo.EPushing?
    requires Filled(g.toTun, g.toTun.c.x) && |LastTaken(g)| == g.toTun.sizes[g.toTun.c.x]
    ensures EchoOwnStep(step) && GEnabled(g, step)
  {
    assert Memory(g.toTun) && Shape(g.fromTun);
    hide LastTaken, Shape;
    step := if g.fromTun.p.PDone? then EchoActed
            else if !g.fromTun.p.PFill? then EchoPush
            else if g.echo.copied < g.toTun.sizes[g.toTun.c.x] then EchoCopy
            else EchoRet;
  }

  lemma EchoCanMove(g: Gateway) returns (step: GStep)
    requires GInv(g) && !g.echo.EOff?
    ensures Ready(g) && EchoOwnStep(step) && GEnabled(g, step)
  {
    hide Inv, Ready, Copies, Flow, Tally, GEnabled;
    if g.echo.EPushing? {
      HandFull(g);
      step := EchoPushCanMove(g);
    } else {
      step := EchoPopCanMove(g);
    }
  }

  lemma RecvCanMove(g: Gateway) returns (step: GStep)
    requires Ready(g)
    ensures RecvOwnStep(step) && GEnabled(g, step)
  {
    step := if g.fromTun.c.CIdle? then RecvCall
            else if g.fromTun.c.CWait? then RecvExpire
            else if g.fromTun.c.CAct? then RecvSend
            else if g.fromTun.c.CTrue? || g.fromTun.c.CFalse? then RecvReturn
            else RecvStep;
  }

  /** What the world around the gateway may do at any time. */
  ghost predicate Open(g: Gateway)
    requires Ready(g)
  {
    && (g.server.SIdle? ==> forall msg: Bytes :: GEnabled(g, Arrive(msg)))
    && (!g.running && g.echo.EOff? ==> GEnabled(g, Start))
    && GEnabled(g, Stop) && GEnabled(g, CollectTo) && GEnabled(g, CollectFrom)
    && (g.echo.EPopping? && g.toTun.c.CWait? ==> GEnabled(g, EchoWake))
    && (g.fromTun.c.CWait? ==> GEnabled(g, RecvWake))
  }

  lemma AlwaysOpen(g: Gateway)
    requires Ready(g) && Control(g)
    ensures Open(g)
  {
    hide Shape;
  }

  lemma GInvControl(g: Gateway)
    requires GInv(g)
    ensures Control(g)
  {
  }

  /**
   In no state of any run does one thread have to wait for another: a message handler inside its push,
   an echo thread that is running and the receive thread each have a step of their own to take. And an
   idle handler takes any message, a device at rest can be started, and anybody may stop or collect.
   */
  lemma NobodyIsBlocked(trace: seq<Gateway>, steps: seq<GStep>, k: nat)
      returns (handler: GStep, echo: GStep, recv: GStep)
    requires GRun(trace, steps) && k < |trace|
    ensures Ready(trace[k])
    ensures trace[k].server.SPushing? ==> HandlerStep(handler) && GEnabled(trace[k], handler)
    ensures !trace[k].echo.EOff? ==> EchoOwnStep(echo) && GEnabled(trace[k], echo)
    ensures RecvOwnStep(recv) && GEnabled(trace[k], recv)
    ensures Open(trace[k])
  {
    hide GApply, GEnabled, GInit, GInv, Open, Control;
    GRunInv(trace, steps, k);
    handler, echo := Stop, Stop;
    if trace[k].server.SPushing? {
      handler := HandlerCanMove(trace[k]);
    }
    if !trace[k].echo.EOff? {
      echo := EchoCanMove(trace[k]);
    }
    GInvQueues(trace[k]);
    GInvControl(trace[k]);
    AlwaysOpen(trace[k]);
    recv := RecvCanMove(trace[k]);
  }

  // ---------------------------------------------------------------- counters and slots of the pipeline

  /**
   Whenever no echo pop is in progress, every packet popped from `toTun` is accounted for by a push
   into `fromTun`: acknowledged pops are accepted pushes, failed pops are timed-out pushes, and no
   push of the echo thread is ever rejected or refused.
   */
  lemma EchoConservation(trace: seq<Gateway>, steps: seq<GStep>, k: nat)
    requires GRun(trace, steps) && k < |trace|
    requires trace[k].echo.EOff? || trace[k].echo.EHead?
    ensures var into, onto := trace[k].toTun.ps.Life(), trace[k].fromTun.ps.Life();
      && into.popOk == onto.pushOk
      && into.popActionFailed == onto.pushTimeout
      && onto.pushActionFailed == 0 && onto.pushFailed == 0
      && into.popOk + into.popActionFailed == |trace[k].toTun.handed|
  {
    hide GApply, GEnabled, Ready, GInit, Stat.Life;
    GRunInv(trace, steps, k);
  }

  function Queued(s: State): set<nat> {
    set i: nat | i in s.ring
  }

  lemma OnlyQueuedUsed(s: State)
    requires Inv(s) && s.p.PIdle? && s.c.CIdle?
    ensures Memory(s) && UsedSlots(s) == Queued(s) && |UsedSlots(s)| == |s.ring|
  {
    SlotsAccounted(s);
    forall i: nat | i in s.ring
      ensures i < s.cfg.size
    {
      var k :| 0 <= k < |s.ring| && s.ring[k] == i;
      assert Filled(s, s.ring[k]);
    }
  }

  /**
   However often the device has been started and stopped: once the threads have been joined and the
   callers are out of their calls, the used slots of both pools are exactly the queued packets.
   */
  lemma RestartLeaksNothing(trace: seq<Gateway>, steps: seq<GStep>, k: nat)
    requires GRun(trace, steps) && k < |trace|
    requires trace[k].echo.EOff? && trace[k].server.SIdle? && trace[k].fromTun.c.CIdle?
    ensures Memory(trace[k].toTun) && Memory(trace[k].fromTun)
    ensures UsedSlots(trace[k].toTun) == Queued(trace[k].toTun)
    ensures UsedSlots(trace[k].fromTun) == Queued(trace[k].fromTun)
    ensures |UsedSlots(trace[k].toTun)| == |trace[k].toTun.ring|
    ensures |UsedSlots(trace[k].fromTun)| == |trace[k].fromTun.ring|
  {
    hide GApply, GEnabled, Ready, GInit, Stat.Life;
    GRunInv(trace, steps, k);
    OnlyQueuedUsed(trace[k].toTun);
    OnlyQueuedUsed(trace[k].fromTun);
  }
}
