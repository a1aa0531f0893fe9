/**
 The gateway in echo mode, over the protocol of both its queues: the server's message handler pushes
 into `toTun` (tuna_server.hpp), the echo thread pops from `toTun` and, inside that pop's action, pushes
 into `fromTun` (tun_device.hpp), the receive thread pops from `fromTun` and sends (tuna_server.hpp),
 and anybody may start, stop or collect. All of it is interleaved at every access to shared state.
 */
module EchoGateway {
  import opened Common
  import opened QueueProtocol
  import opened WsPackets

  /** The message handler: idle, or inside `processPacket` with so many bytes copied by `copyOut`. */
  datatype Server = SIdle | SPushing(copied: nat)

  /** The echo thread: not running, at its loop test, inside a pop, or inside that pop's nested push. */
  datatype Echo = EOff | EHead | EPopping | EPushing(copied: nat)

  /**
   `received` are the payloads of the PAKT messages that have come in, `out` the messages sent.
   The rest is history: which received payload each accepted packet of a queue carries, and which
   were given up when a push into that queue timed out.
   */
  datatype Gateway = Gateway(
    toTun: State, fromTun: State,
    server: Server, echo: Echo, running: bool,
    received: seq<Bytes>, out: seq<Bytes>,
    carried1: seq<nat>, carried2: seq<nat>,
    lost1: seq<nat>, lost2: seq<nat>)

  datatype GStep =
    | Start | Stop
    | Arrive(msg: Bytes) | ServerStep | ServerCopy | ServerRet | ServerReturn
    | EchoLoop | EchoStep | EchoWake | EchoExpire | EchoReturn
    | EchoCall | EchoPush | EchoCopy | EchoRet | EchoActed
    | RecvCall | RecvStep | RecvWake | RecvExpire | RecvSend | RecvReturn
    | CollectTo | CollectFrom

  /** The id of the payload the message handler is working on. */
  function Arriving(g: Gateway): int {
    |g.received| - 1
  }

  /** What the message handler is copying: the newest payload, as far as it fits. */
  function Incoming(g: Gateway): Bytes
    requires g.received != []
  {
    Cut(g.toTun.cfg.mtu, g.received[|g.received| - 1])
  }

  /** Both queues are well-shaped, and the echo thread's two roles fit together. */
  ghost predicate Ready(g: Gateway) {
    && Shape(g.toTun) && Shape(g.fromTun)
    && g.toTun.cfg == g.fromTun.cfg
    && (g.server.SPushing? ==> g.received != [])
    && (g.echo.EPushing? ==> g.toTun.c.CAct? && 0 < |g.toTun.handed| <= |g.carried1|)
    && |g.fromTun.handed| <= |g.carried2|
  }

  /** The receive thread may call `pop` whether or not the device is running. */
  predicate GEnabled(g: Gateway, step: GStep)
    requires Memory(g.toTun) && Memory(g.fromTun)
  {
    match step
    case Start => !g.running && g.echo.EOff?
    case Stop => true
    case Arrive(_) => g.server.SIdle? && g.toTun.p.PIdle?
    case ServerStep => g.server.SPushing? && Enabled(g.toTun, PStep)
    case ServerCopy => g.server.SPushing? && g.received != [] && g.toTun.p.PFill? && g.server.copied < |Incoming(g)|
    case ServerRet => g.server.SPushing? && g.received != [] && g.toTun.p.PFill? && g.server.copied == |Incoming(g)|
    case ServerReturn => g.server.SPushing? && g.toTun.p.PDone?
    case EchoLoop => g.echo.EHead? && g.toTun.c.CIdle?
    case EchoStep => g.echo.EPopping? && Enabled(g.toTun, CStep)
    case EchoWake => g.echo.EPopping? && g.toTun.c.CWait?
    case EchoExpire => g.echo.EPopping? && g.toTun.c.CWait?
    case EchoReturn => g.echo.EPopping? && (g.toTun.c.CTrue? || g.toTun.c.CFalse?)
    case EchoCall => g.echo.EPopping? && g.toTun.c.CAct? && g.fromTun.p.PIdle?
    case EchoPush => g.echo.EPushing? && Enabled(g.fromTun, PStep)
    case EchoCopy =>
      && g.echo.EPushing? && g.toTun.c.CAct? && Filled(g.toTun, g.toTun.c.x)
      && g.fromTun.p.PFill? && g.echo.copied < g.toTun.sizes[g.toTun.c.x]
    case EchoRet =>
      && g.echo.EPushing? && g.toTun.c.CAct? && Filled(g.toTun, g.toTun.c.x)
      && g.fromTun.p.PFill? && g.echo.copied == g.toTun.sizes[g.toTun.c.x]
    case EchoActed => g.echo.EPushing? && g.toTun.c.CAct? && g.fromTun.p.PDone?
    case RecvCall => g.fromTun.c.CIdle?
    case RecvStep => Enabled(g.fromTun, CStep)
    case RecvWake => g.fromTun.c.CWait?
    case RecvExpire => g.fromTun.c.CWait?
    case RecvSend => g.fromTun.c.CAct?
    case RecvReturn => g.fromTun.c.CTrue? || g.fromTun.c.CFalse?
    case CollectTo => true
    case CollectFrom => true
  }

  /** A push puts its packet into the ring with this step. */
  predicate Accepts(s: State) {
    s.p.PRing? && |s.ring| < s.cfg.size
  }

  function Noted(ids: seq<nat>, now: bool, id: int): seq<nat>
    requires now ==> id >= 0
  {
    if now then ids + [id] else ids
  }

  /** The payload the echo thread has in its hand. */
  function InHand(g: Gateway): int
  {
    if 0 < |g.toTun.handed| <= |g.carried1| then g.carried1[|g.toTun.handed| - 1] else 0
  }

  /** Starting, stopping, and the message handler. */
  function ServerApply(g: Gateway, step: GStep): Gateway
    requires Ready(g) && GEnabled(g, step)
  {
    match step
    case Start => g.(running := true, echo := EHead)
    case Stop => g.(running := false)
    case Arrive(msg) =>
      if IsPakt(msg)
      then
        HeaderExact(msg, PAKT);
        g.(received := g.received + [msg[HEADER_LEN..]], server := SPushing(0), toTun := Apply(g.toTun, PushCall))
      else g
    case ServerStep =>
      g.(toTun := Apply(g.toTun, PStep),
         carried1 := Noted(g.carried1, Accepts(g.toTun), Arriving(g)),
         lost1 := Noted(g.lost1, g.toTun.p.PTimeout?, Arriving(g)))
    case ServerCopy =>
      var j := g.server.copied;
      g.(toTun := Apply(g.toTun, Write(j, Incoming(g)[j])), server := SPushing(j + 1))
    case ServerRet => g.(toTun := Apply(g.toTun, ActionRet(|Incoming(g)|)))
    case ServerReturn => g.(toTun := Apply(g.toTun, PushReturn), server := SIdle)
    case _ => g
  }

  /** The echo thread. */
  function EchoApply(g: Gateway, step: GStep): Gateway
    requires Ready(g) && GEnabled(g, step)
  {
    match step
    case EchoLoop =>
      if g.running then g.(toTun := Apply(g.toTun, PopCall), echo := EPopping) else g.(echo := EOff)
    case EchoStep => g.(toTun := Apply(g.toTun, CStep))
    case EchoWake => g.(toTun := Apply(g.toTun, SpuriousWake))
    case EchoExpire => g.(toTun := Apply(g.toTun, Expire))
    case EchoReturn => g.(toTun := Apply(g.toTun, PopReturn), echo := EHead)
    case EchoCall => g.(fromTun := Apply(g.fromTun, PushCall), echo := EPushing(0))
    case EchoPush =>
      g.(fromTun := Apply(g.fromTun, PStep),
         carried2 := Noted(g.carried2, Accepts(g.fromTun), InHand(g)),
         lost2 := Noted(g.lost2, g.fromTun.p.PTimeout?, InHand(g)))
    case EchoCopy =>
      var j := g.echo.copied;
      g.(fromTun := Apply(g.fromTun, Write(j, g.toTun.Packet(g.toTun.c.x)[j])), echo := EPushing(j + 1))
    case EchoRet => g.(fromTun := Apply(g.fromTun, ActionRet(g.toTun.sizes[g.toTun.c.x])))
    case EchoActed =>
      g.(toTun := Apply(g.toTun, PopRet(if g.fromTun.p.ok then 1 else -1)),
         fromTun := Apply(g.fromTun, PushReturn), echo := EPopping)
    case _ => g
  }

  /** The receive thread and the statistics. */
  function RecvApply(g: Gateway, step: GStep): Gateway
    requires Ready(g) && GEnabled(g, step)
  {
    match step
    case RecvCall => g.(fromTun := Apply(g.fromTun, PopCall))
    case RecvStep => g.(fromTun := Apply(g.fromTun, CStep))
    case RecvWake => g.(fromTun := Apply(g.fromTun, SpuriousWake))
    case RecvExpire => g.(fromTun := Apply(g.fromTun, Expire))
    case RecvSend =>
      g.(out := g.out + [Frame(g.fromTun.Packet(g.fromTun.c.x))], fromTun := Apply(g.fromTun, PopRet(1)))
    case RecvReturn => g.(fromTun := Apply(g.fromTun, PopReturn))
    case CollectTo => g.(toTun := Apply(g.toTun, CollectNow))
    case CollectFrom => g.(fromTun := Apply(g.fromTun, CollectNow))
    case _ => g
  }

  predicate ByServer(step: GStep) {
    step.Start? || step.Stop? || step.Arrive?
    || step.ServerStep? || step.ServerCopy? || step.ServerRet? || step.ServerReturn?
  }

  predicate ByEcho(step: GStep) {
    step.EchoLoop? || step.EchoStep? || step.EchoWake? || step.EchoExpire? || step.EchoReturn?
    || step.EchoCall? || step.EchoPush? || step.EchoCopy? || step.EchoRet? || step.EchoActed?
  }

  function GApply(g: Gateway, step: GStep): Gateway
    requires Ready(g) && GEnabled(g, step)
  {
    if ByServer(step) then ServerApply(g, step)
    else if ByEcho(step) then EchoApply(g, step)
    else RecvApply(g, step)
  }

  /** A device just constructed: both queues fresh and of the same dimensions, no thread running. */
  predicate GInit(g: Gateway) {
    && Init(g.toTun) && Init(g.fromTun) && g.toTun.cfg == g.fromTun.cfg
    && g.server == SIdle && g.echo == EOff && !g.running
    && g.received == [] && g.out == []
    && g.carried1 == [] && g.carried2 == [] && g.lost1 == [] && g.lost2 == []
  }
}
