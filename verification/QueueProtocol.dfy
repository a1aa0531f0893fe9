/**
 Model of packet_queue.hpp under concurrency: one thread inside `push`, one thread inside `pop`, and
 any thread collecting the statistics, interleaved at every access to shared state. Memory is
 sequentially consistent, the Boost ring is a bounded FIFO of `size` entries, and `collect` is atomic.
 */
module QueueProtocol {
  import opened Common
  import opened PacketLayout
  import opened Backoff
  import opened PacketStatistics

  datatype Config = Config(mtu: nat, size: nat, blockWait: nat)

  /**
   The loop variables of `push`. `tries` counts the failed attempts of this call and `before` is the
   lifetime value of `allocFailed` when the call began; both are history.
   */
  datatype Loop = Loop(wait: nat, tw: nat, tries: nat, before: nat)

  /** Where the pushing thread is. `start` is history: the used flags when the running scan began. */
  datatype Producer =
    | PIdle
    | PHead(l: Loop)                            // line 50: tw < blockWait ?
    | PScan(i: nat, l: Loop, start: seq<bool>)  // alloc: read packets[i].used
    | PMark(i: nat, l: Loop, start: seq<bool>)  // alloc: packet.used = true
    | PMissed(l: Loop, start: seq<bool>)        // line 73: incAllocFailed
    | PNap(l: Loop)                             // lines 75 to 78
    | PGot(x: nat, start: seq<bool>)            // line 53: incAllocOk
    | PFill(x: nat)                             // line 54: inside the action
    | PAddSize(x: nat, ret: nat)                // line 56: addPushPacketSize
    | PSetSize(x: nat, ret: nat)                // line 57: packet->size = ret
    | PRing(x: nat)                             // line 58: q.push
    | PNotify                                   // line 59: notify_one
    | PCountOk                                  // line 60: incPushOk
    | PUndo(x: nat)                             // line 63: free after a refused q.push
    | PCountFailed                              // line 64: incPushFailed
    | PReject(x: nat)                           // line 68: free after a failed action
    | PCountReject                              // line 69: incPushActionFailed
    | PTimeout(l: Loop)                         // line 80: incPushTimeout
    | PDone(ok: bool)                           // about to return

  /**
   Where the popping thread is. `base` (packets handed out when the call began), `seen` (packets
   accepted when the ring was last found empty) and `since` (notifies issued when the wait began) are
   history.
   */
  datatype Consumer =
    | CIdle
    | CTry(base: nat)                           // line 87: q.pop
    | CGot(x: nat)                              // line 89: addPopPacketSize
    | CAct(x: nat)                              // line 90: inside the action
    | CCount(x: nat, ok: bool)                  // lines 91 and 93
    | CFree(x: nat)                             // line 95: free
    | CEmpty(base: nat, seen: nat)              // line 98: incPopEmpty
    | CLock(base: nat, seen: nat)               // lines 100 and 101: lock and begin to wait
    | CWait(base: nat, seen: nat, since: nat)   // line 101: inside wait_for
    | CWoken(base: nat)                         // wait_for returned no_timeout
    | CTimeout(base: nat, seen: nat)            // line 102: incPopTimeout
    | CTrue
    | CFalse(base: nat, seen: nat)

  /**
   Shared memory, both threads, and history: the byte strings accepted by `q.push` and handed to pop
   actions so far, the notifies issued, and the waits that ended by a notify or spuriously.
   */
  datatype State = State(
    cfg: Config,
    used: seq<bool>, sizes: seq<nat>, buf: Bytes,
    ring: seq<nat>,
    p: Producer, c: Consumer,
    ps: Stat,
    accepted: seq<Bytes>, handed: seq<Bytes>,
    notifies: nat, woken: nat, spurious: nat)
  {
    function Bump(k: Counter, n: nat): State {
      this.(ps := ps.Add(k, n))
    }

    /** The current bytes of slot `x`, as long as its size field says. */
    function Packet(x: nat): Bytes
      requires |sizes| == cfg.size && x < cfg.size && sizes[x] <= cfg.mtu && |buf| == Offset(cfg.mtu, cfg.size)
    {
      SlotInside(cfg.mtu, x, cfg.size);
      Slot(cfg.mtu, buf, x, sizes[x])
    }
  }

  datatype Step =
    | PushCall | PStep | Write(off: nat, b: byte) | ActionRet(ret: int) | PushReturn
    | PopCall | CStep | PopRet(result: int) | SpuriousWake | Expire | PopReturn
    | CollectNow

  // ---------------------------------------------------------------- ownership and shape

  function PSlots(p: Producer): seq<nat> {
    match p
    case PGot(x, _) => [x]
    case PFill(x) => [x]
    case PAddSize(x, _) => [x]
    case PSetSize(x, _) => [x]
    case PRing(x) => [x]
    case PUndo(x) => [x]
    case PReject(x) => [x]
    case _ => []
  }

  function CSlots(c: Consumer): seq<nat> {
    match c
    case CGot(x) => [x]
    case CAct(x) => [x]
    case CCount(x, _) => [x]
    case CFree(x) => [x]
    case _ => []
  }

  /** The consumer's slot, the ring's slots from oldest to newest, the producer's slot. */
  function Owned(s: State): seq<nat> {
    CSlots(s.c) + s.ring + PSlots(s.p)
  }

  /** The memory has the layout the constructor gave it. */
  predicate Memory(s: State) {
    && |s.used| == |s.sizes| == s.cfg.size
    && |s.buf| == Offset(s.cfg.mtu, s.cfg.size)
  }

  /** Slot `x` exists and its size field respects the mtu. */
  predicate Filled(s: State, x: nat)
    requires Memory(s)
  {
    x < s.cfg.size && 0 < s.sizes[x] <= s.cfg.mtu
  }

  /** Every slot somebody refers to exists, and sizes in use respect the mtu. */
  ghost predicate Shape(s: State) {
    && Memory(s)
    && (forall k :: 0 <= k < |s.ring| ==> Filled(s, s.ring[k]))
    && (match s.p
        case PScan(i, _, start) => i <= s.cfg.size && |start| == s.cfg.size
        case PMark(i, _, start) => i < s.cfg.size && |start| == s.cfg.size
        case PMissed(_, start) => |start| == s.cfg.size
        case PGot(x, start) => x < s.cfg.size && |start| == s.cfg.size
        case PFill(x) => x < s.cfg.size
        case PAddSize(x, ret) => x < s.cfg.size && 0 < ret <= s.cfg.mtu
        case PSetSize(x, ret) => x < s.cfg.size && 0 < ret <= s.cfg.mtu
        case PRing(x) => Filled(s, x)
        case PUndo(x) => x < s.cfg.size
        case PReject(x) => x < s.cfg.size
        case _ => true)
    && (match s.c
        case CGot(x) => Filled(s, x)
        case CAct(x) => Filled(s, x)
        case CCount(x, _) => Filled(s, x)
        case CFree(x) => Filled(s, x)
        case _ => true)
  }

  // ---------------------------------------------------------------- the steps

  predicate Enabled(s: State, step: Step) {
    match step
    case PushCall => s.p.PIdle?
    case PStep => !s.p.PIdle? && !s.p.PFill? && !s.p.PDone?
    case Write(off, _) => s.p.PFill? && off < s.cfg.mtu
    case ActionRet(ret) => s.p.PFill? && ret <= s.cfg.mtu
    case PushReturn => s.p.PDone?
    case PopCall => s.c.CIdle?
    case CStep =>
      || s.c.CTry? || s.c.CGot? || s.c.CCount? || s.c.CFree?
      || s.c.CEmpty? || s.c.CLock? || s.c.CWoken? || s.c.CTimeout?
    case PopRet(_) => s.c.CAct?
    case SpuriousWake => s.c.CWait?
    case Expire => s.c.CWait?
    case PopReturn => s.c.CTrue? || s.c.CFalse?
    case CollectNow => true
  }

  /** The pushing thread runs on to its next access. */
  function Produce(s: State): State
    requires Shape(s) && Enabled(s, PStep)
  {
    match s.p
    case PHead(l) =>
      s.(p := if l.tw < s.cfg.blockWait then PScan(0, l, s.used) else PTimeout(l))
    case PScan(i, l, start) =>
      s.(p := if i == s.cfg.size then PMissed(l, start)
              else if s.used[i] then PScan(i + 1, l, start)
              else PMark(i, l, start))
    case PMark(i, l, start) =>
      s.(used := s.used[i := true], p := PGot(i, start))
    case PMissed(l, _) =>
      s.Bump(AllocFailed, 1).(p := PNap(l.(tries := l.tries + 1)))
    case PNap(l) =>
      var wait := Min(l.wait, CAP);
      s.(p := PHead(l.(wait := wait + STEP, tw := l.tw + wait)))
    case PGot(x, _) =>
      s.Bump(AllocOk, 1).(p := PFill(x))
    case PAddSize(x, ret) =>
      s.Bump(PushPacketSize, ret).(p := PSetSize(x, ret))
    case PSetSize(x, ret) =>
      s.(sizes := s.sizes[x := ret], p := PRing(x))
    case PRing(x) =>
      if |s.ring| < s.cfg.size
      then s.(ring := s.ring + [x], accepted := s.accepted + [s.Packet(x)], p := PNotify)
      else s.(p := PUndo(x))
    case PNotify =>
      if s.c.CWait?
      then s.(notifies := s.notifies + 1, woken := s.woken + 1, c := CWoken(s.c.base), p := PCountOk)
      else s.(notifies := s.notifies + 1, p := PCountOk)
    case PCountOk =>
      s.Bump(PushOk, 1).(p := PDone(true))
    case PUndo(x) =>
      s.(used := s.used[x := false], p := PCountFailed)
    case PCountFailed =>
      s.Bump(PushFailed, 1).(p := PDone(false))
    case PReject(x) =>
      s.(used := s.used[x := false], p := PCountReject)
    case PCountReject =>
      s.Bump(PushActionFailed, 1).(p := PDone(false))
    case PTimeout(_) =>
      s.Bump(PushTimeout, 1).(p := PDone(false))
  }

  /** The popping thread runs on to its next access. */
  function Consume(s: State): State
    requires Shape(s) && Enabled(s, CStep)
  {
    match s.c
    case CTry(base) =>
      if s.ring != []
      then s.(ring := s.ring[1..], handed := s.handed + [s.Packet(s.ring[0])], c := CGot(s.ring[0]))
      else s.(c := CEmpty(base, |s.accepted|))
    case CGot(x) =>
      s.Bump(PopPacketSize, s.sizes[x]).(c := CAct(x))
    case CCount(x, ok) =>
      s.Bump(if ok then PopOk else PopActionFailed, 1).(c := CFree(x))
    case CFree(x) =>
      s.(used := s.used[x := false], c := CTrue)
    case CEmpty(base, seen) =>
      s.Bump(PopEmpty, 1).(c := CLock(base, seen))
    case CLock(base, seen) =>
      s.(c := CWait(base, seen, s.notifies))
    case CWoken(base) =>
      s.(c := CTry(base))
    case CTimeout(base, seen) =>
      s.Bump(PopTimeout, 1).(c := CFalse(base, seen))
  }

  function Apply(s: State, step: Step): State
    requires Shape(s) && Enabled(s, step)
  {
    match step
    case PushCall => s.(p := PHead(Loop(0, 0, 0, s.ps.Life().allocFailed)))
    case PStep => Produce(s)
    case Write(off, b) =>
      SlotInside(s.cfg.mtu, s.p.x, s.cfg.size);
      s.(buf := s.buf[Offset(s.cfg.mtu, s.p.x) + off := b])
    case ActionRet(ret) => s.(p := if ret > 0 then PAddSize(s.p.x, ret) else PReject(s.p.x))
    case PushReturn => s.(p := PIdle)
    case PopCall => s.(c := CTry(|s.handed|))
    case CStep => Consume(s)
    case PopRet(result) => s.(c := CCount(s.c.x, result >= 0))
    case SpuriousWake => s.(c := CWoken(s.c.base), spurious := s.spurious + 1)
    case Expire => s.(c := CTimeout(s.c.base, s.c.seen))
    case PopReturn => s.(c := CIdle)
    case CollectNow => s.(ps := s.ps.Collected())
  }

  predicate Init(s: State) {
    && Memory(s)
    && (forall i :: 0 <= i < |s.used| ==> !s.used[i])
    && s.ring == [] && s.p == PIdle && s.c == CIdle && s.ps == FRESH
    && s.accepted == [] && s.handed == []
    && s.notifies == 0 && s.woken == 0 && s.spurious == 0
  }
}
