/**
 Model of packet_statistic.hpp: twelve counters kept as a window (`current`) and a running
 `total`, and a `collect` that closes the window.
 */
module PacketStatistics {

  datatype Counter =
    | AllocFailed | AllocOk | PushActionFailed | PopActionFailed
    | PushTimeout | PopTimeout | PushPacketSize | PopPacketSize
    | PushOk | PopOk | PopEmpty | PushFailed

  datatype Data = Data(
    allocFailed: nat, allocOk: nat, pushActionFailed: nat, popActionFailed: nat,
    pushTimeout: nat, popTimeout: nat, pushPacketSize: nat, popPacketSize: nat,
    pushOk: nat, popOk: nat, popEmpty: nat, pushFailed: nat)
  {
    /** `++current.x` and `current.x += n`. */
    function Add(c: Counter, n: nat): Data {
      match c
      case AllocFailed => this.(allocFailed := allocFailed + n)
      case AllocOk => this.(allocOk := allocOk + n)
      case PushActionFailed => this.(pushActionFailed := pushActionFailed + n)
      case PopActionFailed => this.(popActionFailed := popActionFailed + n)
      case PushTimeout => this.(pushTimeout := pushTimeout + n)
      case PopTimeout => this.(popTimeout := popTimeout + n)
      case PushPacketSize => this.(pushPacketSize := pushPacketSize + n)
      case PopPacketSize => this.(popPacketSize := popPacketSize + n)
      case PushOk => this.(pushOk := pushOk + n)
      case PopOk => this.(popOk := popOk + n)
      case PopEmpty => this.(popEmpty := popEmpty + n)
      case PushFailed => this.(pushFailed := pushFailed + n)
    }

    function Get(c: Counter): nat {
      match c
      case AllocFailed => allocFailed
      case AllocOk => allocOk
      case PushActionFailed => pushActionFailed
      case PopActionFailed => popActionFailed
      case PushTimeout => pushTimeout
      case PopTimeout => popTimeout
      case PushPacketSize => pushPacketSize
      case PopPacketSize => popPacketSize
      case PushOk => pushOk
      case PopOk => popOk
      case PopEmpty => popEmpty
      case PushFailed => pushFailed
    }

    /** The twelve `+=` lines of `collect`. */
    function Plus(d: Data): Data {
      Data(allocFailed + d.allocFailed, allocOk + d.allocOk,
           pushActionFailed + d.pushActionFailed, popActionFailed + d.popActionFailed,
           pushTimeout + d.pushTimeout, popTimeout + d.popTimeout,
           pushPacketSize + d.pushPacketSize, popPacketSize + d.popPacketSize,
           pushOk + d.pushOk, popOk + d.popOk, popEmpty + d.popEmpty, pushFailed + d.pushFailed)
    }
  }

  const ZERO := Data(0, 0, 0, 0, 0, 0, 0, 0, 0, 0, 0, 0)

  /** The counters of one `PacketStatistic`, as a value. */
  datatype Stat = Stat(current: Data, total: Data) {
    function Add(c: Counter, n: nat): Stat {
      this.(current := current.Add(c, n))
    }

    /** What `collect` leaves behind. */
    function Collected(): Stat {
      Stat(ZERO, total.Plus(current))
    }

    /** What `collect` returns: the closed window, and the total that already includes it. */
    function Window(): Stat {
      Stat(current, total.Plus(current))
    }

    /** Everything ever counted, whichever side of the last `collect` it fell on. */
    function Life(): Data {
      total.Plus(current)
    }
  }

  const FRESH := Stat(ZERO, ZERO)

  class PacketStatistic {
    var started: int
    var current: Data
    var total: Data

    function View(): Stat
      reads this
    {
      Stat(current, total)
    }

    constructor (now: int)
      ensures View() == FRESH && started == now
    {
      started, current, total := now, ZERO, ZERO;
    }

    /** All of `inc*` (`n == 1`) and `add*`. */
    method Add(c: Counter, n: nat)
      modifies this`current
      ensures View() == old(View()).Add(c, n)
    {
      current := current.Add(c, n);
    }

    method Collect(now: int) returns (ret: PacketStatistic)
      modifies this
      ensures fresh(ret)
      ensures View() == old(View()).Collected() && started == now
      ensures ret.View() == old(View()).Window() && ret.started == old(started)
    {
      ret := new PacketStatistic(now);
      ret.current, current := current, ret.current;
      ret.started, started := started, ret.started;
      assert ret.current == old(current) && total == old(total);
      total := total.Plus(ret.current);
      ret.total := total;
    }
  }

  lemma FreshLife()
    ensures FRESH.Life() == ZERO
  {
  }

  /** Lifetime counts see every bump and no collect. */
  lemma LifeSteps(s: Stat, c: Counter, n: nat)
    ensures s.Add(c, n).Life() == s.Life().Add(c, n)
    ensures s.Collected().Life() == s.Life()
  {
  }

  /** Bumps of one counter add up. */
  lemma AddAgain(s: Stat, c: Counter, m: nat, n: nat)
    ensures s.Add(c, 0) == s
    ensures s.Add(c, m).Add(c, n) == s.Add(c, m + n)
  {
  }

  // ---------------------------------------------------------------- runs of counting and collecting

  datatype Event = Count(c: Counter, n: nat) | Collect

  function After(es: seq<Event>): Stat {
    if es == [] then FRESH
    else
      var s := After(es[..|es| - 1]);
      match es[|es| - 1]
      case Count(c, n) => s.Add(c, n)
      case Collect => s.Collected()
  }

  /** The windows handed out by the collects of a run, oldest first. */
  function Windows(es: seq<Event>): seq<Data> {
    if es == [] then []
    else
      var init := es[..|es| - 1];
      if es[|es| - 1].Collect? then Windows(init) + [After(init).Window().current] else Windows(init)
  }

  /** By how much counter `c` was bumped in a run, counted from its events alone. */
  function Happened(es: seq<Event>, c: Counter): nat {
    if es == [] then 0
    else
      var last := es[|es| - 1];
      Happened(es[..|es| - 1], c) + if last.Count? && last.c == c then last.n else 0
  }

  function SumOf(ws: seq<Data>, c: Counter): nat {
    if ws == [] then 0 else SumOf(ws[..|ws| - 1], c) + ws[|ws| - 1].Get(c)
  }

  /** Adding to one counter is seen by that counter alone. */
  lemma AddGet(d: Data, c: Counter, n: nat, k: Counter)
    ensures d.Add(c, n).Get(k) == d.Get(k) + if k == c then n else 0
  {
    match c {
      case AllocFailed => case AllocOk => case PushActionFailed => case PopActionFailed =>
      case PushTimeout => case PopTimeout => case PushPacketSize => case PopPacketSize =>
      case PushOk => case PopOk => case PopEmpty => case PushFailed =>
    }
  }

  /** The counters by their names. */
  lemma GetNames(d: Data)
    ensures d.Get(AllocFailed) == d.allocFailed && d.Get(AllocOk) == d.allocOk
    ensures d.Get(PushActionFailed) == d.pushActionFailed && d.Get(PopActionFailed) == d.popActionFailed
    ensures d.Get(PushTimeout) == d.pushTimeout && d.Get(PopTimeout) == d.popTimeout
    ensures d.Get(PushPacketSize) == d.pushPacketSize && d.Get(PopPacketSize) == d.popPacketSize
    ensures d.Get(PushOk) == d.pushOk && d.Get(PopOk) == d.popOk
    ensures d.Get(PopEmpty) == d.popEmpty && d.Get(PushFailed) == d.pushFailed
  {
  }

  lemma PlusGet(a: Data, b: Data, k: Counter)
    ensures a.Plus(b).Get(k) == a.Get(k) + b.Get(k)
    ensures ZERO.Get(k) == 0
  {
    match k {
      case AllocFailed => case AllocOk => case PushActionFailed => case PopActionFailed =>
      case PushTimeout => case PopTimeout => case PushPacketSize => case PopPacketSize =>
      case PushOk => case PopOk => case PopEmpty => case PushFailed =>
    }
  }

  /**
   No event is lost or counted twice, however the collects fall: what really happened is the
   running total plus the open window, and the running total is exactly the windows handed out.
   */
  lemma {:induction false} WindowedConservation(es: seq<Event>, k: Counter)
    ensures After(es).total.Get(k) + After(es).current.Get(k) == Happened(es, k)
    ensures After(es).total.Get(k) == SumOf(Windows(es), k)
  {
    if es == [] {
    } else {
      var init := es[..|es| - 1];
      WindowedConservation(init, k);
      var s := After(init);
      match es[|es| - 1]
      case Count(c, n) => AddGet(s.current, c, n, k);
      case Collect =>
        PlusGet(s.total, s.current, k);
        var ws := Windows(init);
        assert (ws + [s.current])[..|ws|] == ws;
    }
  }

  /** A window holds exactly what happened since the previous collect. */
  lemma {:induction false} WindowIsRecent(before: seq<Event>, since: seq<Event>, k: Counter)
    requires forall e :: e in since ==> e.Count?
    ensures After(before + [Collect] + since).current.Get(k) == Happened(since, k)
  {
    var all := before + [Collect] + since;
    if since == [] {
      assert all[..|all| - 1] == before;
      PlusGet(ZERO, ZERO, k);
    } else {
      var init := since[..|since| - 1];
      WindowIsRecent(before, init, k);
      assert all[..|all| - 1] == before + [Collect] + init;
      var last := since[|since| - 1];
      assert all[|all| - 1] == last && last in since;
      AddGet(After(before + [Collect] + init).current, last.c, last.n, k);
    }
  }

  /**
   Collecting the copy that a collect returned counts its window twice: the reported total is the
   running total plus the last window again. The collected object itself is not affected.
   */
  lemma DoubleCollect(s: Stat, k: Counter)
    ensures s.Window().Window().total.Get(k) == s.Collected().total.Get(k) + s.current.Get(k)
    ensures s.Window().Window().current == s.current
    ensures s.Window().Window().total == s.Collected().total <==> s.current == ZERO
  {
    PlusGet(s.total.Plus(s.current), s.current, k);
  }
}
