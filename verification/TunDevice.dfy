/** Model of tun_device.hpp, one call at a time: two queues of equal mtu and the echo thread's loop body. */
module TunDevices {
  import opened Common
  import opened Backoff
  import opened PacketBuffers
  import opened PacketStatistics
  import opened PacketQueues

  /** `memcpy` of `bytes` to the start of a slot, reporting their number. */
  function CopyInto(bytes: Bytes): PushAction {
    stale => if |bytes| <= |stale| then Outcome(bytes + stale[|bytes|..], |bytes|) else Outcome(stale, 0)
  }

  lemma CopyIntoFits(bytes: Bytes, mtu: nat)
    requires |bytes| <= mtu
    ensures Fits(CopyInto(bytes), mtu)
    ensures forall stale: Bytes :: |stale| == mtu ==>
      CopyInto(bytes)(stale).ret == |bytes| && CopyInto(bytes)(stale).slot[..|bytes|] == bytes
  {
  }

  /** The JSON report, but for the interface addresses. */
  datatype Report = Report(
    seq_: nat, timeHere: string, running: bool, tunDevName: string, fromTun: Stat, toTun: Stat)

  class TunDevice {
    var seq_: nat
    var running: bool
    var tunDevName: string
    const fromTun: PacketQueue
    const toTun: PacketQueue

    /** Nothing of one queue is part of the other. */
    ghost predicate Apart() {
      && fromTun != toTun && fromTun.ps != toTun.ps
      && fromTun.pb.buffer != toTun.pb.buffer
      && forall p :: p in fromTun.pb.packets ==> p !in toTun.pb.packets
    }

    ghost predicate Valid()
      reads fromTun, toTun, fromTun.pb.packets, toTun.pb.packets
    {
      && Apart()
      && fromTun.Valid() && toTun.Valid()
      && fromTun.pb.mtu == toTun.pb.mtu
    }

    /** A queue as the constructor leaves it. */
    static ghost predicate Fresh(q: PacketQueue, mtu: nat, qSize: nat)
      reads q, q.pb.packets, q.pb.buffer, q.ps
    {
      && q.Valid() && q.Contents() == [] && q.ps.View() == FRESH
      && q.pb.mtu == mtu && q.pb.size == qSize && q.blockWait == 100
    }

    constructor (mtu: nat, qSize: nat, now: int)
      ensures Valid() && !running && seq_ == 0 && tunDevName == ""
      ensures Fresh(fromTun, mtu, qSize) && Fresh(toTun, mtu, qSize)
      ensures fresh(fromTun) && fresh(fromTun.pb.packets) && fresh(fromTun.pb.buffer) && fresh(fromTun.ps)
      ensures fresh(toTun) && fresh(toTun.pb.packets) && fresh(toTun.pb.buffer) && fresh(toTun.ps)
    {
      seq_, running, tunDevName := 0, false, "";
      fromTun := new PacketQueue(mtu, qSize, 100, now);
      toTun := new PacketQueue(mtu, qSize, 100, now);
    }

    /**
     One turn of the echo loop: the oldest packet of `toTun` moves, byte for byte, to the end of
     `fromTun` if that has room, and is dropped, as a failed pop action and a push timeout, if not.
     */
    method EchoOnce(wakes: nat) returns (ok: bool)
      requires Valid()
      modifies fromTun`q, fromTun.pb.packets, fromTun.pb.buffer, fromTun.ps
      modifies toTun`q, toTun.pb.packets, toTun.ps
      ensures Valid()
      ensures ok == (old(toTun.Contents()) != [])
      ensures !ok ==>
        && toTun.Contents() == [] && toTun.ps.View() == Waited(old(toTun.ps.View()), wakes)
        && fromTun.Contents() == old(fromTun.Contents()) && fromTun.ps.View() == old(fromTun.ps.View())
      ensures ok ==>
        var head, room := old(toTun.Contents())[0], old(fromTun.Grants());
        && toTun.Contents() == old(toTun.Contents())[1..]
        && fromTun.Contents() == old(fromTun.Contents()) + (if room then [head] else [])
        && toTun.ps.View() == PopCounted(old(toTun.ps.View()), |head|, if room then 1 else -1)
        && fromTun.ps.View() == PushCounted(old(fromTun.ps.View()), room, fromTun.blockWait, |head|)
    {
      hide Stat.Add, PushCounted, Waited, PacketBuffer.Valid, PacketBuffer.Used, PacketBuffer.SlotBytes, FirstFree;
      var inPkt := toTun.Await(wakes);
      if inPkt == null {
        return false;
      }
      Echo(inPkt);
      return true;
    }

    /** The pop action of the echo thread, and what `pop` does after it. */
    method Echo(inPkt: Packet)
      requires Apart() && toTun.Owned({inPkt}) && inPkt.used && 0 < inPkt.size <= toTun.pb.mtu
      requires fromTun.Valid() && fromTun.pb.mtu == toTun.pb.mtu
      modifies fromTun`q, fromTun.pb.packets, fromTun.pb.buffer, fromTun.ps
      modifies inPkt`used, toTun.ps
      ensures Valid()
      ensures toTun.Contents() == old(toTun.Contents({inPkt}))
      ensures var bytes, room := old(toTun.Payload(inPkt)), old(fromTun.Grants());
        && fromTun.Contents() == old(fromTun.Contents()) + (if room then [bytes] else [])
        && toTun.ps.View() == old(toTun.ps.View()).Add(if room then PopOk else PopActionFailed, 1)
        && fromTun.ps.View() == PushCounted(old(fromTun.ps.View()), room, fromTun.blockWait, |bytes|)
    {
      hide Stat.Add, PushCounted, PacketQueue.Contents, PacketBuffer.Valid, PacketBuffer.Used, PacketBuffer.SlotBytes;
      hide FirstFree;
      var bytes := toTun.pb.Read(inPkt, inPkt.size);
      var pushed := Forward(inPkt, bytes);
      toTun.GiveBack(inPkt, if pushed then PopOk else PopActionFailed);
    }

    /** The nested push; the packet being echoed and the rest of `toTun` stay as they are. */
    method Forward(inPkt: Packet, bytes: Bytes) returns (ok: bool)
      requires Apart() && toTun.Owned({inPkt}) && inPkt.used
      requires fromTun.Valid() && 0 < |bytes| <= fromTun.pb.mtu
      modifies fromTun`q, fromTun.pb.packets, fromTun.pb.buffer, fromTun.ps
      ensures toTun.Owned({inPkt}) && inPkt.used
      ensures toTun.Contents({inPkt}) == old(toTun.Contents({inPkt})) && toTun.ps.View() == old(toTun.ps.View())
      ensures fromTun.Valid()
      ensures ok == old(fromTun.Grants())
      ensures fromTun.Contents() == old(fromTun.Contents()) + (if ok then [bytes] else [])
      ensures fromTun.ps.View() == PushCounted(old(fromTun.ps.View()), ok, fromTun.blockWait, |bytes|)
    {
      hide PushCounted, FirstFree, PacketBuffer.Used;
      ok := PushCopy(fromTun, bytes);
    }

    /** A push whose action copies `bytes` into the slot it gets. */
    static method PushCopy(q: PacketQueue, bytes: Bytes) returns (ok: bool)
      requires q.Valid() && 0 < |bytes| <= q.pb.mtu
      modifies q`q, q.pb.packets, q.pb.buffer, q.ps
      ensures q.Valid()
      ensures ok == old(q.Grants())
      ensures q.Contents() == old(q.Contents()) + (if ok then [bytes] else [])
      ensures q.ps.View() == PushCounted(old(q.ps.View()), ok, q.blockWait, |bytes|)
    {
      hide Delivered, FirstFree, Attempts, PacketBuffer.Used;
      CopyIntoFits(bytes, q.pb.mtu);
      hide CopyInto;
      ok := q.Push(CopyInto(bytes));
    }

    /**
     Each queue's report is collected a second time, so the total it shows counts the last window
     twice, while the queue itself has counted it once.
     */
    method AsJson(now: int, timeHere: string) returns (report: Report)
      requires Valid()
      modifies this`seq_, fromTun.ps, toTun.ps
      ensures Valid() && seq_ == old(seq_) + 1
      ensures fromTun.ps.View() == old(fromTun.ps.View()).Collected()
      ensures toTun.ps.View() == old(toTun.ps.View()).Collected()
      ensures var from, to := old(fromTun.ps.View()), old(toTun.ps.View());
        report == Report(seq_, timeHere, running, tunDevName, from.Window().Window(), to.Window().Window())
      ensures forall k: Counter :: report.toTun.total.Get(k) == toTun.ps.total.Get(k) + report.toTun.current.Get(k)
      ensures forall k: Counter ::
        report.fromTun.total.Get(k) == fromTun.ps.total.Get(k) + report.fromTun.current.Get(k)
    {
      seq_ := seq_ + 1;
      var from := Reported(fromTun.ps, now);
      var to := Reported(toTun.ps, now);
      report := Report(seq_, timeHere, running, tunDevName, from, to);
    }

    /** `getStatistic().collect()` */
    static method Reported(ps: PacketStatistic, now: int) returns (s: Stat)
      modifies ps
      ensures ps.View() == old(ps.View()).Collected()
      ensures s == old(ps.View()).Window().Window()
      ensures forall k: Counter :: s.total.Get(k) == ps.total.Get(k) + s.current.Get(k)
    {
      ghost var before := ps.View();
      var window := ps.Collect(now);
      var again := window.Collect(now);
      s := again.View();
      forall k: Counter
        ensures s.total.Get(k) == ps.total.Get(k) + s.current.Get(k)
      {
        DoubleCollect(before, k);
        assert s == before.Window().Window() && ps.total == before.Collected().total;
      }
    }
  }
}
