/** Model of packet_queue.hpp, one call at a time: `push` and `pop` without interference. */
module PacketQueues {
  import opened Common
  import opened Backoff
  import opened PacketBuffers
  import opened PacketStatistics

  /** What a push action does to the slot it is given: the slot's bytes afterwards, and its result. */
  datatype Outcome = Outcome(slot: Bytes, ret: int)

  type PushAction = Bytes -> Outcome
  type PopAction = Bytes -> int

  /** An action stays inside its slot and reports no more than the slot holds. */
  ghost predicate Fits(action: PushAction, mtu: nat) {
    forall stale: Bytes :: |stale| == mtu ==> |action(stale).slot| == mtu && action(stale).ret <= mtu
  }

  /**
   The counters after a push: without a slot (none free, or no patience) every attempt is a failed
   allocation, and with one the action's result decides.
   */
  function PushCounted(before: Stat, granted: bool, blockWait: nat, ret: int): Stat {
    if !granted then before.Add(AllocFailed, Attempts(blockWait)).Add(PushTimeout, 1)
    else Delivered(before.Add(AllocOk, 1), ret)
  }

  function Delivered(before: Stat, ret: int): Stat {
    if ret > 0 then before.Add(PushPacketSize, ret).Add(PushOk, 1) else before.Add(PushActionFailed, 1)
  }

  /** The counters after a pop that found a packet of `size` bytes. */
  function PopCounted(before: Stat, size: nat, ret: int): Stat {
    before.Add(PopPacketSize, size).Add(if ret >= 0 then PopOk else PopActionFailed, 1)
  }

  /** The counters after a pop that found nothing, woken `wakes` times before it timed out. */
  function Waited(before: Stat, wakes: nat): Stat {
    before.Add(PopEmpty, wakes + 1).Add(PopTimeout, 1)
  }

  /** What a push counts, counter by counter; the total does not move before a collect. */
  lemma PushCountedExactly(before: Stat, granted: bool, blockWait: nat, ret: int, k: Counter)
    ensures var after := PushCounted(before, granted, blockWait, ret);
      && after.total == before.total
      && after.current.Get(k) - before.current.Get(k) == (
           match k
           case AllocFailed => if granted then 0 else Attempts(blockWait)
           case PushTimeout => if granted then 0 else 1
           case AllocOk => if granted then 1 else 0
           case PushPacketSize => if granted && ret > 0 then ret else 0
           case PushOk => if granted && ret > 0 then 1 else 0
           case PushActionFailed => if granted && ret <= 0 then 1 else 0
           case _ => 0)
  {
    hide Attempts;
  }

  /** What a pop counts. */
  lemma PopCountedExactly(before: Stat, size: nat, ret: int, wakes: nat, k: Counter)
    ensures var found, empty := PopCounted(before, size, ret), Waited(before, wakes);
      && found.total == empty.total == before.total
      && found.current.Get(k) - before.current.Get(k) == (
           match k
           case PopPacketSize => size
           case PopOk => if ret >= 0 then 1 else 0
           case PopActionFailed => if ret < 0 then 1 else 0
           case _ => 0)
      && empty.current.Get(k) - before.current.Get(k) == (
           match k
           case PopEmpty => wakes + 1
           case PopTimeout => 1
           case _ => 0)
  {
  }

  class PacketQueue {
    const pb: PacketBuffer
    const ps: PacketStatistic
    /** The Boost ring, as a bounded FIFO of `pb.size` entries. */
    var q: seq<Packet>
    const blockWait: nat

    /**
     The slots in use are those in the ring, without repetition, and the one in `held`, if any;
     every queued packet has 0 < size <= mtu.
     */
    ghost predicate Owned(held: set<Packet>)
      reads this, pb.packets
    {
      && pb.Valid()
      && NoDup(q)
      && (forall p :: p in q ==> p in pb.packets && p !in held && 0 < p.size <= pb.mtu)
      && held <= (set p | p in pb.packets)
      && (forall p :: p in pb.packets ==> (p.used <==> p in q || p in held))
    }

    /** The state between calls. */
    ghost predicate Valid()
      reads this, pb.packets
    {
      Owned({})
    }

    ghost function Payload(p: Packet): Bytes
      requires pb.Valid() && p in pb.packets && p.size <= pb.mtu
      reads pb.packets, pb.buffer
    {
      pb.SlotBytes(p.idx)[..p.size]
    }

    /** The queue as its users see it: the byte strings waiting, oldest first. */
    ghost function Contents(held: set<Packet> := {}): (c: seq<Bytes>)
      requires Owned(held)
      reads this, pb.packets, pb.buffer
      ensures |c| == |q|
    {
      seq(|q|, k requires 0 <= k < |q| && Owned(held) reads this, pb.packets, pb.buffer => Payload(q[k]))
    }

    constructor (mtu: nat, size: nat, blockWait: nat, now: int)
      ensures Valid() && Contents() == []
      ensures pb.mtu == mtu && pb.size == size && this.blockWait == blockWait && ps.View() == FRESH
      ensures fresh(pb.packets) && fresh(pb.buffer) && fresh(ps)
    {
      pb := new PacketBuffer(mtu, size);
      ps := new PacketStatistic(now);
      q := [];
      this.blockWait := blockWait;
      new;
      forall p | p in pb.packets
        ensures !p.used
      {
        var k :| 0 <= k < size && pb.packets[k] == p;
        assert !pb.Used()[k];
      }
    }

    ghost function Ids(): (ids: seq<nat>)
      reads this, q
      ensures |ids| == |q|
    {
      seq(|q|, k requires 0 <= k < |q| reads this, q => q[k].idx)
    }

    lemma UsedAreQueued()
      requires Valid()
      ensures NoDup(Ids()) && forall x: nat :: x in Ids() ==> x < pb.size
      ensures forall i: nat :: i < pb.size ==> (pb.Used()[i] <==> i in Ids())
    {
      forall k | 0 <= k < |q|
        ensures Ids()[k] < pb.size && pb.packets[Ids()[k]] == q[k]
      {
        assert q[k] in q;
      }
      forall i: nat | i < pb.size
        ensures pb.Used()[i] <==> i in Ids()
      {
        var p := pb.packets[i];
        if p.used {
          var k :| 0 <= k < |q| && q[k] == p;
          assert Ids()[k] == i;
        }
      }
    }

    /** With the pool and the ring built alike, the pool is exhausted exactly when the ring is full. */
    lemma FullExactly()
      requires Valid()
      ensures |q| <= pb.size
      ensures |q| == pb.size <==> FirstFree(pb.Used()).None?
    {
      UsedAreQueued();
      var ids := Ids();
      BoundedNoDup(ids, pb.size);
      var r := FirstFree(pb.Used());
      if r.None? {
        NoDupCardinality(ids);
        var idSet := set x | x in ids;
        assert Below(pb.size) <= idSet;
        SubsetCardinality(Below(pb.size), idSet);
      } else {
        BoundedNoDup(ids + [r.value], pb.size);
      }
    }

    ghost predicate PoolFull()
      reads pb.packets
    {
      FirstFree(pb.Used()).None?
    }

    /** The bytes lying in the slot the next allocation will find. */
    ghost function Stale(): (s: Bytes)
      requires Valid() && !PoolFull()
      reads this, pb.packets, pb.buffer
      ensures |s| == pb.mtu
    {
      pb.SlotBytes(FirstFree(pb.Used()).value)
    }

    /** A push gets a slot if one is free and there is any patience at all. */
    ghost predicate Grants()
      reads pb.packets
    {
      !PoolFull() && blockWait > 0
    }

    lemma GrantsExactly()
      requires Valid()
      ensures Grants() <==> |q| < pb.size && blockWait > 0
    {
      FullExactly();
    }

    method Push(action: PushAction) returns (ok: bool)
      requires Valid() && Fits(action, pb.mtu)
      modifies this`q, pb.packets, pb.buffer, ps
      ensures Valid()
      // The call gives up after the exact number of attempts.
      ensures !old(Grants()) ==>
        && !ok && Contents() == old(Contents())
        && ps.View() == PushCounted(old(ps.View()), false, blockWait, 0)
      // The action runs once, and its bytes are appended if and only if it reports some.
      ensures old(Grants()) ==>
        var o := action(old(Stale()));
        && ok == (o.ret > 0)
        && Contents() == old(Contents()) + (if ok then [o.slot[..o.ret]] else [])
        && ps.View() == PushCounted(old(ps.View()), true, blockWait, o.ret)
    {
      hide Stat.Add, FirstFree, Attempts, Delivered, Contents, PacketBuffer.Used, PacketBuffer.SlotBytes;
      var packet := Acquire();
      if packet == null {
        return false;
      }
      var stale := pb.Read(packet, pb.mtu);
      assert stale == pb.SlotBytes(packet.idx);
      ok := Deliver(packet, action(stale));
    }

    /** The back-off loop of `push`: a slot, with the allocation counted, or the counted timeout. */
    method Acquire() returns (packet: Packet?)
      requires Valid()
      modifies pb.packets`used, ps
      ensures packet != null <==> old(Grants())
      ensures packet == null ==>
        && Valid() && Contents() == old(Contents())
        && ps.View() == PushCounted(old(ps.View()), false, blockWait, 0)
      ensures packet != null ==>
        && Owned({packet}) && packet.used && |q| < pb.size
        && Contents({packet}) == old(Contents())
        && pb.SlotBytes(packet.idx) == old(Stale())
        && ps.View() == old(ps.View()).Add(AllocOk, 1)
    {
      hide Stat.Add, FirstFree, Data.Add, Contents, PacketBuffer.Used, PacketBuffer.SlotBytes;
      AttemptsExact(blockWait);
      var wait: nat, tw: nat := 0, 0;
      ghost var k := 0;
      AddAgain(ps.View(), AllocFailed, 0, 0);
      while tw < blockWait
        invariant k <= Attempts(blockWait) && tw == Slept(k) && Min(wait, CAP) == Nap(k)
        invariant Valid() && Contents() == old(Contents()) && PoolFull() == old(PoolFull())
        invariant if PoolFull() then true else k == 0 && Stale() == old(Stale())
        invariant ps.View() == old(ps.View()).Add(AllocFailed, k)
        decreases blockWait - tw, if k == 0 then 1 else 0
      {
        packet := Attempt();
        if packet != null {
          return;
        }
        AddAgain(old(ps.View()), AllocFailed, k, 1);
        wait := Min(wait, CAP);
        tw := tw + wait;
        k := k + 1;
        wait := wait + STEP;
      }
      ps.Add(PushTimeout, 1);
      packet := null;
    }

    /** One allocation attempt, counted. */
    method Attempt() returns (packet: Packet?)
      requires Valid()
      modifies pb.packets`used, ps
      ensures packet == null <==> old(PoolFull())
      ensures packet == null ==> Valid() && Contents() == old(Contents()) && PoolFull()
      ensures packet != null ==>
        && Owned({packet}) && packet.used && |q| < pb.size
        && Contents({packet}) == old(Contents())
        && pb.SlotBytes(packet.idx) == old(Stale())
      ensures ps.View() == old(ps.View()).Add(if packet == null then AllocFailed else AllocOk, 1)
    {
      hide Stat.Add, FirstFree, PacketBuffer.Used;
      packet := Reserve();
      ps.Add(if packet == null then AllocFailed else AllocOk, 1);
    }

    /** `pb.alloc()` as the queue sees it: no queued packet is touched. */
    method Reserve() returns (packet: Packet?)
      requires Valid()
      modifies pb.packets`used
      ensures packet == null <==> old(PoolFull())
      ensures packet == null ==> Valid() && Contents() == old(Contents()) && PoolFull()
      ensures packet != null ==>
        && Owned({packet}) && packet.used && |q| < pb.size
        && Contents({packet}) == old(Contents())
        && pb.SlotBytes(packet.idx) == old(Stale())
    {
      FullExactly();
      packet := pb.Alloc();
    }

    /**
     What `push` does with the packet it got: the action has left `o.slot` in it and returned `o.ret`;
     the packet is queued or given back.
     */
    method Deliver(packet: Packet, o: Outcome) returns (ok: bool)
      requires Owned({packet}) && packet.used && |q| < pb.size
      requires |o.slot| == pb.mtu && o.ret <= pb.mtu
      modifies this`q, packet, pb.buffer, ps
      ensures Valid() && ok == (o.ret > 0)
      ensures Contents() == old(Contents({packet})) + (if ok then [o.slot[..o.ret]] else [])
      ensures ps.View() == Delivered(old(ps.View()), o.ret)
    {
      hide Stat.Add;
      Run(packet, o.slot);
      if o.ret > 0 {
        if |q| < pb.size {
          Enqueue(packet, o.ret);
          return true;
        } else {
          assert false;
        }
      } else {
        GiveBack(packet, PushActionFailed);
        return false;
      }
    }

    /** The action's writes: they reach no queued packet. */
    method Run(packet: Packet, bytes: Bytes)
      requires Owned({packet}) && |bytes| == pb.mtu
      modifies pb.buffer
      ensures pb.SlotBytes(packet.idx) == bytes
      ensures Contents({packet}) == old(Contents({packet}))
    {
      pb.Fill(packet, bytes);
      forall k | 0 <= k < |q|
        ensures Contents({packet})[k] == old(Contents({packet}))[k]
      {
        assert q[k] in q;
        assert q[k].idx != packet.idx;
      }
    }

    method Enqueue(packet: Packet, ret: nat)
      requires Owned({packet}) && packet.used && 0 < ret <= pb.mtu && |q| < pb.size
      modifies this`q, packet`size, ps
      ensures Valid()
      ensures Contents() == old(Contents({packet})) + [old(pb.SlotBytes(packet.idx))[..ret]]
      ensures ps.View() == old(ps.View()).Add(PushPacketSize, ret).Add(PushOk, 1)
    {
      hide Stat.Add;
      ps.Add(PushPacketSize, ret);
      packet.size := ret;
      q := q + [packet];
      ps.Add(PushOk, 1);
      assert forall p :: p in q <==> p in old(q) || p == packet;
    }

    /** The slot returns to the pool and the reason is counted. */
    method GiveBack(packet: Packet, outcome: Counter)
      requires Owned({packet}) && packet.used
      modifies packet`used, ps
      ensures Valid() && Contents() == old(Contents({packet}))
      ensures ps.View() == old(ps.View()).Add(outcome, 1)
    {
      packet.Free();
      ps.Add(outcome, 1);
    }

    /** The successful half of `pop` up to the action: the oldest packet leaves the ring, still used. */
    method Take() returns (pkt: Packet)
      requires Valid() && q != []
      modifies this`q, ps
      ensures Owned({pkt}) && pkt.used && 0 < pkt.size <= pb.mtu
      ensures Payload(pkt) == old(Contents())[0] && Contents({pkt}) == old(Contents())[1..]
      ensures ps.View() == old(ps.View()).Add(PopPacketSize, |old(Contents())[0]|)
    {
      pkt := q[0];
      q := q[1..];
      ps.Add(PopPacketSize, pkt.size);
    }

    method Pop(action: PopAction, wakes: nat) returns (ok: bool)
      requires Valid()
      modifies this`q, pb.packets`used, ps
      ensures Valid()
      ensures ok == (old(Contents()) != [])
      ensures ok ==>
        var head := old(Contents())[0];
        && Contents() == old(Contents())[1..]
        && ps.View() == PopCounted(old(ps.View()), |head|, action(head))
      ensures !ok ==> Contents() == [] && ps.View() == Waited(old(ps.View()), wakes)
    {
      hide Stat.Add, Waited;
      var pkt := Await(wakes);
      if pkt == null {
        return false;
      }
      var bytes := pb.Read(pkt, pkt.size);
      GiveBack(pkt, if action(bytes) >= 0 then PopOk else PopActionFailed);
      return true;
    }

    /**
     The loop of `pop` up to the action: the oldest packet, or null once the wait has timed out.
     `wakes` is how often the condition variable reports something other than a timeout before it
     reports one; without another thread only an empty ring can be found after each.
     */
    method Await(wakes: nat) returns (pkt: Packet?)
      requires Valid()
      modifies this`q, ps
      ensures pkt == null <==> old(Contents()) == []
      ensures pkt == null ==> Valid() && Contents() == [] && ps.View() == Waited(old(ps.View()), wakes)
      ensures pkt != null ==>
        && Owned({pkt}) && pkt.used && 0 < pkt.size <= pb.mtu
        && Payload(pkt) == old(Contents())[0] && Contents({pkt}) == old(Contents())[1..]
        && ps.View() == old(ps.View()).Add(PopPacketSize, |old(Contents())[0]|)
    {
      hide Stat.Add;
      AddAgain(ps.View(), PopEmpty, 0, 0);
      ghost var passes := 0;
      var left := wakes;
      while true
        invariant Valid() && q == old(q) && Contents() == old(Contents())
        invariant passes + left == wakes && (passes > 0 ==> q == [])
        invariant ps.View() == old(ps.View()).Add(PopEmpty, passes)
        decreases left
      {
        if q != [] {
          pkt := Take();
          return;
        }
        ps.Add(PopEmpty, 1);
        AddAgain(old(ps.View()), PopEmpty, passes, 1);
        if left == 0 {
          ps.Add(PopTimeout, 1);
          return null;
        }
        left, passes := left - 1, passes + 1;
      }
    }
  }
}
