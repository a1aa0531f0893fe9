/** The slot arithmetic of the `PacketBuffer` constructor (packet_buffer.hpp). */
module PacketLayout {
  import opened Common

  /** `((mtu/sizeof(size_t))+1)*sizeof(size_t)` */
  function PacketSize(mtu: nat): nat {
    (mtu / WORD + 1) * WORD
  }

  /** Where slot `i` starts in the flat buffer; `OffsetIsProduct` shows it is `i*packetSize`. */
  function Offset(mtu: nat, i: nat): nat {
    if i == 0 then 0 else Offset(mtu, i - 1) + PacketSize(mtu)
  }

  predicate HasSlot(mtu: nat, buf: Bytes, i: nat) {
    Offset(mtu, i) + mtu <= |buf|
  }

  /** The first `n` bytes of slot `i`. */
  function Slot(mtu: nat, buf: Bytes, i: nat, n: nat): (s: Bytes)
    requires n <= mtu && HasSlot(mtu, buf, i)
    ensures |s| == n
  {
    buf[Offset(mtu, i)..Offset(mtu, i) + n]
  }

  /** The slot size is the least multiple of the word size that is strictly above the mtu. */
  lemma PacketSizeBounds(mtu: nat)
    ensures PacketSize(mtu) % WORD == 0
    ensures mtu < PacketSize(mtu) <= mtu + WORD
    ensures forall m: nat :: m % WORD == 0 && mtu < m ==> PacketSize(mtu) <= m
  {
    forall m: nat | m % WORD == 0 && mtu < m
      ensures PacketSize(mtu) <= m
    {
      assert m == m / WORD * WORD;
    }
  }

  /** Slots are aligned to eight bytes: 1313 bytes take 1320. */
  lemma WordIsEight(mtu: nat)
    ensures PacketSize(mtu) == mtu - mtu % 8 + 8 && PacketSize(1313) == 1320
  {
  }

  lemma {:induction false} OffsetIsProduct(mtu: nat, i: nat)
    ensures Offset(mtu, i) == i * PacketSize(mtu)
  {
    if i > 0 {
      OffsetIsProduct(mtu, i - 1);
      assert (i - 1) * PacketSize(mtu) + PacketSize(mtu) == i * PacketSize(mtu);
    }
  }

  /** The code's `i*packetSize`, handed on as the recursive `Offset`. */
  method Start(mtu: nat, i: nat) returns (o: nat)
    ensures o == Offset(mtu, i)
  {
    OffsetIsProduct(mtu, i);
    o := i * PacketSize(mtu);
  }

  /** Slot `i`, mtu bytes long, ends strictly before any later slot begins. */
  lemma {:induction false} SlotsApart(mtu: nat, i: nat, j: nat)
    requires i < j
    ensures Offset(mtu, i) + mtu < Offset(mtu, j)
    decreases j
  {
    if i < j - 1 {
      SlotsApart(mtu, i, j - 1);
    }
  }

  /** Every slot of the pool lies inside the flat buffer. */
  lemma SlotInside(mtu: nat, i: nat, size: nat)
    requires i < size
    ensures Offset(mtu, i) + mtu < Offset(mtu, size)
  {
    SlotsApart(mtu, i, size);
  }

  /** Writing one byte of slot `i` leaves every other slot as it was. */
  lemma WriteElsewhere(mtu: nat, buf: Bytes, i: nat, off: nat, b: byte, j: nat, n: nat)
    requires off < mtu && n <= mtu && i != j
    requires HasSlot(mtu, buf, i) && HasSlot(mtu, buf, j)
    ensures Slot(mtu, buf[Offset(mtu, i) + off := b], j, n) == Slot(mtu, buf, j, n)
  {
    if i < j {
      SlotsApart(mtu, i, j);
    } else {
      SlotsApart(mtu, j, i);
    }
  }
}

/** Model of packet.hpp and packet_buffer.hpp: a fixed pool of byte slots in one flat buffer. */
module PacketBuffers {
  import opened Common
  import opened PacketLayout

  class Packet {
    var used: bool
    var idx: nat
    var size: nat
    var maxSize: nat
    /** The pointer into the flat buffer, as an index. */
    var buf: nat

    method Free()
      modifies this`used
      ensures !used
    {
      used := false;
    }
  }

  /** The slot a first-free scan finds, or its absence. */
  function FirstFree(used: seq<bool>): (r: Option<nat>)
    ensures r.None? <==> forall i :: 0 <= i < |used| ==> used[i]
    ensures r.Some? ==> r.value < |used| && !used[r.value] && forall i :: 0 <= i < r.value ==> used[i]
  {
    if used == [] then None
    else if !used[0] then Some(0)
    else
      var r := FirstFree(used[1..]);
      assert used == [used[0]] + used[1..];
      if r.None? then None else Some(r.value + 1)
  }

  /** One packet as the constructor leaves it. */
  predicate Blank(p: Packet, mtu: nat, i: nat)
    reads p
  {
    !p.used && p.idx == i && p.size == 0 && p.maxSize == mtu && p.buf == Offset(mtu, i)
  }

  method NewPacket(mtu: nat, i: nat) returns (packet: Packet)
    ensures fresh(packet) && Blank(packet, mtu, i)
  {
    packet := new Packet;
    packet.used := false;
    packet.idx := i;
    packet.size := 0;
    packet.maxSize := mtu;
    packet.buf := Start(mtu, i);
  }

  /** The loop of the `PacketBuffer` constructor. */
  method NewPool(mtu: nat, size: nat) returns (pool: seq<Packet>)
    ensures |pool| == size && NoDup(pool)
    ensures fresh(pool)
    ensures forall k :: 0 <= k < size ==> Blank(pool[k], mtu, k)
  {
    pool := [];
    for i := 0 to size
      invariant |pool| == i && NoDup(pool)
      invariant fresh(pool)
      invariant forall k :: 0 <= k < i ==> Blank(pool[k], mtu, k)
    {
      var packet := NewPacket(mtu, i);
      NoDupSnoc(pool, packet);
      pool := pool + [packet];
    }
  }

  class PacketBuffer {
    const size: nat
    const mtu: nat
    const packetSize: nat
    const packets: seq<Packet>
    const buffer: array<byte>

    ghost predicate Valid()
      reads packets
    {
      && packetSize == PacketSize(mtu)
      && |packets| == size
      && buffer.Length == Offset(mtu, size)
      && NoDup(packets)
      && forall i :: 0 <= i < |packets| ==>
           packets[i].idx == i && packets[i].maxSize == mtu && packets[i].buf == Offset(mtu, i)
    }

    ghost function Used(): (u: seq<bool>)
      reads packets
      ensures |u| == |packets|
    {
      seq(|packets|, i requires 0 <= i < |packets| reads packets => packets[i].used)
    }

    constructor (mtu: nat, size: nat)
      ensures Valid() && this.mtu == mtu && this.size == size
      ensures fresh(packets) && fresh(buffer)
      ensures forall i :: 0 <= i < size ==> !Used()[i]
    {
      var pool := NewPool(mtu, size);
      var length := Start(mtu, size);
      this.size, this.mtu, this.packetSize := size, mtu, PacketSize(mtu);
      this.packets := pool;
      this.buffer := new byte[length];
    }

    /** First-free scan: null exactly when every slot is used, otherwise the lowest free slot, now used. */
    method Alloc() returns (p: Packet?)
      requires Valid()
      modifies packets`used
      ensures Valid()
      ensures p == null <==> forall i :: 0 <= i < size ==> old(Used())[i]
      ensures p == null ==> Used() == old(Used())
      ensures p != null ==>
        && p in packets && FirstFree(old(Used())) == Some(p.idx)
        && Used() == old(Used())[p.idx := true]
        && p.used && !old(p.used)
      ensures forall r :: r in packets && r != p ==> r.used == old(r.used)
    {
      for i := 0 to size
        invariant Used() == old(Used())
        invariant forall k :: 0 <= k < i ==> old(Used())[k]
        invariant forall r :: r in packets ==> r.used == old(r.used)
      {
        if packets[i].used {
          continue;
        }
        assert !old(Used())[i];
        packets[i].used := true;
        p := packets[i];
        assert p.idx == i;
        return;
      }
      return null;
    }

    /** All mtu bytes of slot `i`, whatever has been stored there last. */
    ghost function SlotBytes(i: nat): (s: Bytes)
      requires Valid() && i < size
      reads packets, buffer
      ensures |s| == mtu
    {
      SlotInside(mtu, i, size);
      Slot(mtu, buffer[..], i, mtu)
    }

    /** An action writing through `pkt->buf`: the packet's own slot changes, no other slot does. */
    method Fill(p: Packet, bytes: Bytes)
      requires Valid() && p in packets && |bytes| == mtu
      modifies buffer
      ensures SlotBytes(p.idx) == bytes
      ensures forall j :: 0 <= j < size && j != p.idx ==> SlotBytes(j) == old(SlotBytes(j))
    {
      SlotInside(mtu, p.idx, size);
      forall k | 0 <= k < mtu {
        buffer[p.buf + k] := bytes[k];
      }
      forall j | 0 <= j < size && j != p.idx
        ensures SlotBytes(j) == old(SlotBytes(j))
      {
        SlotInside(mtu, j, size);
        SlotsApart(mtu, if j < p.idx then j else p.idx, if j < p.idx then p.idx else j);
      }
    }

    /** What an action reads through `pkt->buf`. */
    method Read(p: Packet, n: nat) returns (bytes: Bytes)
      requires Valid() && p in packets && n <= mtu
      ensures bytes == SlotBytes(p.idx)[..n]
    {
      SlotInside(mtu, p.idx, size);
      bytes := buffer[p.buf..p.buf + n];
    }
  }
}
