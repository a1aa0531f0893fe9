/** Model of ws_packet.hpp: the four-byte tag in front of every websocket message. */
module WsPackets {
  import opened Common

  const HEADER_LEN: nat := 4
  const PAKT: Bytes := [0x50, 0x41, 0x4B, 0x54]
  const JSON: Bytes := [0x4A, 0x53, 0x4F, 0x4E]

  /** What becomes of a char array turned into a `std::string`: it ends at the first NUL. */
  function CString(b: Bytes): (s: Bytes)
    ensures |s| <= |b| && s == b[..|s|] && 0 !in s
    ensures |s| < |b| ==> b[|s|] == 0
  {
    if b == [] || b[0] == 0 then [] else [b[0]] + CString(b[1..])
  }

  /** The header `from` finds, empty when the message is too short. */
  function Header(msg: Bytes): Bytes {
    if |msg| < HEADER_LEN then [] else CString(msg[..HEADER_LEN])
  }

  /** `message.size() - headerLen` in `size_t`. */
  function PacketLen(size: nat): nat
    requires size < WRAP
  {
    (size + WRAP - HEADER_LEN) % WRAP
  }

  /** A payload as it fits into a slot: `copyOut` keeps the first `mtu` bytes. */
  function Cut(mtu: nat, payload: Bytes): (c: Bytes)
    ensures |c| == Min(mtu, |payload|) && c <= payload
  {
    payload[..Min(mtu, |payload|)]
  }

  /** The message the receive thread builds around a packet. */
  function Frame(packet: Bytes): Bytes {
    PAKT + packet
  }

  predicate IsPakt(msg: Bytes) {
    Header(msg) == PAKT
  }

  /** A byte string that is this ASCII text. */
  predicate Ascii(b: Bytes, text: string) {
    |b| == |text| && forall i :: 0 <= i < |b| ==> b[i] as int == text[i] as int
  }

  /** The tags, and how many bytes `from` reads for one. */
  lemma TagsAre()
    ensures Ascii(PAKT, "PAKT") && Ascii(JSON, "JSON") && HEADER_LEN == 4
  {
  }

  /** The tag test is exact: it succeeds just for the messages that are a tag and something behind it. */
  lemma HeaderExact(msg: Bytes, tag: Bytes)
    requires |tag| == HEADER_LEN && 0 !in tag
    ensures Header(msg) == tag <==> |msg| >= HEADER_LEN && msg[..HEADER_LEN] == tag
  {
    if |msg| >= HEADER_LEN && msg[..HEADER_LEN] == tag {
      var s := CString(tag);
      assert forall k :: 0 <= k < |tag| ==> tag[k] in tag;
    }
  }

  /** Framing loses nothing, and only framed packets are taken for packets. */
  lemma FrameRoundTrip(msg: Bytes)
    ensures IsPakt(Frame(msg)) && Frame(msg)[HEADER_LEN..] == msg
    ensures IsPakt(msg) <==> exists payload :: msg == Frame(payload)
  {
    HeaderExact(msg, PAKT);
    HeaderExact(Frame(msg), PAKT);
    if IsPakt(msg) {
      assert msg == Frame(msg[HEADER_LEN..]);
    }
    if payload :| msg == Frame(payload) {
      assert msg[..HEADER_LEN] == PAKT;
    }
  }

  /** A message with its stream buffer, which is consumed from the front. */
  class Message {
    const bytes: Bytes
    var pos: nat

    constructor (bytes: Bytes)
      requires |bytes| < WRAP
      ensures this.bytes == bytes && pos == 0
    {
      this.bytes := bytes;
      pos := 0;
    }

    /** `sgetn`: as many bytes as are left, at most `n`. */
    method Sgetn(n: nat) returns (b: Bytes)
      requires pos <= |bytes|
      modifies this
      ensures b == old(bytes[pos..pos + Min(n, |bytes| - pos)]) && pos == old(pos) + |b|
    {
      var count := Min(n, |bytes| - pos);
      b := bytes[pos..pos + count];
      pos := pos + count;
    }

    method GetHeader(headerLen: nat) returns (header: Bytes)
      requires pos == 0
      modifies this
      ensures pos == if |bytes| < headerLen then 0 else headerLen
      ensures header == if |bytes| < headerLen then [] else CString(bytes[..headerLen])
    {
      if |bytes| < headerLen {
        return [];
      }
      var buffer := Sgetn(headerLen);
      header := CString(buffer);
    }
  }

  class WsPacket {
    const message: Message
    const header: Bytes
    const packetLen: nat

    /** `WsPacket::from` with the default header length. */
    constructor From(message: Message)
      requires message.pos == 0 && |message.bytes| < WRAP
      modifies message
      ensures this.message == message && header == Header(message.bytes)
      ensures |message.bytes| >= HEADER_LEN ==>
        message.pos == HEADER_LEN && packetLen == |message.bytes| - HEADER_LEN
      ensures |message.bytes| < HEADER_LEN ==>
        message.pos == 0 && packetLen == WRAP - HEADER_LEN + |message.bytes| && header == []
    {
      var found := message.GetHeader(HEADER_LEN);
      this.message, this.header := message, found;
      this.packetLen := PacketLen(|message.bytes|);
    }

    /**
     Copies the payload, cut to `lenDst`, to the start of a slot and leaves the slot's other bytes.
     On a message too short for a header the length has wrapped around: then the result claims
     `lenDst` bytes (for any `lenDst` a slot can have) although the stream holds fewer.
     */
    method CopyOut(stale: Bytes, lenDst: nat) returns (slot: Bytes, plen: nat)
      requires message.pos <= |message.bytes| && lenDst <= |stale|
      modifies message
      ensures plen == Min(lenDst, packetLen)
      ensures var rest := old(message.bytes[message.pos..]);
        var n := Min(plen, |rest|);
        slot == rest[..n] + stale[n..] && message.pos == old(message.pos) + n
      ensures packetLen == |message.bytes| - old(message.pos) ==>
        && slot == Cut(lenDst, old(message.bytes[message.pos..])) + stale[plen..]
        && slot[..plen] == Cut(lenDst, old(message.bytes[message.pos..]))
    {
      plen := Min(lenDst, packetLen);
      var b := message.Sgetn(plen);
      slot := b + stale[|b|..];
    }
  }
}
