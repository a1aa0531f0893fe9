/** Model of tuna_server.hpp: the command hash, and the message handler and receive loop per message. */
module TunaServers {
  import opened Common
  import opened Backoff
  import opened PacketBuffers
  import opened PacketStatistics
  import opened PacketQueues
  import opened TunDevices
  import opened WsPackets

  // ---------------------------------------------------------------- the command hash

  const BASE: nat := 101

  /** `*str` as it enters the sum: `char` is signed, and the sum is an `unsigned long long`. */
  function Code(b: byte): nat {
    if b < 128 then b as nat else WRAP - 256 + b as nat
  }

  /** `HashStringToInt` on a C string: it stops at the first NUL and wraps around at 2^64. */
  function HashStringToInt(str: Bytes): nat {
    if str == [] || str[0] == 0 then 0 else (BASE * HashStringToInt(str[1..]) + Code(str[0])) % WRAP
  }

  /** `*str` as a number: `char` is signed. */
  function Signed(b: byte): int {
    if b < 128 then b as int else b as int - 256
  }

  /** The same recursion over unbounded integers: a base-101 numeral with signed digits. */
  function Numeral(str: Bytes): int {
    if str == [] || str[0] == 0 then 0 else BASE * Numeral(str[1..]) + Signed(str[0])
  }

  /** They differ by a multiple of 2^64. */
  predicate Congruent(a: int, b: int) {
    (a - b) % WRAP == 0
  }

  lemma WrapStep(x: int, c: int, d: int)
    requires d == c || d == c + WRAP
    ensures (BASE * (x % WRAP) + d) % WRAP == (BASE * x + c) % WRAP
  {
    var n := x / WRAP;
    assert BASE * x == BASE * (x % WRAP) + BASE * n * WRAP;
    if d == c {
      MultiplesVanish(BASE * (x % WRAP) + d, BASE * n);
    } else {
      MultiplesVanish(BASE * (x % WRAP) + d, BASE * n - 1);
      assert (BASE * n - 1) * WRAP == BASE * n * WRAP - WRAP;
    }
  }

  lemma MultiplesVanish(y: int, n: int)
    ensures (y + n * WRAP) % WRAP == y % WRAP
  {
    assert y == y / WRAP * WRAP + y % WRAP;
    assert y + n * WRAP == (y / WRAP + n) * WRAP + y % WRAP;
  }

  /** The hash is the numeral, reduced once at the end, for every byte string. */
  lemma {:induction false} HashIsNumeral(s: Bytes)
    ensures HashStringToInt(s) == Numeral(s) % WRAP
  {
    if s != [] && s[0] != 0 {
      HashIsNumeral(s[1..]);
      WrapStep(Numeral(s[1..]), Signed(s[0]), Code(s[0]));
    }
  }

  /** Any two byte strings have the same hash exactly when their numerals differ by a multiple of 2^64. */
  lemma HashCollides(s: Bytes, t: Bytes)
    ensures HashStringToInt(s) == HashStringToInt(t) <==> Congruent(Numeral(s), Numeral(t))
  {
    hide HashStringToInt, Numeral;
    HashIsNumeral(s);
    HashIsNumeral(t);
    SameResidue(Numeral(s), Numeral(t));
  }

  lemma SameResidue(a: int, b: int)
    ensures a % WRAP == b % WRAP <==> Congruent(a, b)
  {
    var q, r := (a - b) / WRAP, (a - b) % WRAP;
    assert a == b + r + q * WRAP;
    MultiplesVanish(b + r, q);
    var n, c := b / WRAP, b % WRAP;
    assert b + r == c + r + n * WRAP;
    MultiplesVanish(c + r, n);
    assert (b + r) % WRAP == (c + r) % WRAP;
  }

  // ---------------------------------------------------------------- printable words

  /** Printable ASCII, 95 consecutive codes. */
  predicate Printable(str: Bytes) {
    forall i :: 0 <= i < |str| ==> 32 <= str[i] <= 126
  }

  /** Without wrap-around the hash is injective on printable strings of any length. */
  lemma {:induction false} NumeralInjective(s: Bytes, t: Bytes)
    requires Printable(s) && Printable(t)
    requires Numeral(s) == Numeral(t)
    ensures s == t
  {
    NumeralBound(s, |s|);
    NumeralBound(t, |t|);
    if s != [] && t != [] {
      NumeralBound(s[1..], |s|);
      NumeralBound(t[1..], |t|);
      LastDigit(Numeral(s[1..]), s[0] as nat, Numeral(t[1..]), t[0] as nat);
      NumeralInjective(s[1..], t[1..]);
      assert s == [s[0]] + s[1..] && t == [t[0]] + t[1..];
    }
  }

  lemma LastDigit(a: nat, c: nat, b: nat, d: nat)
    requires BASE * a + c == BASE * b + d && 32 <= c <= 126 && 32 <= d <= 126
    ensures a == b && c == d
  {
  }

  /** The largest numeral of `n` printable characters. */
  function Largest(n: nat): nat {
    if n == 0 then 0 else BASE * Largest(n - 1) + 126
  }

  lemma {:induction false} NumeralBound(s: Bytes, n: nat)
    requires Printable(s) && |s| <= n
    ensures 0 <= Numeral(s) <= Largest(n)
    ensures s != [] ==> Numeral(s) > 0
  {
    if s != [] {
      NumeralBound(s[1..], n - 1);
    }
  }

  lemma NineFit()
    ensures Largest(9) < WRAP
  {
    assert Largest(1) == 126;
    assert Largest(2) == BASE * 126 + 126;
    assert Largest(3) == BASE * 12852 + 126;
    assert Largest(4) == BASE * 1298178 + 126;
    assert Largest(5) == BASE * 131116104 + 126;
    assert Largest(6) == BASE * 13242726630 + 126;
    assert Largest(7) == BASE * 1337515389756 + 126;
    assert Largest(8) == BASE * 135089054365482 + 126;
  }

  /** Up to nine printable characters the 64-bit hash is still injective. */
  lemma HashInjective(s: Bytes, t: Bytes)
    requires Printable(s) && Printable(t) && |s| <= 9 && |t| <= 9
    requires HashStringToInt(s) == HashStringToInt(t)
    ensures s == t
  {
    hide HashStringToInt, Numeral, Largest, Printable;
    HashCollides(s, t);
    NumeralBound(s, 9);
    NumeralBound(t, 9);
    NineFit();
    NumeralInjective(s, t);
  }

  // ---------------------------------------------------------------- dispatch

  const INIT: Bytes := [105, 110, 105, 116]
  const PONG: Bytes := [112, 111, 110, 103]

  datatype Action = ActionInit | ActionPong | Unknown

  /** The switch of `processJson`. */
  function Dispatch(action: Bytes): Action {
    var h := HashStringToInt(action);
    if h == HashStringToInt(INIT) then ActionInit
    else if h == HashStringToInt(PONG) then ActionPong
    else Unknown
  }

  /** The two commands. */
  lemma CommandsAre()
    ensures Ascii(INIT, "init") && Ascii(PONG, "pong")
  {
  }

  lemma CommandsDiffer()
    ensures HashStringToInt(INIT) != HashStringToInt(PONG)
  {
    if HashStringToInt(INIT) == HashStringToInt(PONG) {
      HashInjective(INIT, PONG);
    }
  }

  /** Exactly which byte strings reach which branch: those whose numeral is the command's, up to multiples of 2^64. */
  lemma DispatchCollisions(action: Bytes)
    ensures Dispatch(action) == ActionInit <==> Congruent(Numeral(action), Numeral(INIT))
    ensures Dispatch(action) == ActionPong <==> Congruent(Numeral(action), Numeral(PONG))
  {
    hide HashStringToInt, Numeral, Congruent;
    HashCollides(action, INIT);
    HashCollides(action, PONG);
    CommandsDiffer();
  }

  /** On printable words of up to nine characters the switch compares the words themselves. */
  lemma DispatchExact(action: Bytes)
    requires Printable(action) && |action| <= 9
    ensures Dispatch(action) == ActionInit <==> action == INIT
    ensures Dispatch(action) == ActionPong <==> action == PONG
  {
    hide HashStringToInt;
    CommandsDiffer();
    if Dispatch(action) == ActionInit {
      HashInjective(action, INIT);
    }
    if Dispatch(action) == ActionPong {
      HashInjective(action, PONG);
    }
  }

  /** A printable word longer than that is mistaken exactly if its numeral is larger by a multiple of 2^64. */
  lemma PrintableCollisions(action: Bytes)
    requires Printable(action)
    ensures Dispatch(action) == ActionInit <==>
      action == INIT || (Numeral(action) > Numeral(INIT) && Congruent(Numeral(action), Numeral(INIT)))
    ensures Dispatch(action) == ActionPong <==>
      action == PONG || (Numeral(action) > Numeral(PONG) && Congruent(Numeral(action), Numeral(PONG)))
  {
    assert Printable(INIT) && Printable(PONG);
    hide Numeral, HashStringToInt, Dispatch, Congruent, Printable;
    DispatchCollisions(action);
    LongerIsLarger(action, INIT);
    LongerIsLarger(action, PONG);
    CongruentToItself(Numeral(action));
  }

  lemma LongerIsLarger(s: Bytes, t: Bytes)
    requires Printable(s) && Printable(t) && |t| <= 9
    ensures s == t || Numeral(s) > Numeral(t) || !Congruent(Numeral(s), Numeral(t))
  {
    hide Numeral, Largest, Printable;
    NumeralBound(s, |s|);
    NumeralBound(t, 9);
    NineFit();
    if Numeral(s) == Numeral(t) {
      NumeralInjective(s, t);
    } else if Numeral(s) < Numeral(t) {
      assert 0 < Numeral(t) - Numeral(s) < WRAP;
    }
  }

  lemma CongruentToItself(a: int)
    ensures Congruent(a, a) && Congruent(a + 4 * WRAP, a)
  {
  }

  /** One more digit in front of a numeral that is already known. */
  lemma Digit(c: byte, s: Bytes, n: int) returns (word: Bytes)
    requires c != 0 && Numeral(s) == n
    ensures word == [c] + s && Numeral(word) == BASE * n + Signed(c)
  {
    word := [c] + s;
    assert word[1..] == s;
  }

  lemma InitNumeral()
    ensures Numeral(INIT) == 120597236
  {
    var w3 := Digit(116, [], 0);
    var w2 := Digit(105, w3, 116);
    var w1 := Digit(110, w2, 11821);
    var w0 := Digit(105, w1, 1194031);
    assert w0 == INIT;
  }

  const TEN: Bytes := [118, 59, 66, 75, 69, 44, 45, 111, 46, 67]

  lemma TenNumeral()
    ensures Numeral(TEN) == 120597236 + 4 * WRAP
  {
    var w9 := Digit(67, [], 0);
    var w8 := Digit(46, w9, 67);
    var w7 := Digit(111, w8, 6813);
    var w6 := Digit(45, w7, 688224);
    var w5 := Digit(44, w6, 69510669);
    var w4 := Digit(69, w5, 7020577613);
    var w3 := Digit(75, w4, 709078338982);
    var w2 := Digit(66, w3, 71616912237257);
    var w1 := Digit(59, w2, 7233308135963023);
    var w0 := Digit(118, w1, 730564121732265382);
    assert w0 == TEN;
  }

  /** The length bound is sharp: the ten-character word "v;BKE,-o.C" is dispatched as "init". */
  lemma NineIsSharp()
    ensures Printable(TEN) && |TEN| == 10 && TEN != INIT && Dispatch(TEN) == ActionInit
  {
    assert Printable(TEN) && |TEN| == 10 && TEN != INIT;
    hide Numeral, HashStringToInt, Printable, Dispatch, Congruent;
    InitNumeral();
    TenNumeral();
    CongruentToItself(Numeral(INIT));
    DispatchCollisions(TEN);
  }

  const CONTROL: Bytes := [4, 111, 105, 116]
  const ACCENT: Bytes := [159, 112, 105, 116]

  lemma CarriedNumerals()
    ensures Numeral(CONTROL) == 120597236 && Numeral(ACCENT) == 120597236
  {
    var w3 := Digit(116, [], 0);
    var w2 := Digit(105, w3, 116);
    var w1 := Digit(111, w2, 11821);
    var w0 := Digit(4, w1, 1194032);
    assert w0 == CONTROL;
    var v1 := Digit(112, w2, 11821);
    var v0 := Digit(159, v1, 1194033);
    assert v0 == ACCENT;
  }

  lemma {:induction false} CutAtNul(s: Bytes, tail: Bytes)
    requires 0 !in s
    ensures Numeral(s + [0] + tail) == Numeral(s)
  {
    var all := s + [0] + tail;
    if s != [] {
      assert all[1..] == s[1..] + [0] + tail;
      CutAtNul(s[1..], tail);
    }
  }

  /**
   Printability cannot be dropped, however short the word: four bytes with a control character, or with
   one above 127, reach init by carrying from one digit to the next, and so does "init" before a NUL.
   */
  lemma PrintableIsSharp(tail: Bytes)
    ensures CONTROL != INIT && Dispatch(CONTROL) == ActionInit
    ensures ACCENT != INIT && Dispatch(ACCENT) == ActionInit
    ensures Dispatch(INIT + [0] + tail) == ActionInit
  {
    assert CONTROL[0] != INIT[0] && ACCENT[0] != INIT[0] && 0 !in INIT;
    hide Numeral, HashStringToInt, Dispatch, Congruent;
    InitNumeral();
    CarriedNumerals();
    CongruentToItself(Numeral(INIT));
    CutAtNul(INIT, tail);
    DispatchCollisions(CONTROL);
    DispatchCollisions(ACCENT);
    DispatchCollisions(INIT + [0] + tail);
  }

  // ---------------------------------------------------------------- packets in and out

  /** The handler's result: which branch it took. */
  datatype Handled = Command | Ignored | Pushed(ok: bool)

  /**
   The `onmessage` handler for a connection that has a device. A PAKT message appends its payload, cut
   to the mtu, to `toTun`, unless it is empty or the pool is full; no other message touches a queue.
   */
  method OnMessage(tun: TunDevice, message: Message) returns (handled: Handled)
    requires tun.Valid() && message.pos == 0 && |message.bytes| < WRAP
    modifies message, tun.toTun`q, tun.toTun.pb.packets, tun.toTun.pb.buffer, tun.toTun.ps
    ensures tun.Valid()
    ensures tun.fromTun.Contents() == old(tun.fromTun.Contents()) && tun.fromTun.Grants() == old(tun.fromTun.Grants())
    ensures tun.fromTun.ps.View() == old(tun.fromTun.ps.View())
    ensures handled == Command <==> Header(message.bytes) == JSON
    ensures handled.Pushed? <==> IsPakt(message.bytes)
    ensures handled.Pushed? ==>
      var packet := Cut(tun.toTun.pb.mtu, message.bytes[Min(HEADER_LEN, |message.bytes|)..]);
      var granted := old(tun.toTun.Grants());
      && handled.ok == (packet != [] && granted)
      && tun.toTun.Contents() == old(tun.toTun.Contents()) + (if handled.ok then [packet] else [])
      && tun.toTun.ps.View() == PushCounted(old(tun.toTun.ps.View()), granted, tun.toTun.blockWait, |packet|)
    ensures !handled.Pushed? ==>
      tun.toTun.Contents() == old(tun.toTun.Contents()) && tun.toTun.ps.View() == old(tun.toTun.ps.View())
  {
    hide PushCounted, PacketQueue.Valid, PacketQueue.Contents, PacketQueue.Grants;
    HeaderExact(message.bytes, PAKT);
    var packet := new WsPacket.From(message);
    if packet.header == JSON {
      assert JSON[0] != PAKT[0];
      return Command;
    }
    if packet.header == PAKT {
      var ok := ProcessApart(tun, packet);
      return Pushed(ok);
    }
    return Ignored;
  }

  /** The same push, seen from the whole device: the other queue stays as it is. */
  method ProcessApart(tun: TunDevice, packet: WsPacket) returns (ok: bool)
    requires tun.Valid()
    requires |packet.message.bytes| >= HEADER_LEN == packet.message.pos
    requires packet.packetLen == |packet.message.bytes| - HEADER_LEN
    modifies packet.message, tun.toTun`q, tun.toTun.pb.packets, tun.toTun.pb.buffer, tun.toTun.ps
    ensures tun.Valid()
    ensures tun.fromTun.Contents() == old(tun.fromTun.Contents()) && tun.fromTun.Grants() == old(tun.fromTun.Grants())
    ensures tun.fromTun.ps.View() == old(tun.fromTun.ps.View())
    ensures var bytes := Cut(tun.toTun.pb.mtu, packet.message.bytes[HEADER_LEN..]);
      var granted := old(tun.toTun.Grants());
      && ok == (bytes != [] && granted)
      && tun.toTun.Contents() == old(tun.toTun.Contents()) + (if ok then [bytes] else [])
      && tun.toTun.ps.View() == PushCounted(old(tun.toTun.ps.View()), granted, tun.toTun.blockWait, |bytes|)
  {
    hide PushCounted, PacketQueue.Grants, PacketBuffer.Used;
    tun.fromTun.GrantsExactly();
    ok := ProcessPacket(tun, packet);
    tun.fromTun.GrantsExactly();
  }

  /** `processPacket`: a push whose action is `copyOut` into the slot it is given. */
  method ProcessPacket(tun: TunDevice, packet: WsPacket) returns (ok: bool)
    requires tun.toTun.Valid()
    requires |packet.message.bytes| >= HEADER_LEN == packet.message.pos
    requires packet.packetLen == |packet.message.bytes| - HEADER_LEN
    modifies packet.message, tun.toTun`q, tun.toTun.pb.packets, tun.toTun.pb.buffer, tun.toTun.ps
    ensures tun.toTun.Valid()
    ensures var bytes := Cut(tun.toTun.pb.mtu, packet.message.bytes[HEADER_LEN..]);
      var granted := old(tun.toTun.Grants());
      && ok == (bytes != [] && granted)
      && tun.toTun.Contents() == old(tun.toTun.Contents()) + (if ok then [bytes] else [])
      && tun.toTun.ps.View() == PushCounted(old(tun.toTun.ps.View()), granted, tun.toTun.blockWait, |bytes|)
      && packet.message.pos == HEADER_LEN + if granted then |bytes| else 0
  {
    hide FirstFree, PacketQueue.Contents, PacketBuffer.SlotBytes, Stat.Add, Attempts, Delivered, PacketBuffer.Used;
    var pkt := tun.toTun.Acquire();
    if pkt == null {
      return false;
    }
    var stale := tun.toTun.pb.Read(pkt, tun.toTun.pb.mtu);
    var slot, plen := packet.CopyOut(stale, pkt.maxSize);
    ok := tun.toTun.Deliver(pkt, Outcome(slot, plen));
  }

  /**
   One turn of the receive loop: the oldest packet of `fromTun` goes out, framed. The action always
   reports success.
   */
  method ReceiveOnce(tun: TunDevice, wakes: nat) returns (message: Option<Bytes>)
    requires tun.Valid()
    modifies tun.fromTun`q, tun.fromTun.pb.packets`used, tun.fromTun.ps
    ensures tun.Valid()
    ensures tun.toTun.Contents() == old(tun.toTun.Contents()) && tun.toTun.ps.View() == old(tun.toTun.ps.View())
    ensures message == None <==> old(tun.fromTun.Contents()) == []
    ensures message.Some? ==>
      var head := old(tun.fromTun.Contents())[0];
      && message.value == Frame(head)
      && tun.fromTun.Contents() == old(tun.fromTun.Contents())[1..]
      && tun.fromTun.ps.View() == PopCounted(old(tun.fromTun.ps.View()), |head|, 1)
    ensures message.None? ==>
      tun.fromTun.Contents() == [] && tun.fromTun.ps.View() == Waited(old(tun.fromTun.ps.View()), wakes)
  {
    hide Stat.Add, Waited;
    var pkt := tun.fromTun.Await(wakes);
    if pkt == null {
      return None;
    }
    var bytes := tun.fromTun.pb.Read(pkt, pkt.size);
    tun.fromTun.GiveBack(pkt, PopOk);
    return Some(Frame(bytes));
  }

  /**
   A device just made, and one message through it in echo mode: the handler, one turn of the echo
   thread, one turn of the receive thread. A PAKT message comes back with its payload cut to the mtu,
   if there is any and the queues have slots; nothing else comes back.
   */
  method EchoMessage(mtu: nat, qSize: nat, bytes: Bytes) returns (out: Option<Bytes>)
    requires |bytes| < WRAP
    ensures out == if IsPakt(bytes) && |bytes| > HEADER_LEN && mtu > 0 && qSize > 0
                   then Some(Frame(Cut(mtu, bytes[HEADER_LEN..]))) else None
  {
    HeaderExact(bytes, PAKT);
    var tun := new TunDevice(mtu, qSize, 0);
    var message := new Message(bytes);
    tun.toTun.GrantsExactly();
    tun.fromTun.GrantsExactly();
    hide TunDevice.Valid, PacketQueue.Valid, PacketQueue.Contents, PacketQueue.Grants, Frame, IsPakt;
    out := EchoThrough(tun, message);
  }

  /** One message through an empty device. */
  method EchoThrough(tun: TunDevice, message: Message) returns (out: Option<Bytes>)
    requires tun.Valid() && tun.toTun.Contents() == [] && tun.fromTun.Contents() == []
    requires message.pos == 0 && |message.bytes| < WRAP
    modifies message, tun.toTun`q, tun.toTun.pb.packets, tun.toTun.pb.buffer, tun.toTun.ps
    modifies tun.fromTun`q, tun.fromTun.pb.packets, tun.fromTun.pb.buffer, tun.fromTun.ps
    ensures tun.Valid() && tun.toTun.Contents() == [] && tun.fromTun.Contents() == []
    ensures var packet := Cut(tun.toTun.pb.mtu, message.bytes[Min(HEADER_LEN, |message.bytes|)..]);
      var comes := IsPakt(message.bytes) && packet != [] && old(tun.toTun.Grants()) && old(tun.fromTun.Grants());
      out == if comes then Some(Frame(packet)) else None
  {
    hide TunDevice.Valid, PacketQueue.Valid, PacketQueue.Contents, PacketQueue.Grants, Frame, IsPakt;
    hide PushCounted, PopCounted, Waited;
    var handled := OnMessage(tun, message);
    var echoed := tun.EchoOnce(0);
    out := ReceiveOnce(tun, 0);
  }
}
