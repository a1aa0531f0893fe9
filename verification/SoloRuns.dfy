/**
 The protocol without interference: a push or a pop whose thread runs alone does exactly what the
 contracts of `PacketQueue.Push` and `PacketQueue.Pop` say.
 */
module SoloRuns {
  import opened Common
  import opened PacketLayout
  import opened Backoff
  import opened PacketStatistics
  import opened PacketBuffers
  import opened PacketQueues
  import opened QueueProtocol
  import opened QueueInvariants
  import opened PushTermination

  /** The pushing thread alone, up to the inside of its action or to its return. */
  ghost function Solo(s: State): (t: State)
    requires Inv(s) && !s.p.PIdle?
    ensures Inv(t) && (t.p.PFill? || t.p.PDone?)
    decreases StepsLeft(s)
  {
    if s.p.PFill? || s.p.PDone? then s
    else
      SoloStep(s);
      Solo(Produce(s))
  }

  lemma SoloStep(s: State)
    requires Inv(s) && Enabled(s, PStep)
    ensures Inv(Produce(s)) && !Produce(s).p.PIdle? && 0 <= StepsLeft(Produce(s)) < StepsLeft(s)
  {
    hide Inv, Produce, StepsLeft;
    InvWaits(s);
    KeepsInv(s, PStep);
    PushAdvances(s, PStep);
    InvWaits(Produce(s));
    StepsLeftBounds(Produce(s));
    NotIdle(s);
  }

  /** One step of a solo run, or its end. */
  lemma Goes(s: State)
    requires Inv(s) && Enabled(s, PStep)
    ensures Inv(Produce(s)) && !Produce(s).p.PIdle? && 0 <= StepsLeft(Produce(s)) < StepsLeft(s)
    ensures Solo(s) == Solo(Produce(s))
    ensures Produce(s).p.PFill? || Produce(s).p.PDone? ==> Solo(s) == Produce(s)
  {
    hide Inv, Produce, StepsLeft;
    SoloStep(s);
  }

  lemma NotIdle(s: State)
    requires Shape(s) && Enabled(s, PStep)
    ensures !Produce(s).p.PIdle?
  {
    hide Stat.Add, Slot, Offset;
  }

  /** What a scan that finds slot `x` leaves behind. */
  function Granted(s: State, x: nat): State
    requires x < |s.used|
  {
    s.(used := s.used[x := true], ps := s.ps.Add(AllocOk, 1), p := PFill(x))
  }

  lemma {:induction false} SoloScan(s: State, x: nat)
    requires Inv(s) && s.p.PScan? && FirstFree(s.used) == Some(x) && s.p.i <= x
    ensures x < |s.used| && Solo(s) == Granted(s, x)
    decreases x - s.p.i
  {
    hide Solo, Inv, FirstFree, Stat.Add, StepsLeft;
    InvWaits(s);
    Goes(s);
    if s.p.i < x {
      SoloScan(Produce(s), x);
    } else {
      var marked := Produce(s);
      Goes(marked);
      var got := Produce(marked);
      Goes(got);
    }
  }

  /** After a scan in vain, and after the nap that follows. */
  function Missed(s: State, l: Loop): State {
    s.Bump(AllocFailed, 1).(p := PNap(l.(tries := l.tries + 1)))
  }

  function Rested(s: State, l: Loop): State {
    s.(p := PHead(l.(wait := Min(l.wait, CAP) + STEP, tw := l.tw + Min(l.wait, CAP))))
  }

  lemma {:induction false} SoloMiss(s: State)
    requires Inv(s) && s.p.PScan? && FirstFree(s.used).None?
    ensures Inv(Missed(s, s.p.l)) && Missed(s, s.p.l).p.PNap? && Solo(s) == Solo(Missed(s, s.p.l))
    decreases s.cfg.size - s.p.i
  {
    hide Solo, Inv, FirstFree, Stat.Add, StepsLeft;
    InvWaits(s);
    Goes(s);
    if s.p.i < s.cfg.size {
      SoloMiss(Produce(s));
    } else {
      Goes(Produce(s));
    }
  }

  lemma SoloNap(s: State)
    requires Inv(s) && s.p.PNap?
    ensures Inv(Rested(s, s.p.l)) && Rested(s, s.p.l).p.PHead? && Solo(s) == Solo(Rested(s, s.p.l))
  {
    hide Solo, Inv, StepsLeft;
    InvWaits(s);
    Goes(s);
  }

  /** One round of the back-off loop against a full pool. */
  function Round(s: State, l: Loop): State {
    Rested(Missed(s, l), l.(tries := l.tries + 1))
  }

  lemma SoloScanBegins(s: State)
    requires Inv(s) && s.p.PHead? && s.p.l.tw < s.cfg.blockWait
    ensures var t := s.(p := PScan(0, s.p.l, s.used)); Inv(t) && Solo(s) == Solo(t)
  {
    InvWaits(s);
    hide Solo, Inv, StepsLeft;
    Goes(s);
  }

  lemma SoloRound(s: State)
    requires Inv(s) && s.p.PHead? && FirstFree(s.used).None? && s.p.l.tw < s.cfg.blockWait
    ensures Inv(Round(s, s.p.l)) && Round(s, s.p.l).p.PHead? && Solo(s) == Solo(Round(s, s.p.l))
  {
    hide Solo, Inv, FirstFree, Rested;
    var t := s.(p := PScan(0, s.p.l, s.used));
    SoloScanBegins(s);
    SoloMiss(t);
    assert Missed(t, s.p.l) == Missed(s, s.p.l);
    SoloNap(Missed(s, s.p.l));
  }

  /** What a push that gives up leaves behind. */
  function Refused(s: State, tries: nat): State {
    s.(ps := s.ps.Add(AllocFailed, tries).Add(PushTimeout, 1), p := PDone(false))
  }

  lemma RefusedLater(s: State, l: Loop, more: nat)
    ensures Refused(Round(s, l), more) == Refused(s, more + 1)
    ensures var t := Round(s, l); t.p.PHead? && t.p.l.tries == l.tries + 1 && t.used == s.used && t.cfg == s.cfg
  {
    AddAgain(s.ps, AllocFailed, 1, more);
    hide Stat.Add;
  }

  lemma SoloTimeout(s: State)
    requires Inv(s) && s.p.PHead? && s.p.l.tw >= s.cfg.blockWait
    ensures Solo(s) == Refused(s, 0)
  {
    hide Solo, Inv, Stat.Add, StepsLeft;
    InvWaits(s);
    Goes(s);
    InvWaits(Produce(s));
    Goes(Produce(s));
    AddAgain(s.ps, AllocFailed, 0, 0);
  }

  /** A solo push in front of a full pool has used up its patience or has a round left. */
  lemma RoundsLeft(s: State)
    requires Inv(s) && s.p.PHead?
    ensures s.p.l.tries <= Attempts(s.cfg.blockWait)
    ensures s.p.l.tw < s.cfg.blockWait <==> s.p.l.tries < Attempts(s.cfg.blockWait)
  {
    PatienceLeft(s, s.p.l);
  }

  lemma {:induction false} SoloGivesUp(s: State)
    requires Inv(s) && s.p.PHead? && FirstFree(s.used).None?
    ensures s.p.l.tries <= Attempts(s.cfg.blockWait)
    ensures Solo(s) == Refused(s, Attempts(s.cfg.blockWait) - s.p.l.tries)
    decreases Attempts(s.cfg.blockWait) - s.p.l.tries
  {
    hide Solo, Inv, FirstFree, Attempts, Refused, Round;
    RoundsLeft(s);
    if s.p.l.tw < s.cfg.blockWait {
      RefusedLater(s, s.p.l, Attempts(s.cfg.blockWait) - s.p.l.tries - 1);
      SoloRound(s);
      SoloGivesUp(Round(s, s.p.l));
    } else {
      SoloTimeout(s);
    }
  }

  /**
   A push called while nobody interferes: with a free slot and some patience its action gets the
   lowest free one, and otherwise it returns false after the exact number of counted attempts.
   */
  lemma SoloPush(s: State)
    requires Inv(s) && Enabled(s, PushCall)
    ensures Inv(Apply(s, PushCall))
    ensures var called, x := Apply(s, PushCall), FirstFree(s.used);
      Solo(called) == if x.Some? && s.cfg.blockWait > 0 then Granted(s, x.value)
                      else s.(ps := PushCounted(s.ps, false, s.cfg.blockWait, 0), p := PDone(false))
  {
    var called := Apply(s, PushCall);
    KeepsInv(s, PushCall);
    InvWaits(called);
    AttemptsExact(s.cfg.blockWait);
    hide Solo, Inv, Stat.Add, Stat.Life, StepsLeft, Attempts;
    Goes(called);
    if FirstFree(s.used).None? {
      SoloGivesUp(called);
    } else if s.cfg.blockWait > 0 {
      SoloScan(Produce(called), FirstFree(s.used).value);
    } else {
      Goes(Produce(called));
      AddAgain(s.ps, AllocFailed, 0, 0);
    }
  }

  /** After the action: its bytes are queued if it reports some, and the slot is free again if not. */
  lemma SoloDeliver(s: State, ret: int)
    requires Inv(s) && s.c.CIdle? && Enabled(s, ActionRet(ret))
    ensures Inv(Apply(s, ActionRet(ret)))
    ensures var x, t := s.p.x, Solo(Apply(s, ActionRet(ret)));
      && x < s.cfg.size && t.cfg == s.cfg && Memory(t) && t.p == PDone(ret > 0) && t.buf == s.buf
      && (ret > 0 ==>
            && t.used == s.used && t.ring == s.ring + [x] && t.sizes == s.sizes[x := ret]
            && Filled(t, x) && t.accepted == s.accepted + [t.Packet(x)])
      && (ret <= 0 ==>
            t.used == s.used[x := false] && t.ring == s.ring && t.sizes == s.sizes && t.accepted == s.accepted)
      && t.ps == Delivered(s.ps, ret)
  {
    KeepsInv(s, ActionRet(ret));
    InvWaits(s);
    hide Inv, Shape, Solo, Stat.Add, Slot, Offset;
    var t := Apply(s, ActionRet(ret));
    if ret > 0 {
      SoloAccepts(t);
    } else {
      SoloRejects(t);
    }
  }

  lemma SoloRejects(s: State)
    requires Inv(s) && s.p.PReject?
    ensures s.p.x < |s.used| && Memory(s)
    ensures Solo(s) == s.(used := s.used[s.p.x := false], ps := s.ps.Add(PushActionFailed, 1), p := PDone(false))
  {
    hide Inv, Solo, Stat.Add, Stat.Life, StepsLeft, Slot, Offset;
    InvWaits(s);
    Goes(s);
    Goes(Produce(s));
  }

  lemma SoloAccepts(s: State)
    requires Inv(s) && s.c.CIdle? && s.p.PAddSize?
    ensures Memory(s) && s.p.x < s.cfg.size
    ensures var x, ret, t := s.p.x, s.p.ret, Solo(s);
      && t.cfg == s.cfg && t.buf == s.buf && t.used == s.used && t.handed == s.handed
      && t.ring == s.ring + [x] && t.sizes == s.sizes[x := ret] && t.p == PDone(true)
      && Memory(t) && Filled(t, x) && t.accepted == s.accepted + [t.Packet(x)]
      && t.ps == s.ps.Add(PushPacketSize, ret).Add(PushOk, 1)
  {
    InvWaits(s);
    hide Inv, Solo, Stat.Add, Stat.Life, StepsLeft, Slot, Offset;
    Goes(s);
    SoloSizes(Produce(s));
  }

  lemma SoloSizes(s: State)
    requires Inv(s) && s.c.CIdle? && s.p.PSetSize?
    ensures Memory(s) && s.p.x < s.cfg.size
    ensures var x, ret, t := s.p.x, s.p.ret, Solo(s);
      && t.cfg == s.cfg && t.buf == s.buf && t.used == s.used && t.handed == s.handed
      && t.ring == s.ring + [x] && t.sizes == s.sizes[x := ret] && t.p == PDone(true)
      && Memory(t) && Filled(t, x) && t.accepted == s.accepted + [t.Packet(x)]
      && t.ps == s.ps.Add(PushOk, 1)
  {
    InvWaits(s);
    hide Inv, Solo, Stat.Add, Stat.Life, StepsLeft, Slot, Offset;
    Goes(s);
    SoloQueues(Produce(s));
  }

  lemma SoloQueues(s: State)
    requires Inv(s) && s.c.CIdle? && s.p.PRing?
    ensures Filled(s, s.p.x)
    ensures Solo(s) == s.(ring := s.ring + [s.p.x], accepted := s.accepted + [s.Packet(s.p.x)],
                          notifies := s.notifies + 1, ps := s.ps.Add(PushOk, 1), p := PDone(true))
  {
    InvParts(s);
    RingHasRoom(s);
    hide Inv, Ownership, Solo, Stat.Add, Stat.Life, StepsLeft, Slot, Offset;
    Goes(s);
    SoloNotifies(Produce(s));
  }

  lemma SoloNotifies(s: State)
    requires Inv(s) && s.c.CIdle? && s.p.PNotify?
    ensures Solo(s) == s.(notifies := s.notifies + 1, ps := s.ps.Add(PushOk, 1), p := PDone(true))
  {
    InvParts(s);
    hide Inv, Ownership, Solo, Stat.Add, Stat.Life, StepsLeft, Slot, Offset;
    Goes(s);
    SoloCounts(Produce(s));
  }

  lemma SoloCounts(s: State)
    requires Inv(s) && s.p.PCountOk?
    ensures Solo(s) == s.(ps := s.ps.Add(PushOk, 1), p := PDone(true))
  {
    InvParts(s);
    hide Inv, Ownership, Solo, Stat.Add, Stat.Life, StepsLeft, Slot, Offset;
    Goes(s);
  }

  lemma InvParts(s: State)
    requires Inv(s)
    ensures Shape(s) && Ownership(s)
  {
  }

  /** A pop that finds a packet, alone: the oldest string is handed out and its slot is free again. */
  lemma SoloPop(s: State, result: int)
    requires Inv(s) && s.c.CIdle? && s.ring != []
    ensures var x, got := s.ring[0], Apply(s, PopCall);
      && Filled(s, x) && s.Packet(x) == s.accepted[|s.handed|]
      && Shape(got) && Shape(Consume(got)) && Shape(Consume(Consume(got)))
      && var acted := Apply(Consume(Consume(got)), PopRet(result));
      && Shape(acted) && Shape(Consume(acted))
      && Consume(Consume(acted)) ==
           s.(ring := s.ring[1..], handed := s.handed + [s.Packet(x)], used := s.used[x := false], c := CTrue,
              ps := PopCounted(s.ps, |s.Packet(x)|, result))
  {
    InvContents(s);
    hide Solo, Inv, Stat.Add, Stat.Life, Slot, Offset;
    var called := Apply(s, PopCall);
    KeepsShape(s, PopCall);
    KeepsShape(called, CStep);
    KeepsShape(Consume(called), CStep);
    var acting := Consume(Consume(called));
    KeepsShape(acting, PopRet(result));
    KeepsShape(Apply(acting, PopRet(result)), CStep);
  }

  lemma InvContents(s: State)
    requires Inv(s)
    ensures Shape(s) && |s.accepted| == |s.handed| + |s.ring|
    ensures forall k :: 0 <= k < |s.ring| ==> s.Packet(s.ring[k]) == s.accepted[|s.handed| + k]
  {
  }

  /** One look at an empty ring, alone: counted, and then the thread waits. */
  lemma SoloLook(s: State)
    requires Shape(s) && s.c.CTry? && s.ring == []
    ensures Shape(Consume(s)) && Shape(Consume(Consume(s))) && Shape(Consume(Consume(Consume(s))))
    ensures Consume(Consume(Consume(s))) ==
      s.(c := CWait(s.c.base, |s.accepted|, s.notifies), ps := s.ps.Add(PopEmpty, 1))
  {
    hide Stat.Add, Slot, Offset;
    KeepsShape(s, CStep);
    KeepsShape(Consume(s), CStep);
    KeepsShape(Consume(Consume(s)), CStep);
  }

  /** The popping thread alone in front of an empty ring, woken `wakes` times without reason. */
  ghost function SoloEmpty(s: State, wakes: nat): State
    requires Shape(s) && s.c.CTry? && s.ring == []
    decreases wakes
  {
    SoloLook(s);
    var waiting := Consume(Consume(Consume(s)));
    if wakes == 0 then
      KeepsShape(waiting, Expire);
      Consume(Apply(waiting, Expire))
    else
      KeepsShape(waiting, SpuriousWake);
      var woken := Apply(waiting, SpuriousWake);
      KeepsShape(woken, CStep);
      SoloEmpty(Consume(woken), wakes - 1)
  }

  lemma {:induction false} SoloLooks(s: State, wakes: nat)
    requires Shape(s) && s.c.CTry? && s.ring == []
    ensures SoloEmpty(s, wakes) ==
      s.(c := CFalse(s.c.base, |s.accepted|), spurious := s.spurious + wakes, ps := Waited(s.ps, wakes))
    decreases wakes
  {
    hide Stat.Add, Slot, Offset, Shape;
    SoloLook(s);
    var waiting := Consume(Consume(Consume(s)));
    if wakes > 0 {
      KeepsShape(waiting, SpuriousWake);
      var woken := Apply(waiting, SpuriousWake);
      KeepsShape(woken, CStep);
      SoloLooks(Consume(woken), wakes - 1);
      AddAgain(s.ps, PopEmpty, 1, wakes);
    } else {
      KeepsShape(waiting, Expire);
    }
  }

  /**
   A pop called in front of an empty ring, alone: it returns false, has taken nothing, and has counted
   each look and the timeout.
   */
  lemma SoloPopEmpty(s: State, wakes: nat)
    requires Inv(s) && s.c.CIdle? && s.ring == []
    ensures Shape(Apply(s, PopCall)) && Apply(s, PopCall).c.CTry?
    ensures SoloEmpty(Apply(s, PopCall), wakes) ==
      s.(c := CFalse(|s.handed|, |s.accepted|), spurious := s.spurious + wakes, ps := Waited(s.ps, wakes))
  {
    KeepsShape(s, PopCall);
    SoloLooks(Apply(s, PopCall), wakes);
  }
}
