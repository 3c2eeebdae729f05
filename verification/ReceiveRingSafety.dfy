/** The promises of the receive path, for every configuration and every interleaving. */
module ReceiveRingSafety {
  import opened Arithmetic
  import opened Common
  import opened ReceiveRing
  import opened ReceiveRingInvariant

  function FromStart(c: Config, actions: seq<Action>): (s: State)
    requires c.Valid()
    ensures Shaped(c, s)
  {
    Run(c, Initial(c), actions)
  }

  lemma ReachableInv(c: Config, actions: seq<Action>)
    requires c.Valid() && c.WholeReservations()
    ensures Inv(c, FromStart(c, actions))
  {
    InitialInv(c);
    RunKeeps(c, Initial(c), actions);
  }

  /** A slot's bit is set exactly when one receive thread holds the slot or one job names it: never
      both, and never two jobs. */
  lemma InUseMeansOneOwner(c: Config, actions: seq<Action>, t: nat, i: nat)
    requires c.Valid() && c.WholeReservations() && t < |c.packets| && i < c.ringSize
    ensures var s := FromStart(c, actions);
      var jobs := Total(s, ByOffset(Address(c, t, i)));
      && jobs <= 1
      && !(Holds(c, s, t, i) && jobs == 1)
      && (s.inUse[t][i] <==> Holds(c, s, t, i) || jobs == 1)
  {
    ReachableInv(c, actions);
    assert SlotOk(c, FromStart(c, actions), t, i);
  }

  /** Of all the ways the path can end the program, only a full buffer can happen: a receive thread
      never frees a free slot, no address is out of bounds, and every task reaches a recorder that
      exists and whose antenna range contains it. */
  lemma OnlyFaultIsBufferFull(c: Config, actions: seq<Action>)
    requires c.Valid() && c.WholeReservations()
    ensures FromStart(c, actions).status in {Running, Aborted(BufferFull)}
  {
    ReachableInv(c, actions);
  }

  /** A receive thread writes only to slots it holds. */
  lemma WritesOnlyHeld(c: Config, s: State, u: nat, a: Action, t: nat, i: nat)
    requires Shaped(c, s) && u < |c.packets| && ReceiverOk(c.ringSize, c.packets[u], s.receivers[u])
    requires t < |c.packets| && i < c.ringSize && !Holds(c, s, t, i)
    requires (a.Stamp? || a.Receive?) && a.t == u
    ensures Apply(c, s, a).cells[t][i] == s.cells[t][i]
  {
    match a
    case Receive(_, samples) =>
      assert Apply(c, s, a).cells in {s.cells, DoReceive(c, s, u, samples).cells};
    case Stamp(_, frame, slot, cell, ant) =>
      assert Apply(c, s, a).cells in {s.cells, DoStamp(c, s, u, frame, slot, cell, ant).cells};
  }

  /** No step touches a slot that a job still names. */
  lemma NeverRewrittenBeforeFreed(c: Config, actions: seq<Action>, a: Action, t: nat, i: nat)
    requires c.Valid() && c.WholeReservations() && t < |c.packets| && i < c.ringSize
    requires 1 <= Total(FromStart(c, actions), ByOffset(Address(c, t, i)))
    ensures Apply(c, FromStart(c, actions), a).cells[t][i] == FromStart(c, actions).cells[t][i]
  {
    hide Inv, FromStart, Apply, Total, ReceiverOk;
    var s := FromStart(c, actions);
    ReachableInv(c, actions);
    NamedSlotNotHeld(c, s, t, i);
    if (a.Stamp? || a.Receive?) && a.t < |c.packets| {
      ReceiverIsOk(c, s, a.t);
      WritesOnlyHeld(c, s, a.t, a, t, i);
    } else {
      OthersWriteNothing(c, s, a);
    }
  }

  lemma NamedSlotNotHeld(c: Config, s: State, t: nat, i: nat)
    requires Inv(c, s) && t < |c.packets| && i < c.ringSize && 1 <= Total(s, ByOffset(Address(c, t, i)))
    ensures !Holds(c, s, t, i)
  {
    hide Total, Holds, JobsOk, LogOk, StampsOk, ReceiversOk;
    assert SlotOk(c, s, t, i);
  }

  lemma ReceiverIsOk(c: Config, s: State, t: nat)
    requires Inv(c, s) && t < |c.packets|
    ensures ReceiverOk(c.ringSize, c.packets[t], s.receivers[t])
  {
  }

  lemma OthersWriteNothing(c: Config, s: State, a: Action)
    requires Shaped(c, s) && ((a.Stamp? || a.Receive?) ==> a.t >= |c.packets|)
    ensures Apply(c, s, a).cells == s.cells
  {
  }

  /** Nothing is lost and nothing is written twice: the packets posted are those written, those on
      their way, and those misrouted. */
  lemma PostedPacketsAreConserved(c: Config, actions: seq<Action>, p: Packet)
    requires c.Valid() && c.WholeReservations()
    ensures var s := FromStart(c, actions);
      multiset(s.posted)[p] == multiset(s.recorded)[p] + Total(s, ByPacket(p))
  {
    ReachableInv(c, actions);
  }

  lemma RecordedAtMostOnce(c: Config, actions: seq<Action>)
    requires c.Valid() && c.WholeReservations()
    ensures multiset(FromStart(c, actions).recorded) <= multiset(FromStart(c, actions).posted)
  {
    var s := FromStart(c, actions);
    forall p: Packet ensures multiset(s.recorded)[p] <= multiset(s.posted)[p] {
      PostedPacketsAreConserved(c, actions, p);
    }
  }

  // ----- slot 0 -----

  lemma MisroutedOnlyGrows(c: Config, s: State, a: Action, o: nat)
    requires Shaped(c, s)
    ensures Count(s.misrouted, ByOffset(o)) <= Count(Apply(c, s, a).misrouted, ByOffset(o))
  {
    if a.Route? && s.batch != [] {
      CountAppend(s.misrouted, s.batch[0], ByOffset(o));
    }
  }

  lemma {:induction false} MisroutedStays(c: Config, s: State, actions: seq<Action>, o: nat)
    requires Shaped(c, s)
    ensures Count(s.misrouted, ByOffset(o)) <= Count(Run(c, s, actions).misrouted, ByOffset(o))
    decreases |actions|
  {
    hide Apply;
    if actions != [] {
      var before := actions[..|actions| - 1];
      MisroutedStays(c, s, before, o);
      MisroutedOnlyGrows(c, Run(c, s, before), actions[|actions| - 1], o);
    }
  }

  /** A slot whose packet was taken for a frame announcement is never free again. */
  lemma MisroutedSlotIsLost(c: Config, first: seq<Action>, more: seq<Action>, t: nat, i: nat)
    requires c.Valid() && c.WholeReservations() && t < |c.packets| && i < c.ringSize
    requires 1 <= Count(FromStart(c, first).misrouted, ByOffset(Address(c, t, i)))
    ensures Run(c, FromStart(c, first), more).inUse[t][i]
  {
    var s := FromStart(c, first);
    ReachableInv(c, first);
    MisroutedStays(c, s, more, Address(c, t, i));
    RunKeeps(c, s, more);
    assert SlotOk(c, Run(c, s, more), t, i);
  }

  /** No event is on its way and every thread is at the top of its loop. */
  ghost predicate Drained(c: Config, s: State)
    requires Shaped(c, s)
  {
    && s.queue == [] && s.batch == []
    && (forall t | 0 <= t < |c.packets| :: s.receivers[t].phase == Reserving(0))
    && (forall r | 0 <= r < c.recorders :: s.recorders[r] == Recorder([], None, false))
  }

  ghost predicate AllFree(s: State) {
    forall t, i | 0 <= t < |s.inUse| && 0 <= i < |s.inUse[t]| :: !s.inUse[t][i]
  }

  lemma NothingMisrouted(c: Config, s: State)
    requires Inv(c, s) && Drained(c, s) && s.misrouted == []
    ensures AllFree(s)
  {
    forall t, i | 0 <= t < |c.packets| && 0 <= i < c.ringSize ensures !s.inUse[t][i] {
      IdleLoad(s.recorders, ByOffset(Address(c, t, i)));
      assert SlotOk(c, s, t, i);
    }
  }

  /** Once the path has drained, every slot is free again exactly when no packet of slot 0 was posted
      outside internal measurement. */
  lemma DrainedRingIsFreeIff(c: Config, actions: seq<Action>)
    requires c.Valid() && c.WholeReservations() && Drained(c, FromStart(c, actions))
    ensures var s := FromStart(c, actions);
      AllFree(s) <==> c.internalMeasurement || forall p | p in s.posted :: p.slot != 0
  {
    var s := FromStart(c, actions);
    ReachableInv(c, actions);
    forall key: Key ensures Total(s, key) == Count(s.misrouted, key) {
      IdleLoad(s.recorders, key);
    }
    if s.misrouted == [] {
      NothingMisrouted(c, s);
      forall p | p in s.posted && !c.internalMeasurement ensures p.slot != 0 {
        assert multiset(s.posted)[p] == multiset(s.recorded)[p] + Total(s, ByPacket(p));
        assert p in s.recorded;
      }
    } else {
      var j := s.misrouted[0];
      CountMember(s.misrouted, j, ByOffset(j.offset));
      CountMember(s.misrouted, j, ByPacket(j.packet.value));
      NamedIsNotHeld(c, s, j);
      var p := j.packet.value;
      assert multiset(s.posted)[p] == multiset(s.recorded)[p] + Total(s, ByPacket(p));
      assert p in s.posted;
    }
  }

  // ----- the size of the ring -----

  /** The scheduler's buffer holds 80 frames of slots for each radio of a receive thread, so a ring is
      a whole number of one- or two-channel reservations. */
  lemma SizedRingIsWhole(c: Config, slotsPerFrame: nat, radiosPerThread: nat)
    requires c.Valid() && c.ringSize == 80 * slotsPerFrame * radiosPerThread
    requires forall t | 0 <= t < |c.packets| :: c.packets[t] in {1, 2}
    ensures c.WholeReservations()
  {
    var half := 40 * slotsPerFrame * radiosPerThread;
    assert c.ringSize == 2 * half;
    DivModUnique(c.ringSize, 1, c.ringSize, 0);
    DivModUnique(c.ringSize, 2, half, 0);
  }

  lemma {:induction false} RunConcat(c: Config, s: State, a: seq<Action>, b: seq<Action>)
    requires Shaped(c, s)
    ensures Run(c, s, a + b) == Run(c, Run(c, s, a), b)
    decreases |b|
  {
    if b == [] {
      assert a + b == a;
    } else {
      var init := b[..|b| - 1];
      RunConcat(c, s, a, init);
      assert (a + b)[..|a + b| - 1] == a + init;
    }
  }

  lemma RunOne(c: Config, s: State, a: Action)
    requires Shaped(c, s)
    ensures Run(c, s, [a]) == Apply(c, s, a)
  {
    assert [a][..0] == [];
  }

  /** Thread `t` is at `cursor` in `phase`, and no slot from `free` on is marked. */
  ghost predicate At(c: Config, s: State, t: nat, cursor: nat, phase: Phase, free: nat) {
    && Shaped(c, s) && t < |c.packets| && s.status.Running?
    && s.receivers[t] == Receiver(cursor, phase)
    && forall i | free <= i < c.ringSize :: !s.inUse[t][i]
  }

  lemma ReserveOne(c: Config, s: State, t: nat, cursor: nat, taken: nat)
    requires At(c, s, t, cursor, Reserving(taken), cursor + taken)
    requires taken < c.packets[t] && cursor + taken < c.ringSize
    ensures At(c, Apply(c, s, FetchOr(t)), t, cursor, Reserving(taken + 1), cursor + taken + 1)
  {
  }

  lemma {:induction false} ReserveRun(c: Config, s: State, t: nat, cursor: nat, taken: nat, more: nat)
    returns (actions: seq<Action>)
    requires At(c, s, t, cursor, Reserving(taken), cursor + taken)
    requires taken + more <= c.packets[t] && cursor + taken + more <= c.ringSize
    ensures At(c, Run(c, s, actions), t, cursor, Reserving(taken + more), cursor + taken + more)
    decreases more
  {
    hide Apply;
    if more == 0 {
      actions := [];
    } else {
      var s1 := Apply(c, s, FetchOr(t));
      ReserveOne(c, s, t, cursor, taken);
      RunOne(c, s, FetchOr(t));
      var rest := ReserveRun(c, s1, t, cursor, taken + 1, more - 1);
      actions := [FetchOr(t)] + rest;
      RunConcat(c, s, [FetchOr(t)], rest);
    }
  }

  lemma {:induction false} PostRun(c: Config, s: State, t: nat, cursor: nat, posted: nat, free: nat)
    returns (actions: seq<Action>)
    requires 0 < c.antennas
    requires At(c, s, t, cursor, Posting(posted, false), free)
    requires posted < c.packets[t] && cursor + c.packets[t] - posted < c.ringSize
    ensures At(c, Run(c, s, actions), t, cursor + c.packets[t] - posted, Reserving(0), free)
    decreases c.packets[t] - posted
  {
    var two := [Stamp(t, 0, 1, 0, 0)] + [Notify(t)];
    RunOne(c, s, two[0]);
    RunConcat(c, s, [two[0]], [two[1]]);
    RunOne(c, Apply(c, s, two[0]), two[1]);
    CyclicNext(c.ringSize, cursor);
    if posted + 1 == c.packets[t] {
      actions := two;
    } else {
      var rest := PostRun(c, Run(c, s, two), t, cursor + 1, posted + 1, free);
      actions := two + rest;
      RunConcat(c, s, two, rest);
    }
  }

  lemma LapRun(c: Config, s: State, t: nat, cursor: nat) returns (actions: seq<Action>)
    requires 0 < c.antennas && At(c, s, t, cursor, Reserving(0), cursor)
    requires cursor + c.packets[t] < c.ringSize
    ensures At(c, Run(c, s, actions), t, cursor + c.packets[t], Reserving(0), cursor + c.packets[t])
  {
    var k := c.packets[t];
    var reserve := ReserveRun(c, s, t, cursor, 0, k);
    var s1 := Run(c, s, reserve);
    var fill := Receive(t, seq(k, _ => []));
    RunOne(c, s1, fill);
    RunConcat(c, s, reserve, [fill]);
    var post := PostRun(c, Run(c, s, reserve + [fill]), t, cursor, 0, cursor + k);
    actions := reserve + [fill] + post;
    RunConcat(c, s, reserve + [fill], post);
  }

  /** Laps of thread `t` alone until less than one reservation is left, then one slot too many. */
  lemma {:induction false} OverrunRun(c: Config, s: State, t: nat, cursor: nat) returns (actions: seq<Action>)
    requires 0 < c.antennas && At(c, s, t, cursor, Reserving(0), cursor)
    requires cursor <= c.ringSize && 0 < c.packets[t] && (c.ringSize - cursor) % c.packets[t] != 0
    ensures Run(c, s, actions).status == Aborted(BadAddress)
    decreases c.ringSize - cursor
  {
    var k, left := c.packets[t], c.ringSize - cursor;
    if k <= left {
      assert (left - k) % k == left % k by {
        DivMod(left, k);
        DivMod(left - k, k);
        DivModUnique(left, k, (left - k) / k + 1, (left - k) % k);
      }
      DivModUnique(k, k, 1, 0);
      var lap := LapRun(c, s, t, cursor);
      var rest := OverrunRun(c, Run(c, s, lap), t, cursor + k);
      actions := lap + rest;
      RunConcat(c, s, lap, rest);
    } else {
      var reserve := ReserveRun(c, s, t, cursor, 0, left);
      RunOne(c, Run(c, s, reserve), FetchOr(t));
      actions := reserve + [FetchOr(t)];
      RunConcat(c, s, reserve, [FetchOr(t)]);
    }
  }

  /** A reservation runs past the ring in some run exactly when some thread's ring is not a whole
      number of its reservations. */
  lemma RingStaysInBoundsIff(c: Config)
    requires c.Valid() && 0 < c.antennas
    ensures c.WholeReservations() <==> forall actions :: FromStart(c, actions).status != Aborted(BadAddress)
  {
    if c.WholeReservations() {
      forall actions ensures FromStart(c, actions).status != Aborted(BadAddress) {
        OnlyFaultIsBufferFull(c, actions);
      }
    } else {
      var t :| 0 <= t < |c.packets| && c.ringSize % c.packets[t] != 0;
      var actions := OverrunRun(c, Initial(c), t, 0);
      assert FromStart(c, actions).status == Aborted(BadAddress);
    }
  }
}
