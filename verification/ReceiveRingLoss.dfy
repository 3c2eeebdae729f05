/** Slot 0 and the receive path: its packets fill a ring for good, in every configuration that can post one outside
    internal measurement. */
module ReceiveRingLoss {
  import opened Arithmetic
  import opened Common
  import opened ReceiveRing
  import opened ReceiveRingInvariant
  import opened ReceiveRingSafety

  /** Only receive thread 0 has done anything; exactly the first `marked` slots of its ring are marked, and no event on
      its way is for a recorder. */
  ghost predicate Alone(c: Config, s: State, cursor: nat, phase: Phase, marked: nat) {
    && Inv(c, s) && 0 < |c.packets| && s.status.Running?
    && s.receivers[0] == Receiver(cursor, phase)
    && (forall i | 0 <= i < c.ringSize :: s.inUse[0][i] <==> i < marked)
    && (forall t | 0 < t < |c.packets| :: s.receivers[t].phase == Reserving(0))
    && (forall r | 0 <= r < c.recorders :: s.recorders[r] == Recorder([], None, false))
    && s.batch == [] && forall j | j in s.queue :: j.slot == 0
  }

  lemma ReserveStep(c: Config, s: State, cursor: nat, taken: nat)
    requires Alone(c, s, cursor, Reserving(taken), cursor + taken) && taken < c.packets[0]
    ensures Alone(c, Apply(c, s, FetchOr(0)), cursor, Reserving(taken + 1), cursor + taken + 1)
    ensures Apply(c, s, FetchOr(0)).queue == s.queue
  {
    StepKeeps(c, s, FetchOr(0));
    RoomLeft(c.ringSize, c.packets[0], cursor, 0);
    hide Inv;
  }

  lemma {:induction false} Reserve(c: Config, s: State, cursor: nat, taken: nat) returns (actions: seq<Action>)
    requires Alone(c, s, cursor, Reserving(taken), cursor + taken) && s.queue == [] && taken <= c.packets[0]
    ensures Alone(c, Run(c, s, actions), cursor, Reserving(c.packets[0]), cursor + c.packets[0])
    ensures Run(c, s, actions).queue == []
    decreases c.packets[0] - taken
  {
    hide Apply;
    if taken == c.packets[0] {
      actions := [];
    } else {
      ReserveStep(c, s, cursor, taken);
      RunOne(c, s, FetchOr(0));
      var rest := Reserve(c, Apply(c, s, FetchOr(0)), cursor, taken + 1);
      actions := [FetchOr(0)] + rest;
      RunConcat(c, s, [FetchOr(0)], rest);
    }
  }

  lemma ReceiveStep(c: Config, s: State, cursor: nat, marked: nat)
    requires 0 < |c.packets| && Alone(c, s, cursor, Reserving(c.packets[0]), marked)
    ensures var fill := Receive(0, seq(c.packets[0], _ => []));
      Alone(c, Apply(c, s, fill), cursor, Posting(0, false), marked) && Apply(c, s, fill).queue == s.queue
  {
    var fill := Receive(0, seq(c.packets[0], _ => []));
    StepKeeps(c, s, fill);
    hide Inv;
  }

  /** Where the cursor is once a reservation is posted. */
  function Next(c: Config, cursor: nat): nat { if cursor == c.ringSize then 0 else cursor }

  lemma StampStep(c: Config, s: State, cursor: nat, posted: nat, marked: nat)
    requires Alone(c, s, cursor, Posting(posted, false), marked) && 0 < c.antennas
    ensures var s' := Apply(c, s, Stamp(0, 0, 0, 0, 0));
      Alone(c, s', cursor, Posting(posted, true), marked) && cursor < c.ringSize && s'.cells[0][cursor].slot == 0
  {
    StepKeeps(c, s, Stamp(0, 0, 0, 0, 0));
    assert ReceiverOk(c.ringSize, c.packets[0], s.receivers[0]);
    hide Inv;
  }

  lemma NotifyStep(c: Config, s: State, cursor: nat, posted: nat, marked: nat)
    requires Alone(c, s, cursor, Posting(posted, true), marked)
    requires cursor < c.ringSize && s.cells[0][cursor].slot == 0
    ensures Alone(c, Apply(c, s, Notify(0)), Next(c, cursor + 1),
                  if posted + 1 < c.packets[0] then Posting(posted + 1, false) else Reserving(0), marked)
    ensures posted < c.packets[0] && cursor + c.packets[0] - posted <= c.ringSize
  {
    StepKeeps(c, s, Notify(0));
    assert ReceiverOk(c.ringSize, c.packets[0], s.receivers[0]);
    RoomLeft(c.ringSize, c.packets[0], cursor, posted);
    CyclicNext(c.ringSize, cursor);
    hide Inv;
  }

  /** Posts the rest of a reservation as packets of slot 0. */
  lemma {:induction false} Post(c: Config, s: State, cursor: nat, posted: nat, marked: nat) returns (actions: seq<Action>)
    requires Alone(c, s, cursor, Posting(posted, false), marked) && 0 < c.antennas && posted < c.packets[0]
    ensures Alone(c, Run(c, s, actions), Next(c, cursor + c.packets[0] - posted), Reserving(0), marked)
    decreases c.packets[0] - posted
  {
    hide Apply, Alone, Inv;
    IsShaped(c, s, cursor, Posting(posted, false), marked);
    var s1 := Apply(c, s, Stamp(0, 0, 0, 0, 0));
    StampStep(c, s, cursor, posted, marked);
    NotifyStep(c, s1, cursor, posted, marked);
    var two := [Stamp(0, 0, 0, 0, 0)] + [Notify(0)];
    RunOne(c, s, Stamp(0, 0, 0, 0, 0));
    RunConcat(c, s, [Stamp(0, 0, 0, 0, 0)], [Notify(0)]);
    RunOne(c, s1, Notify(0));
    if posted + 1 == c.packets[0] {
      actions := two;
    } else {
      var rest := Post(c, Run(c, s, two), cursor + 1, posted + 1, marked);
      actions := two + rest;
      RunConcat(c, s, two, rest);
    }
  }

  lemma IsShaped(c: Config, s: State, cursor: nat, phase: Phase, marked: nat)
    requires Alone(c, s, cursor, phase, marked)
    ensures Shaped(c, s) && 0 < |c.packets| && c.WholeReservations()
  {
  }

  lemma RouteStep(c: Config, s: State, cursor: nat, marked: nat)
    requires Alone(c, s, cursor, Reserving(0), marked) && !c.internalMeasurement && s.queue != []
    ensures var s' := Apply(c, Apply(c, s, Dequeue(0)), Route);
      Alone(c, s', cursor, Reserving(0), marked) && s'.queue == s.queue[1..]
  {
    StepKeeps(c, s, Dequeue(0));
    StepKeeps(c, Apply(c, s, Dequeue(0)), Route);
    hide Inv;
    assert s.queue[..0] + s.queue[0 + 1..] == s.queue[1..];
  }

  /** The scheduler takes every event for a frame announcement. */
  lemma {:induction false} Drain(c: Config, s: State, cursor: nat, marked: nat) returns (actions: seq<Action>)
    requires Alone(c, s, cursor, Reserving(0), marked) && !c.internalMeasurement
    ensures Alone(c, Run(c, s, actions), cursor, Reserving(0), marked) && Run(c, s, actions).queue == []
    decreases |s.queue|
  {
    hide Apply, Alone, Inv;
    IsShaped(c, s, cursor, Reserving(0), marked);
    if s.queue == [] {
      actions := [];
    } else {
      RouteStep(c, s, cursor, marked);
      var two := [Dequeue(0)] + [Route];
      RunOne(c, s, Dequeue(0));
      RunConcat(c, s, [Dequeue(0)], [Route]);
      RunOne(c, Apply(c, s, Dequeue(0)), Route);
      var rest := Drain(c, Run(c, s, two), cursor, marked);
      actions := two + rest;
      RunConcat(c, s, two, rest);
    }
  }

  /** One reservation of packets of slot 0, posted and drained: its slots stay marked. */
  lemma Lap(c: Config, s: State, cursor: nat) returns (actions: seq<Action>)
    requires Alone(c, s, cursor, Reserving(0), cursor) && s.queue == [] && 0 < c.antennas && !c.internalMeasurement
    ensures Alone(c, Run(c, s, actions), Next(c, cursor + c.packets[0]), Reserving(0), cursor + c.packets[0])
    ensures Run(c, s, actions).queue == []
  {
    hide Apply, Alone, Inv, Run;
    IsShaped(c, s, cursor, Reserving(0), cursor);
    var k := c.packets[0];
    var reserve := Reserve(c, s, cursor, 0);
    var s1 := Run(c, s, reserve);
    var fill := Receive(0, seq(k, _ => []));
    ReceiveStep(c, s1, cursor, cursor + k);
    RunOne(c, s1, fill);
    var post := Post(c, Apply(c, s1, fill), cursor, 0, cursor + k);
    var drain := Drain(c, Run(c, Apply(c, s1, fill), post), Next(c, cursor + k), cursor + k);
    actions := reserve + ([fill] + (post + drain));
    RunConcat(c, s, reserve, [fill] + (post + drain));
    RunConcat(c, s1, [fill], post + drain);
    RunConcat(c, Apply(c, s1, fill), post, drain);
  }

  lemma CursorBelow(c: Config, s: State, cursor: nat, marked: nat)
    requires Alone(c, s, cursor, Reserving(0), marked)
    ensures cursor + c.packets[0] <= c.ringSize && 0 < c.packets[0]
  {
    assert ReceiverOk(c.ringSize, c.packets[0], s.receivers[0]);
    RoomLeft(c.ringSize, c.packets[0], cursor, 0);
  }

  lemma {:induction false} Laps(c: Config, s: State, cursor: nat) returns (actions: seq<Action>)
    requires Alone(c, s, cursor, Reserving(0), cursor) && s.queue == [] && 0 < c.antennas && !c.internalMeasurement
    ensures Alone(c, Run(c, s, actions), 0, Reserving(0), c.ringSize) && Run(c, s, actions).queue == []
    decreases c.ringSize - cursor
  {
    hide Apply, Alone, Inv, Run;
    IsShaped(c, s, cursor, Reserving(0), cursor);
    CursorBelow(c, s, cursor, cursor);
    var lap := Lap(c, s, cursor);
    if cursor + c.packets[0] == c.ringSize {
      actions := lap;
    } else {
      var rest := Laps(c, Run(c, s, lap), cursor + c.packets[0]);
      actions := lap + rest;
      RunConcat(c, s, lap, rest);
    }
  }

  /** The path has drained, nobody holds a slot, and yet every slot of ring 0 is marked: the next reservation ends the
      program. */
  ghost predicate RingIsLost(c: Config, s: State)
    requires Shaped(c, s)
  {
    && Drained(c, s) && 0 < |c.packets|
    && (forall i | 0 <= i < c.ringSize :: s.inUse[0][i])
    && Apply(c, s, FetchOr(0)).status == Aborted(BufferFull)
  }

  lemma LostByThen(c: Config, s: State)
    requires Alone(c, s, 0, Reserving(0), c.ringSize) && s.queue == []
    ensures RingIsLost(c, s)
  {
  }

  /** In every configuration that can post a packet of slot 0 outside internal measurement, such packets use up a whole
      ring. */
  lemma SlotZeroUsesUpTheRing(c: Config) returns (actions: seq<Action>)
    requires c.Valid() && c.WholeReservations() && !c.internalMeasurement && 0 < c.antennas && 0 < |c.packets|
    ensures RingIsLost(c, FromStart(c, actions))
  {
    InitialInv(c);
    actions := Laps(c, Initial(c), 0);
    LostByThen(c, FromStart(c, actions));
  }

  ghost predicate DrainsClean(c: Config, actions: seq<Action>)
    requires c.Valid()
  {
    Drained(c, FromStart(c, actions)) ==> AllFree(FromStart(c, actions))
  }

  lemma NoAntennasNoLoss(c: Config, actions: seq<Action>)
    requires c.Valid() && c.WholeReservations() && c.antennas == 0
    ensures DrainsClean(c, actions)
  {
    var s := FromStart(c, actions);
    ReachableInv(c, actions);
    NothingToMisroute(c, s);
    if Drained(c, s) {
      NothingMisrouted(c, s);
    }
  }

  lemma NothingToMisroute(c: Config, s: State)
    requires Inv(c, s) && c.antennas == 0
    ensures s.misrouted == []
  {
    if s.misrouted != [] {
      PacketHasAntenna(c, s, s.misrouted[0]);
    }
  }

  lemma PacketHasAntenna(c: Config, s: State, j: Job)
    requires Inv(c, s) && j in s.misrouted
    ensures 0 < c.antennas
  {
  }

  /** A ring is free whenever the path has drained, in all runs, if and only if the configuration measures internally,
      or has nothing to receive. */
  lemma AlwaysDrainsCleanIff(c: Config)
    requires c.Valid() && c.WholeReservations()
    ensures (forall actions :: DrainsClean(c, actions)) <==> c.internalMeasurement || c.antennas == 0 || |c.packets| == 0
  {
    hide FromStart;
    if c.internalMeasurement || c.antennas == 0 || |c.packets| == 0 {
      forall actions ensures DrainsClean(c, actions) {
        if c.antennas == 0 {
          NoAntennasNoLoss(c, actions);
        } else if Drained(c, FromStart(c, actions)) && c.internalMeasurement {
          DrainedRingIsFreeIff(c, actions);
        }
      }
    } else {
      var actions := SlotZeroUsesUpTheRing(c);
      assert FromStart(c, actions).inUse[0][0];
      assert !DrainsClean(c, actions);
    }
  }
}
