/** What the steps of the receive path achieve: announcements reach a reader, tasks are served, and a reservation that is
    given up leaves no trace. */
module ReceiveRingProgress {
  import opened Arithmetic
  import opened Common
  import opened ReceiveRing
  import opened ReceiveRingInvariant
  import opened ReceiveRingPackets
  import opened ReceiveRingSafety

  // ----- announcements -----

  /** How many of the jobs announce frame `frame` for radio `radio`. */
  function Announcing(js: seq<Job>, frame: nat, radio: nat): nat {
    if js == [] then 0
    else
      Announcing(js[1..], frame, radio) +
      if js[0].packet.None? && js[0].frame == frame && js[0].ant == radio then 1 else 0
  }

  lemma {:induction false} AnnouncingConcat(a: seq<Job>, b: seq<Job>, frame: nat, radio: nat)
    ensures Announcing(a + b, frame, radio) == Announcing(a, frame, radio) + Announcing(b, frame, radio)
  {
    if a == [] {
      assert a + b == b;
    } else {
      assert (a + b)[1..] == a[1..] + b;
      AnnouncingConcat(a[1..], b, frame, radio);
    }
  }

  /** How often a run announced the frame while the path was running. */
  ghost function Announced(c: Config, actions: seq<Action>, frame: nat, radio: nat): nat
    requires c.Valid()
    decreases |actions|
  {
    if actions == [] then 0
    else
      Announced(c, Before(actions), frame, radio) +
      if Last(actions) == NotifyFrame(frame, radio) && FromStart(c, Before(actions)).status.Running? then 1 else 0
  }

  function OnTheWay(s: State, frame: nat, radio: nat): nat {
    Announcing(s.queue, frame, radio) + Announcing(s.batch, frame, radio) + Announcing(s.readTasks, frame, radio)
  }

  /** Outside internal measurement each announcement of a frame waits in the queue or the batch, or has been handed to a
      reader: once for each time it was made. */
  lemma {:induction false} AnnouncementsAreKept(c: Config, actions: seq<Action>, frame: nat, radio: nat)
    requires c.Valid() && c.WholeReservations() && !c.internalMeasurement
    ensures OnTheWay(FromStart(c, actions), frame, radio) == Announced(c, actions, frame, radio)
    decreases |actions|
  {
    hide Apply, Inv, OnTheWay;
    if actions == [] {
      NothingAnnounced(c, frame, radio);
    } else {
      AnnouncementsAreKept(c, Before(actions), frame, radio);
      ReachableInv(c, Before(actions));
      AnnouncementStep(c, FromStart(c, Before(actions)), Last(actions), frame, radio);
    }
  }

  lemma NothingAnnounced(c: Config, frame: nat, radio: nat)
    requires c.Valid()
    ensures OnTheWay(FromStart(c, []), frame, radio) == 0
  {
  }

  lemma AnnouncementStep(c: Config, s: State, a: Action, frame: nat, radio: nat)
    requires Inv(c, s) && !c.internalMeasurement
    ensures OnTheWay(Apply(c, s, a), frame, radio) == OnTheWay(s, frame, radio) +
            if a == NotifyFrame(frame, radio) && s.status.Running? then 1 else 0
  {
    if a.NotifyFrame? {
      AnnouncingConcat(s.queue, [Job(0, a.frame, 0, a.radio, None)], frame, radio);
    } else if a.Notify? {
      hide Apply, Inv;
      AnnouncingConcat(s.queue, Apply(c, s, a).queue[|s.queue|..], frame, radio);
      PostedIsNoAnnouncement(c, s, a, frame, radio);
    } else if a.Dequeue? {
      DequeueMoves(c, s, a.i, frame, radio);
    } else if a.Route? && s.batch != [] {
      RouteMoves(c, s, frame, radio);
    } else {
      OthersAnnounceNothing(c, s, a);
    }
  }

  lemma DequeueMoves(c: Config, s: State, i: nat, frame: nat, radio: nat)
    requires Shaped(c, s)
    ensures OnTheWay(Apply(c, s, Dequeue(i)), frame, radio) == OnTheWay(s, frame, radio)
  {
    hide Announcing;
    if i < |s.queue| {
      assert s.queue == s.queue[..i] + ([s.queue[i]] + s.queue[i + 1..]);
      AnnouncingConcat(s.queue[..i], [s.queue[i]] + s.queue[i + 1..], frame, radio);
      AnnouncingConcat([s.queue[i]], s.queue[i + 1..], frame, radio);
      AnnouncingConcat(s.queue[..i], s.queue[i + 1..], frame, radio);
      AnnouncingConcat(s.batch, [s.queue[i]], frame, radio);
    }
  }

  lemma RouteMoves(c: Config, s: State, frame: nat, radio: nat)
    requires Inv(c, s) && !c.internalMeasurement && s.batch != []
    ensures OnTheWay(Apply(c, s, Route), frame, radio) == OnTheWay(s, frame, radio)
  {
    hide ReceiversOk, SlotsOk, LogOk, StampsOk;
    assert JobOk(c, s.cells, s.batch[0]);
    AnnouncingConcat(s.readTasks, [s.batch[0]], frame, radio);
  }

  lemma OthersAnnounceNothing(c: Config, s: State, a: Action)
    requires Shaped(c, s) && !a.NotifyFrame? && !a.Notify? && !a.Dequeue? && (a.Route? ==> s.batch == [])
    ensures var s' := Apply(c, s, a); s'.queue == s.queue && s'.batch == s.batch && s'.readTasks == s.readTasks
  {
  }

  lemma PostedIsNoAnnouncement(c: Config, s: State, a: Action, frame: nat, radio: nat)
    requires Shaped(c, s) && a.Notify?
    ensures s.queue <= Apply(c, s, a).queue && Announcing(Apply(c, s, a).queue[|s.queue|..], frame, radio) == 0
    ensures Apply(c, s, a).batch == s.batch && Apply(c, s, a).readTasks == s.readTasks
  {
  }

  // ----- tasks -----

  /** Three steps of an idle recorder serve its first task: the packet is written and its slot is free. */
  lemma TakeRecordFree(c: Config, s: State, r: nat)
    requires Inv(c, s) && s.status.Running? && r < c.recorders && s.recorders[r].busy.None? && s.recorders[r].queue != []
    ensures var job, s' := s.recorders[r].queue[0], Apply(c, Apply(c, Apply(c, s, Take(r)), Record(r)), Free(r));
      && job.packet.Some? && BufferId(c, job.offset) < |c.packets|
      && s'.status.Running? && s'.recorded == s.recorded + [job.packet.value]
      && s'.recorders == s.recorders[r := Recorder(s.recorders[r].queue[1..], None, false)]
      && s'.inUse == SetBit(s, BufferId(c, job.offset), BufferOffset(c, job.offset), false).inUse
      && s'.cells == s.cells && s'.receivers == s.receivers && s'.queue == s.queue && s'.batch == s.batch
  {
    var taken := Apply(c, s, Take(r));
    StepKeeps(c, s, Take(r));
    RecordWrites(c, taken, r);
    assert RecorderOk(c, s.cells, r, s.recorders[r]);
    hide Inv;
  }

  /** The path checks what it relies on: a recorder refuses a packet whose antenna is not its own, and the scheduler an
      antenna that no recorder serves. */
  lemma RefusesStrayPackets(c: Config, s: State, r: nat)
    requires Shaped(c, s) && s.status.Running? && r < c.recorders && s.recorders[r].busy.Some? && !s.recorders[r].written
    requires BufferId(c, s.recorders[r].busy.value.offset) < |c.packets|
    ensures var offset := s.recorders[r].busy.value.offset;
      var ant := s.cells[BufferId(c, offset)][BufferOffset(c, offset)].ant;
      Apply(c, s, Record(r)).status == (if InBlock(c.ThreadAntennas(), r, ant) then Running else Aborted(AntennaOutOfRange))
  {
  }

  lemma RefusesStrayJobs(c: Config, s: State)
    requires Shaped(c, s) && s.status.Running? && s.batch != [] && 0 < c.ThreadAntennas()
    requires c.internalMeasurement || s.batch[0].slot != 0
    ensures Apply(c, s, Route).status ==
            if s.batch[0].ant < c.recorders * c.ThreadAntennas() then Running else Aborted(NoSuchRecorder)
  {
    hide Config.ThreadAntennas;
    QuotientAtLeast(s.batch[0].ant, c.ThreadAntennas(), c.recorders);
  }

  // ----- giving up -----

  /** `n` times the same step. */
  function Times(a: Action, n: nat): seq<Action> { seq(n, _ => a) }

  /** Reserving a slot for each channel, throwing away what was received, and giving the slots back. */
  function ReserveAndDiscard(c: Config, t: nat): seq<Action>
    requires t < |c.packets|
  {
    Times(FetchOr(t), c.packets[t]) + ([Discard(t)] + Times(FetchAnd(t), c.packets[t]))
  }

  /** The state with thread `t` in `phase` and the slots from `from` to before `to` of its ring marked. */
  function Marked(s: State, t: nat, phase: Phase, from: nat, to: nat): State
    requires t < |s.inUse| && t < |s.receivers|
  {
    var row := seq(|s.inUse[t]|, i requires 0 <= i < |s.inUse[t]| => if from <= i < to then true else s.inUse[t][i]);
    s.(inUse := s.inUse[t := row], receivers := s.receivers[t := s.receivers[t].(phase := phase)])
  }

  ghost predicate ReadyToReserve(c: Config, s: State, t: nat) {
    && Shaped(c, s) && s.status.Running? && t < |c.packets| && s.receivers[t].phase == Reserving(0)
    && s.receivers[t].cursor + c.packets[t] <= c.ringSize && 0 < c.packets[t]
    && forall i | s.receivers[t].cursor <= i < s.receivers[t].cursor + c.packets[t] :: !s.inUse[t][i]
  }

  lemma {:induction false} ReservesAll(c: Config, s: State, t: nat, n: nat)
    requires ReadyToReserve(c, s, t) && n <= c.packets[t]
    ensures var first := s.receivers[t].cursor;
      Run(c, s, Times(FetchOr(t), n)) == Marked(s, t, Reserving(n), first, first + n)
    decreases n
  {
    hide Apply, Marked;
    var first := s.receivers[t].cursor;
    if n == 0 {
      NothingMarked(s, t, first);
    } else {
      ReservesAll(c, s, t, n - 1);
      assert Times(FetchOr(t), n)[..n - 1] == Times(FetchOr(t), n - 1);
      ReservesOne(c, s, t, n - 1);
    }
  }

  lemma NothingMarked(s: State, t: nat, first: nat)
    requires t < |s.inUse| && t < |s.receivers|
    ensures Marked(s, t, s.receivers[t].phase, first, first) == s
  {
    assert Marked(s, t, s.receivers[t].phase, first, first).inUse[t] == s.inUse[t];
  }

  lemma ReservesOne(c: Config, s: State, t: nat, n: nat)
    requires ReadyToReserve(c, s, t) && n < c.packets[t]
    ensures var first := s.receivers[t].cursor;
      Apply(c, Marked(s, t, Reserving(n), first, first + n), FetchOr(t)) ==
      Marked(s, t, Reserving(n + 1), first, first + n + 1)
  {
    var first := s.receivers[t].cursor;
    var m := Marked(s, t, Reserving(n), first, first + n);
    assert m.inUse[t][first + n := true] == Marked(s, t, Reserving(n + 1), first, first + n + 1).inUse[t];
  }

  lemma {:induction false} ReleasesAll(c: Config, s: State, t: nat, n: nat)
    requires ReadyToReserve(c, s, t) && n <= c.packets[t]
    ensures var first, k := s.receivers[t].cursor, c.packets[t];
      Run(c, Marked(s, t, Releasing(0), first, first + k), Times(FetchAnd(t), n)) ==
      Marked(s, t, if n < k then Releasing(n) else Reserving(0), first + n, first + k)
    decreases n
  {
    hide Apply, Marked;
    if n > 0 {
      ReleasesAll(c, s, t, n - 1);
      assert Times(FetchAnd(t), n)[..n - 1] == Times(FetchAnd(t), n - 1);
      ReleasesOne(c, s, t, n - 1);
    }
  }

  lemma ReleasesOne(c: Config, s: State, t: nat, n: nat)
    requires ReadyToReserve(c, s, t) && n < c.packets[t]
    ensures var first, k := s.receivers[t].cursor, c.packets[t];
      Apply(c, Marked(s, t, Releasing(n), first + n, first + k), FetchAnd(t)) ==
      Marked(s, t, if n + 1 < k then Releasing(n + 1) else Reserving(0), first + n + 1, first + k)
  {
    var first, k := s.receivers[t].cursor, c.packets[t];
    var m := Marked(s, t, Releasing(n), first + n, first + k);
    assert m.inUse[t][first + n := false] == Marked(s, t, Releasing(n), first + n + 1, first + k).inUse[t];
  }

  /** A reservation that is given up leaves no trace: the path is in the state before it. */
  lemma DiscardUndoesReservation(c: Config, s: State, t: nat)
    requires ReadyToReserve(c, s, t)
    ensures Run(c, s, ReserveAndDiscard(c, t)) == s
  {
    hide Apply, Run, Marked;
    var first, k := s.receivers[t].cursor, c.packets[t];
    ReservesAll(c, s, t, k);
    var full := Run(c, s, Times(FetchOr(t), k));
    Discards(c, s, t);
    RunOne(c, full, Discard(t));
    ReleasesAll(c, s, t, k);
    RunConcat(c, s, Times(FetchOr(t), k), [Discard(t)] + Times(FetchAnd(t), k));
    RunConcat(c, full, [Discard(t)], Times(FetchAnd(t), k));
    NothingMarked(s, t, first + k);
  }

  lemma Discards(c: Config, s: State, t: nat)
    requires ReadyToReserve(c, s, t)
    ensures var first, k := s.receivers[t].cursor, c.packets[t];
      Apply(c, Marked(s, t, Reserving(k), first, first + k), Discard(t)) == Marked(s, t, Releasing(0), first, first + k)
  {
  }

  // ----- a failed radio -----

  /** After the radio has failed the thread never acts again, whatever it tries. */
  lemma {:induction false} FailureHalts(c: Config, s: State, t: nat, actions: seq<Action>)
    requires Shaped(c, s) && s.status.Running? && t < |c.packets| && s.receivers[t].phase == Reserving(c.packets[t])
    ensures Run(c, Apply(c, s, RxFailure(t)), actions).receivers[t] == s.receivers[t].(phase := Halted)
    decreases |actions|
  {
    if actions != [] {
      FailureHalts(c, s, t, Before(actions));
      HaltedStays(c, Run(c, Apply(c, s, RxFailure(t)), Before(actions)), t, Last(actions));
    }
  }

  lemma HaltedStays(c: Config, s: State, t: nat, a: Action)
    requires Shaped(c, s) && t < |c.packets| && s.receivers[t].phase.Halted?
    ensures Apply(c, s, a).receivers[t] == s.receivers[t]
  {
  }
}
