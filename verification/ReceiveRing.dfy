/** The concurrent receive path: receive threads reserve slots of their ring, fill them and post
    events; the scheduler routes each event; recorder threads write the packet out and free its slot.

    The path is a step system.  An `Action` names one atomic step of one thread and `Apply` performs
    it, so a sequence of actions is one interleaving; an action that its thread cannot take at that
    moment leaves the state alone, which makes every sequence of actions a run.  */
module ReceiveRing {
  import opened Common

  /** `ringSize` packets fit a receive thread's buffer; thread `t` takes `packets[t]` of them at once
      (one per channel of the radio).  `antennas` is the number of recorded antennas. */
  datatype Config = Config(
    ringSize: nat,
    packets: seq<nat>,
    recorders: nat,
    antennas: nat,
    internalMeasurement: bool)
  {
    predicate Valid() {
      && 0 < ringSize
      && 0 < recorders
      && forall t | 0 <= t < |packets| :: 0 < packets[t]
    }

    /** The scheduler deals antennas out to recorders in blocks of this size. */
    function ThreadAntennas(): nat
      requires Valid()
    {
      antennas / recorders + if antennas % recorders != 0 then 1 else 0
    }

    /** Every ring is a whole number of simultaneous reservations. */
    predicate WholeReservations() {
      forall t | 0 <= t < |packets| :: 0 < packets[t] && ringSize % packets[t] == 0
    }
  }

  datatype Packet = Packet(frame: nat, slot: nat, cell: nat, ant: nat, samples: seq<int>)

  /** An event and the task made from it.  `packet` is the model's record of what the receive thread
      had in the slot when it posted the event; None for an event that only announces a frame. */
  datatype Job = Job(offset: nat, frame: nat, slot: nat, ant: nat, packet: Option<Packet>)

  /** Where a receive thread is in its loop.  `Reserving(0)` is the top of the loop. */
  datatype Phase =
    | Reserving(taken: nat)
    | Posting(posted: nat, stamped: bool)
    | Releasing(freed: nat)
    | Halted

  datatype Receiver = Receiver(cursor: nat, phase: Phase)

  /** `busy` is the task in HandleEvent; `written` once the worker has recorded its packet. */
  datatype Recorder = Recorder(queue: seq<Job>, busy: Option<Job>, written: bool)

  datatype Fault = BufferFull | FreedWhenFree | BadAddress | NoSuchRecorder | AntennaOutOfRange

  datatype Status = Running | Aborted(fault: Fault)

  /** `queue` is the message queue, from which any entry may leave next; `batch` is what the
      scheduler has dequeued in bulk.  `readTasks`, `misrouted`, `posted` and `recorded` are histories: what
      was handed to a reader, the packets among it, packets posted, packets written out. */
  datatype State = State(
    inUse: seq<seq<bool>>,
    cells: seq<seq<Packet>>,
    receivers: seq<Receiver>,
    queue: seq<Job>,
    batch: seq<Job>,
    recorders: seq<Recorder>,
    readTasks: seq<Job>,
    misrouted: seq<Job>,
    posted: seq<Packet>,
    recorded: seq<Packet>,
    status: Status)

  const BULK_SIZE := 5

  predicate Shaped(c: Config, s: State) {
    && c.Valid()
    && |s.inUse| == |s.cells| == |s.receivers| == |c.packets|
    && (forall t | 0 <= t < |c.packets| :: |s.inUse[t]| == c.ringSize && |s.cells[t]| == c.ringSize)
    && |s.recorders| == c.recorders
  }

  function Initial(c: Config): (s: State)
    requires c.Valid()
    ensures Shaped(c, s)
  {
    var blank := Packet(0, 0, 0, 0, []);
    State(
      seq(|c.packets|, t => seq(c.ringSize, i => false)),
      seq(|c.packets|, t => seq(c.ringSize, i => blank)),
      seq(|c.packets|, t => Receiver(0, Reserving(0))),
      [], [],
      seq(c.recorders, r => Recorder([], None, false)),
      [], [], [], [], Running)
  }

  function Address(c: Config, t: nat, i: nat): nat {
    i + t * c.ringSize
  }

  datatype Action =
    | FetchOr(t: nat)
    | Receive(t: nat, samples: seq<seq<int>>)
    | Discard(t: nat)
    | RxFailure(t: nat)
    | FetchAnd(t: nat)
    | Stamp(t: nat, frame: nat, slot: nat, cell: nat, ant: nat)
    | Notify(t: nat)
    | NotifyFrame(frame: nat, radio: nat)
    | Dequeue(i: nat)
    | Route
    | Take(r: nat)
    | Record(r: nat)
    | Free(r: nat)

  function SetBit(s: State, t: nat, i: nat, value: bool): State
    requires t < |s.inUse| && i < |s.inUse[t]|
  {
    s.(inUse := s.inUse[t := s.inUse[t][i := value]])
  }

  function SetReceiver(s: State, t: nat, r: Receiver): State
    requires t < |s.receivers|
  {
    s.(receivers := s.receivers[t := r])
  }

  function SetRecorder(s: State, r: nat, to: Recorder): State
    requires r < |s.recorders|
  {
    s.(recorders := s.recorders[r := to])
  }

  function Abort(s: State, fault: Fault): State {
    s.(status := Aborted(fault))
  }

  /** Marks one more slot full; a slot that is already full ends the program. */
  function DoFetchOr(c: Config, s: State, t: nat): (s': State)
    requires Shaped(c, s) && t < |c.packets|
    ensures Shaped(c, s')
  {
    var r := s.receivers[t];
    if r.phase.Reserving? && r.phase.taken < c.packets[t] then
      var i := r.cursor + r.phase.taken;
      if i >= c.ringSize then Abort(s, BadAddress)
      else if s.inUse[t][i] then Abort(s, BufferFull)
      else SetReceiver(SetBit(s, t, i, true), t, r.(phase := Reserving(r.phase.taken + 1)))
    else s
  }

  /** The slots of one radioRx after the radio has written `samples` to them, one seq per channel. */
  function Filled(row: seq<Packet>, from: nat, samples: seq<seq<int>>): (filled: seq<Packet>)
    ensures |filled| == |row|
  {
    seq(|row|, i requires 0 <= i < |row| =>
      if from <= i < from + |samples| then row[i].(samples := samples[i - from]) else row[i])
  }

  predicate AllReserved(c: Config, s: State, t: nat)
    requires Shaped(c, s) && t < |c.packets|
  {
    s.receivers[t].phase == Reserving(c.packets[t])
  }

  function DoReceive(c: Config, s: State, t: nat, samples: seq<seq<int>>): (s': State)
    requires Shaped(c, s) && t < |c.packets|
    ensures Shaped(c, s')
  {
    var r := s.receivers[t];
    if AllReserved(c, s, t) && |samples| == c.packets[t] then
      SetReceiver(s.(cells := s.cells[t := Filled(s.cells[t], r.cursor, samples)]),
                  t, r.(phase := Posting(0, false)))
    else s
  }

  /** The slot is neither pilot nor uplink: its samples went to a dummy buffer. */
  function DoDiscard(c: Config, s: State, t: nat): (s': State)
    requires Shaped(c, s) && t < |c.packets|
    ensures Shaped(c, s')
  {
    if AllReserved(c, s, t) then SetReceiver(s, t, s.receivers[t].(phase := Releasing(0))) else s
  }

  /** radioRx reported an error: the thread leaves its loop with its slots still marked. */
  function DoRxFailure(c: Config, s: State, t: nat): (s': State)
    requires Shaped(c, s) && t < |c.packets|
    ensures Shaped(c, s')
  {
    if AllReserved(c, s, t) then SetReceiver(s, t, s.receivers[t].(phase := Halted)) else s
  }

  /** Gives back one slot of a discarded reservation; a slot that is already free ends the program. */
  function DoFetchAnd(c: Config, s: State, t: nat): (s': State)
    requires Shaped(c, s) && t < |c.packets|
    ensures Shaped(c, s')
  {
    var r := s.receivers[t];
    if r.phase.Releasing? then
      var i := r.cursor + r.phase.freed;
      if i >= c.ringSize then Abort(s, BadAddress)
      else if !s.inUse[t][i] then Abort(s, FreedWhenFree)
      else
        var next := if r.phase.freed + 1 < c.packets[t] then Releasing(r.phase.freed + 1) else Reserving(0);
        SetReceiver(SetBit(s, t, i, false), t, r.(phase := next))
    else s
  }

  /** Writes the packet header.  The antenna a receive thread computes is one of the recorded ones. */
  function DoStamp(c: Config, s: State, t: nat, frame: nat, slot: nat, cell: nat, ant: nat): (s': State)
    requires Shaped(c, s) && t < |c.packets|
    ensures Shaped(c, s')
  {
    var r := s.receivers[t];
    if r.phase.Posting? && !r.phase.stamped && ant < c.antennas then
      if r.cursor >= c.ringSize then Abort(s, BadAddress)
      else
        var pkt := Packet(frame, slot, cell, ant, s.cells[t][r.cursor].samples);
        SetReceiver(s.(cells := s.cells[t := s.cells[t][r.cursor := pkt]]),
                    t, r.(phase := r.phase.(stamped := true)))
    else s
  }

  function DoNotify(c: Config, s: State, t: nat): (s': State)
    requires Shaped(c, s) && t < |c.packets|
    ensures Shaped(c, s')
  {
    var r := s.receivers[t];
    if r.phase.Posting? && r.phase.stamped then
      if r.cursor >= c.ringSize then Abort(s, BadAddress)
      else
        var pkt := s.cells[t][r.cursor];
        var job := Job(Address(c, t, r.cursor), pkt.frame, pkt.slot, pkt.ant, Some(pkt));
        var next := if r.phase.posted + 1 < c.packets[t] then Posting(r.phase.posted + 1, false) else Reserving(0);
        SetReceiver(s.(queue := s.queue + [job], posted := s.posted + [pkt]),
                    t, Receiver((r.cursor + 1) % c.ringSize, next))
    else s
  }

  /** Announces a frame so that a reader fetches its transmit data: slot 0, offset 0, no packet. */
  function DoNotifyFrame(c: Config, s: State, frame: nat, radio: nat): (s': State)
    requires Shaped(c, s)
    ensures Shaped(c, s')
  {
    if c.internalMeasurement then s else s.(queue := s.queue + [Job(0, frame, 0, radio, None)])
  }

  function DoDequeue(c: Config, s: State, i: nat): (s': State)
    requires Shaped(c, s)
    ensures Shaped(c, s')
  {
    if i < |s.queue| && |s.batch| < BULK_SIZE then
      s.(queue := s.queue[..i] + s.queue[i + 1..], batch := s.batch + [s.queue[i]])
    else s
  }

  /** The scheduler's dispatch: slot 0 schedules a read, anything else goes to a recorder. */
  function DoRoute(c: Config, s: State): (s': State)
    requires Shaped(c, s)
    ensures Shaped(c, s')
  {
    if s.batch == [] then s
    else
      var job := s.batch[0];
      var rest := s.(batch := s.batch[1..]);
      if !c.internalMeasurement && job.slot == 0 then
        rest.(readTasks := s.readTasks + [job],
              misrouted := if job.packet.Some? then s.misrouted + [job] else s.misrouted)
      else if c.ThreadAntennas() == 0 then Abort(s, NoSuchRecorder)
      else
        var index := job.ant / c.ThreadAntennas();
        if index >= c.recorders then Abort(s, NoSuchRecorder)
        else
          var to := s.recorders[index];
          SetRecorder(rest, index, to.(queue := to.queue + [job]))
  }

  function DoTake(c: Config, s: State, r: nat): (s': State)
    requires Shaped(c, s) && r < c.recorders
    ensures Shaped(c, s')
  {
    var me := s.recorders[r];
    if me.busy.None? && me.queue != [] then
      SetRecorder(s, r, Recorder(me.queue[1..], Some(me.queue[0]), false))
    else s
  }

  /** HandleEvent's decoding of a task: which buffer, and which slot of it. */
  function BufferId(c: Config, offset: nat): nat
    requires c.Valid()
  {
    offset / c.ringSize
  }

  function BufferOffset(c: Config, offset: nat): nat
    requires c.Valid()
  {
    offset % c.ringSize
  }

  function DoRecord(c: Config, s: State, r: nat): (s': State)
    requires Shaped(c, s) && r < c.recorders
    ensures Shaped(c, s')
  {
    var me := s.recorders[r];
    if me.busy.Some? && !me.written then
      var t, i := BufferId(c, me.busy.value.offset), BufferOffset(c, me.busy.value.offset);
      if t >= |c.packets| then Abort(s, BadAddress)
      else
        var pkt := s.cells[t][i];
        if r * c.ThreadAntennas() <= pkt.ant < (r + 1) * c.ThreadAntennas() then
          SetRecorder(s.(recorded := s.recorded + [pkt]), r, me.(written := true))
        else Abort(s, AntennaOutOfRange)
    else s
  }

  function DoFree(c: Config, s: State, r: nat): (s': State)
    requires Shaped(c, s) && r < c.recorders
    ensures Shaped(c, s')
  {
    var me := s.recorders[r];
    if me.busy.Some? && me.written then
      var t, i := BufferId(c, me.busy.value.offset), BufferOffset(c, me.busy.value.offset);
      if t >= |c.packets| then Abort(s, BadAddress)
      else SetRecorder(SetBit(s, t, i, false), r, me.(busy := None, written := false))
    else s
  }

  function Apply(c: Config, s: State, a: Action): (s': State)
    requires Shaped(c, s)
    ensures Shaped(c, s')
  {
    if s.status.Aborted? then s
    else if a.NotifyFrame? then DoNotifyFrame(c, s, a.frame, a.radio)
    else if a.Dequeue? then DoDequeue(c, s, a.i)
    else if a.Route? then DoRoute(c, s)
    else if a.Take? || a.Record? || a.Free? then
      if a.r >= c.recorders then s
      else if a.Take? then DoTake(c, s, a.r)
      else if a.Record? then DoRecord(c, s, a.r)
      else DoFree(c, s, a.r)
    else if a.t >= |c.packets| then s
    else match a
      case FetchOr(t) => DoFetchOr(c, s, t)
      case Receive(t, samples) => DoReceive(c, s, t, samples)
      case Discard(t) => DoDiscard(c, s, t)
      case RxFailure(t) => DoRxFailure(c, s, t)
      case FetchAnd(t) => DoFetchAnd(c, s, t)
      case Stamp(t, frame, slot, cell, ant) => DoStamp(c, s, t, frame, slot, cell, ant)
      case Notify(t) => DoNotify(c, s, t)
  }

  function Run(c: Config, s: State, actions: seq<Action>): (s': State)
    requires Shaped(c, s)
    ensures Shaped(c, s')
    decreases |actions|
  {
    if actions == [] then s
    else Apply(c, Run(c, s, actions[..|actions| - 1]), actions[|actions| - 1])
  }
}
