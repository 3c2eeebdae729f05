/** What every step of the receive path keeps, hence what holds in every reachable state. */
module ReceiveRingInvariant {
  import opened Arithmetic
  import opened Common
  import opened ReceiveRing

  // ----- counting the jobs that name a slot, or that carry a packet -----

  datatype Key = ByOffset(offset: nat) | ByPacket(packet: Packet)

  function Matches(j: Job, key: Key): nat {
    match key
    case ByOffset(offset) => if j.packet.Some? && j.offset == offset then 1 else 0
    case ByPacket(packet) => if j.packet == Some(packet) then 1 else 0
  }

  function Count(js: seq<Job>, key: Key): nat {
    if js == [] then 0 else Matches(js[0], key) + Count(js[1..], key)
  }

  /** A task being handled names its slot until the slot is freed, and carries its packet until the
      packet is written. */
  function Load(r: Recorder, key: Key): nat {
    Count(r.queue, key) + if r.busy.None? || (key.ByPacket? && r.written) then 0 else Matches(r.busy.value, key)
  }

  function LoadAll(rs: seq<Recorder>, key: Key): nat {
    if rs == [] then 0 else Load(rs[0], key) + LoadAll(rs[1..], key)
  }

  function Total(s: State, key: Key): nat {
    Count(s.queue, key) + Count(s.batch, key) + Count(s.misrouted, key) + LoadAll(s.recorders, key)
  }

  lemma {:induction false} CountConcat(a: seq<Job>, b: seq<Job>, key: Key)
    ensures Count(a + b, key) == Count(a, key) + Count(b, key)
  {
    if a == [] {
      assert a + b == b;
    } else {
      assert (a + b)[1..] == a[1..] + b;
      CountConcat(a[1..], b, key);
    }
  }

  lemma CountAppend(js: seq<Job>, j: Job, key: Key)
    ensures Count(js + [j], key) == Count(js, key) + Matches(j, key)
  {
    CountConcat(js, [j], key);
  }

  lemma CountRemove(js: seq<Job>, i: nat, key: Key)
    requires i < |js|
    ensures Count(js[..i] + js[i + 1..], key) + Matches(js[i], key) == Count(js, key)
  {
    assert js == js[..i] + ([js[i]] + js[i + 1..]);
    CountConcat(js[..i], [js[i]] + js[i + 1..], key);
    CountConcat([js[i]], js[i + 1..], key);
    CountConcat(js[..i], js[i + 1..], key);
  }

  lemma {:induction false} LoadUpdate(rs: seq<Recorder>, r: nat, to: Recorder, key: Key)
    requires r < |rs|
    ensures LoadAll(rs[r := to], key) + Load(rs[r], key) == LoadAll(rs, key) + Load(to, key)
    ensures Load(rs[r], key) <= LoadAll(rs, key)
  {
    if r == 0 {
      assert rs[0 := to][1..] == rs[1..];
    } else {
      assert rs[r := to][1..] == rs[1..][r - 1 := to];
      LoadUpdate(rs[1..], r - 1, to, key);
    }
  }

  lemma {:induction false} CountMember(js: seq<Job>, j: Job, key: Key)
    requires j in js
    ensures Matches(j, key) <= Count(js, key)
  {
    if j != js[0] {
      CountMember(js[1..], j, key);
    }
  }

  // ----- the invariant -----

  function Bit(b: bool): nat { if b then 1 else 0 }

  /** The slots a receive thread has marked and neither posted nor released: from Held.0 up to Held.1. */
  function Held(r: Receiver, k: nat): (int, int) {
    match r.phase
    case Reserving(taken) => (r.cursor, r.cursor + taken)
    case Posting(posted, _) => (r.cursor, r.cursor + k - posted)
    case Releasing(freed) => (r.cursor + freed, r.cursor + k)
    case Halted => (r.cursor, r.cursor + k)
  }

  ghost predicate Holds(c: Config, s: State, t: nat, i: nat)
    requires Shaped(c, s) && t < |c.packets|
  {
    var h := Held(s.receivers[t], c.packets[t]);
    h.0 <= i < h.1
  }

  ghost predicate ReceiverOk(n: nat, k: nat, r: Receiver)
    requires 0 < k
  {
    && r.cursor < n
    && match r.phase
       case Reserving(taken) => taken <= k && r.cursor % k == 0
       case Posting(posted, _) => posted < k && r.cursor % k == posted
       case Releasing(freed) => freed < k && r.cursor % k == 0
       case Halted => r.cursor % k == 0
  }

  ghost predicate ReceiversOk(c: Config, s: State)
    requires Shaped(c, s)
  {
    forall t | 0 <= t < |c.packets| :: ReceiverOk(c.ringSize, c.packets[t], s.receivers[t])
  }

  ghost predicate SlotOk(c: Config, s: State, t: nat, i: nat)
    requires Shaped(c, s) && t < |c.packets| && i < c.ringSize
  {
    Bit(Holds(c, s, t, i)) + Total(s, ByOffset(Address(c, t, i))) == Bit(s.inUse[t][i])
  }

  /** A slot is in use exactly when one receive thread holds it or exactly one job names it. */
  ghost predicate SlotsOk(c: Config, s: State)
    requires Shaped(c, s)
  {
    forall t, i | 0 <= t < |c.packets| && 0 <= i < c.ringSize :: SlotOk(c, s, t, i)
  }

  /** A job that names a slot still finds in it the packet that was posted. */
  ghost predicate JobOk(c: Config, cells: seq<seq<Packet>>, j: Job)
    requires c.Valid() && |cells| == |c.packets|
    requires forall t | 0 <= t < |c.packets| :: |cells[t]| == c.ringSize
  {
    match j.packet
    case None => j.slot == 0 && !c.internalMeasurement
    case Some(p) =>
      && BufferId(c, j.offset) < |c.packets|
      && cells[BufferId(c, j.offset)][BufferOffset(c, j.offset)] == p
      && j.ant == p.ant < c.antennas
      && j.slot == p.slot && j.frame == p.frame
  }

  ghost predicate RecorderOk(c: Config, cells: seq<seq<Packet>>, r: nat, to: Recorder)
    requires c.Valid() && |cells| == |c.packets|
    requires forall t | 0 <= t < |c.packets| :: |cells[t]| == c.ringSize
  {
    && (forall j | j in to.queue :: JobOk(c, cells, j) && ForRecorder(c, r, j))
    && (to.busy.Some? ==> JobOk(c, cells, to.busy.value) && ForRecorder(c, r, to.busy.value))
  }

  ghost predicate ForRecorder(c: Config, r: nat, j: Job)
    requires c.Valid()
  {
    && j.packet.Some?
    && (!c.internalMeasurement ==> j.slot != 0)
    && r * c.ThreadAntennas() <= j.ant < (r + 1) * c.ThreadAntennas()
  }

  ghost predicate JobsOk(c: Config, s: State)
    requires Shaped(c, s)
  {
    && (forall j | j in s.queue :: JobOk(c, s.cells, j))
    && (forall j | j in s.batch :: JobOk(c, s.cells, j))
    && (forall j | j in s.misrouted :: JobOk(c, s.cells, j) && j.packet.Some? && j.slot == 0 && !c.internalMeasurement)
    && (forall r | 0 <= r < c.recorders :: RecorderOk(c, s.cells, r, s.recorders[r]))
  }

  /** Every stamped packet in the act of being posted carries a recorded antenna. */
  ghost predicate StampsOk(c: Config, s: State)
    requires Shaped(c, s)
  {
    forall t | 0 <= t < |c.packets| ::
      var r := s.receivers[t];
      r.phase.Posting? && r.phase.stamped && r.cursor < c.ringSize ==> s.cells[t][r.cursor].ant < c.antennas
  }

  /** Each posted packet is written, or is on its way, or was misrouted: never two of these. */
  ghost predicate LogOk(s: State) {
    forall p: Packet :: multiset(s.posted)[p] == multiset(s.recorded)[p] + Total(s, ByPacket(p))
  }

  ghost predicate Inv(c: Config, s: State) {
    && Shaped(c, s)
    && c.WholeReservations()
    && ReceiversOk(c, s)
    && SlotsOk(c, s)
    && JobsOk(c, s)
    && StampsOk(c, s)
    && LogOk(s)
    && (forall p | p in s.recorded :: c.internalMeasurement || p.slot != 0)
    && (s.status.Aborted? ==> s.status.fault == BufferFull)
  }

  // ----- arithmetic of addresses and cursors -----

  lemma AddressDecodes(c: Config, t: nat, i: nat)
    requires c.Valid() && i < c.ringSize
    ensures BufferId(c, Address(c, t, i)) == t
    ensures BufferOffset(c, Address(c, t, i)) == i
  {
    DivModUnique(Address(c, t, i), c.ringSize, t, i);
  }

  lemma AddressEncodes(c: Config, offset: nat)
    requires c.Valid()
    ensures BufferOffset(c, offset) < c.ringSize
    ensures Address(c, BufferId(c, offset), BufferOffset(c, offset)) == offset
  {
  }

  // ----- the first state -----

  lemma {:induction false} IdleLoad(rs: seq<Recorder>, key: Key)
    requires forall r | 0 <= r < |rs| :: rs[r] == Recorder([], None, false)
    ensures LoadAll(rs, key) == 0
  {
    if rs != [] {
      IdleLoad(rs[1..], key);
    }
  }

  lemma InitialInv(c: Config)
    requires c.Valid() && c.WholeReservations()
    ensures Inv(c, Initial(c))
  {
    var s := Initial(c);
    forall key: Key ensures Total(s, key) == 0 {
      IdleLoad(s.recorders, key);
    }
    forall t, i | 0 <= t < |c.packets| && 0 <= i < c.ringSize ensures SlotOk(c, s, t, i) {
    }
  }

  // ----- steps of a receive thread -----

  /** A job whose slot no receive thread is holding keeps its packet when `t` rewrites what it holds. */
  ghost predicate OnlyHeldChanged(c: Config, s: State, cells: seq<seq<Packet>>, t: nat)
    requires Shaped(c, s) && t < |c.packets|
  {
    && |cells| == |c.packets|
    && (forall u | 0 <= u < |c.packets| :: |cells[u]| == c.ringSize)
    && (forall u, i | 0 <= u < |c.packets| && 0 <= i < c.ringSize && !Holds(c, s, u, i) :: cells[u][i] == s.cells[u][i])
    && (forall u | 0 <= u < |c.packets| && u != t :: cells[u] == s.cells[u])
  }

  lemma NamedIsNotHeld(c: Config, s: State, j: Job)
    requires Shaped(c, s) && SlotsOk(c, s) && JobOk(c, s.cells, j) && j.packet.Some?
    requires 1 <= Total(s, ByOffset(j.offset))
    ensures var t, i := BufferId(c, j.offset), BufferOffset(c, j.offset);
      s.inUse[t][i] && !Holds(c, s, t, i) && Total(s, ByOffset(j.offset)) == 1
  {
    var t, i := BufferId(c, j.offset), BufferOffset(c, j.offset);
    AddressEncodes(c, j.offset);
    assert SlotOk(c, s, t, i);
  }

  lemma CellKept(c: Config, s: State, cells: seq<seq<Packet>>, t: nat, u: nat, i: nat)
    requires Shaped(c, s) && t < |c.packets| && OnlyHeldChanged(c, s, cells, t)
    requires u < |c.packets| && i < c.ringSize && !Holds(c, s, u, i)
    ensures cells[u][i] == s.cells[u][i]
  {
  }

  lemma JobKept(c: Config, s: State, cells: seq<seq<Packet>>, t: nat, j: Job)
    requires Shaped(c, s) && SlotsOk(c, s) && t < |c.packets| && OnlyHeldChanged(c, s, cells, t)
    requires JobOk(c, s.cells, j)
    requires Matches(j, ByOffset(j.offset)) <= Total(s, ByOffset(j.offset))
    ensures JobOk(c, cells, j)
  {
    if j.packet.Some? {
      NamedIsNotHeld(c, s, j);
      CellKept(c, s, cells, t, BufferId(c, j.offset), BufferOffset(c, j.offset));
    }
  }

  lemma JobsKept(c: Config, s: State, s': State, t: nat)
    requires Shaped(c, s) && SlotsOk(c, s) && JobsOk(c, s)
    requires t < |c.packets| && OnlyHeldChanged(c, s, s'.cells, t)
    requires Shaped(c, s')
    requires s'.queue == s.queue && s'.batch == s.batch && s'.misrouted == s.misrouted && s'.recorders == s.recorders
    ensures JobsOk(c, s')
  {
    forall j | j in s.queue ensures JobOk(c, s'.cells, j) {
      CountMember(s.queue, j, ByOffset(j.offset));
      JobKept(c, s, s'.cells, t, j);
    }
    forall j | j in s.batch ensures JobOk(c, s'.cells, j) {
      CountMember(s.batch, j, ByOffset(j.offset));
      JobKept(c, s, s'.cells, t, j);
    }
    forall j | j in s.misrouted ensures JobOk(c, s'.cells, j) {
      CountMember(s.misrouted, j, ByOffset(j.offset));
      JobKept(c, s, s'.cells, t, j);
    }
    forall r | 0 <= r < c.recorders ensures RecorderOk(c, s'.cells, r, s'.recorders[r]) {
      RecorderKept(c, s, s'.cells, t, r);
    }
  }

  lemma RecorderKept(c: Config, s: State, cells: seq<seq<Packet>>, t: nat, r: nat)
    requires Shaped(c, s) && SlotsOk(c, s) && t < |c.packets| && OnlyHeldChanged(c, s, cells, t)
    requires r < c.recorders && RecorderOk(c, s.cells, r, s.recorders[r])
    ensures RecorderOk(c, cells, r, s.recorders[r])
  {
    var me := s.recorders[r];
    forall j | j in me.queue ensures JobOk(c, cells, j) {
      CountMember(me.queue, j, ByOffset(j.offset));
      LoadUpdate(s.recorders, r, me, ByOffset(j.offset));
      JobKept(c, s, cells, t, j);
    }
    if me.busy.Some? {
      LoadUpdate(s.recorders, r, me, ByOffset(me.busy.value.offset));
      JobKept(c, s, cells, t, me.busy.value);
    }
  }

  /** A step in which thread `t` changes only what it holds, and its bits with it. */
  lemma ReceiverStep(c: Config, s: State, s': State, t: nat)
    requires Inv(c, s) && t < |c.packets| && Shaped(c, s')
    requires s'.queue == s.queue && s'.batch == s.batch && s'.misrouted == s.misrouted && s'.recorders == s.recorders
    requires s'.posted == s.posted && s'.recorded == s.recorded && s'.status == s.status
    requires forall u | 0 <= u < |c.packets| && u != t :: s'.receivers[u] == s.receivers[u] && s'.inUse[u] == s.inUse[u]
    requires OnlyHeldChanged(c, s, s'.cells, t)
    requires ReceiverOk(c.ringSize, c.packets[t], s'.receivers[t])
    requires forall i | 0 <= i < c.ringSize ::
      Bit(s'.inUse[t][i]) - Bit(s.inUse[t][i]) == Bit(Holds(c, s', t, i)) - Bit(Holds(c, s, t, i))
    requires StampsOk(c, s')
    ensures Inv(c, s')
  {
    JobsKept(c, s, s', t);
    assert forall key :: Total(s', key) == Total(s, key);
    forall u, i | 0 <= u < |c.packets| && 0 <= i < c.ringSize ensures SlotOk(c, s', u, i) {
      assert SlotOk(c, s, u, i);
    }
  }

  lemma FetchOrKeeps(c: Config, s: State, t: nat)
    requires Inv(c, s) && t < |c.packets|
    ensures Inv(c, DoFetchOr(c, s, t))
  {
    var s' := DoFetchOr(c, s, t);
    var r := s.receivers[t];
    if r.phase.Reserving? && r.phase.taken < c.packets[t] {
      RoomLeft(c.ringSize, c.packets[t], r.cursor, 0);
      var i := r.cursor + r.phase.taken;
      if s.inUse[t][i] {
        assert s' == s.(status := Aborted(BufferFull));
        AbortKeeps(c, s);
      } else {
        ReceiverStep(c, s, s', t);
      }
    }
  }

  lemma AbortKeeps(c: Config, s: State)
    requires Inv(c, s)
    ensures Inv(c, s.(status := Aborted(BufferFull)))
  {
    var s' := s.(status := Aborted(BufferFull));
    forall u, i | 0 <= u < |c.packets| && 0 <= i < c.ringSize ensures SlotOk(c, s', u, i) {
      assert SlotOk(c, s, u, i);
    }
  }

  lemma ReceiveKeeps(c: Config, s: State, t: nat, samples: seq<seq<int>>)
    requires Inv(c, s) && t < |c.packets|
    ensures Inv(c, DoReceive(c, s, t, samples))
  {
    var s' := DoReceive(c, s, t, samples);
    if AllReserved(c, s, t) && |samples| == c.packets[t] {
      RoomLeft(c.ringSize, c.packets[t], s.receivers[t].cursor, 0);
      ReceiverStep(c, s, s', t);
    }
  }

  lemma DiscardOrFailKeeps(c: Config, s: State, t: nat)
    requires Inv(c, s) && t < |c.packets|
    ensures Inv(c, DoDiscard(c, s, t)) && Inv(c, DoRxFailure(c, s, t))
  {
    if AllReserved(c, s, t) {
      ReceiverStep(c, s, DoDiscard(c, s, t), t);
      ReceiverStep(c, s, DoRxFailure(c, s, t), t);
    }
  }

  lemma FetchAndKeeps(c: Config, s: State, t: nat)
    requires Inv(c, s) && t < |c.packets|
    ensures Inv(c, DoFetchAnd(c, s, t))
  {
    var s' := DoFetchAnd(c, s, t);
    var r := s.receivers[t];
    if r.phase.Releasing? {
      RoomLeft(c.ringSize, c.packets[t], r.cursor, 0);
      var i := r.cursor + r.phase.freed;
      assert SlotOk(c, s, t, i) && Holds(c, s, t, i);
      ReceiverStep(c, s, s', t);
    }
  }

  lemma StampKeeps(c: Config, s: State, t: nat, frame: nat, slot: nat, cell: nat, ant: nat)
    requires Inv(c, s) && t < |c.packets|
    ensures Inv(c, DoStamp(c, s, t, frame, slot, cell, ant))
  {
    var s' := DoStamp(c, s, t, frame, slot, cell, ant);
    var r := s.receivers[t];
    if r.phase.Posting? && !r.phase.stamped && ant < c.antennas {
      RoomLeft(c.ringSize, c.packets[t], r.cursor, r.phase.posted);
      ReceiverStep(c, s, s', t);
    }
  }

  lemma NotifyKeepsLog(s: State, s': State, job: Job, pkt: Packet)
    requires LogOk(s) && job.packet == Some(pkt)
    requires s' == s.(queue := s.queue + [job], posted := s.posted + [pkt], receivers := s'.receivers)
    ensures LogOk(s')
    ensures forall key :: Total(s', key) == Total(s, key) + Matches(job, key)
  {
    forall key: Key ensures Total(s', key) == Total(s, key) + Matches(job, key) {
      CountAppend(s.queue, job, key);
    }
    assert multiset(s'.posted) == multiset(s.posted) + multiset{pkt};
    forall p: Packet ensures multiset(s'.posted)[p] == multiset(s'.recorded)[p] + Total(s', ByPacket(p)) {
      assert multiset(s.posted)[p] == multiset(s.recorded)[p] + Total(s, ByPacket(p));
    }
  }

  lemma NotifyKeeps(c: Config, s: State, t: nat)
    requires Inv(c, s) && t < |c.packets|
    ensures Inv(c, DoNotify(c, s, t))
  {
    var s' := DoNotify(c, s, t);
    var r := s.receivers[t];
    if r.phase.Posting? && r.phase.stamped {
      var k := c.packets[t];
      RoomLeft(c.ringSize, k, r.cursor, r.phase.posted);
      CursorAdvances(c.ringSize, k, r.cursor, (r.cursor + 1) % c.ringSize, r.phase.posted);
      var pkt := s.cells[t][r.cursor];
      var job := s'.queue[|s.queue|];
      assert s'.queue == s.queue + [job];
      AddressDecodes(c, t, r.cursor);
      NotifyKeepsLog(s, s', job, pkt);
      hide LogOk;
      forall u, i | 0 <= u < |c.packets| && 0 <= i < c.ringSize ensures SlotOk(c, s', u, i) {
        assert SlotOk(c, s, u, i);
        AddressDecodes(c, u, i);
      }
      forall j | j in s'.queue ensures JobOk(c, s'.cells, j) {
        assert j in s.queue || j == job;
      }
    }
  }

  // ----- steps of the scheduler and of the recorders -----

  /** A step that moves jobs about without touching receive threads, slots or bits. */
  lemma MovingStep(c: Config, s: State, s': State)
    requires Inv(c, s) && Shaped(c, s')
    requires s'.inUse == s.inUse && s'.cells == s.cells && s'.receivers == s.receivers
    requires s'.posted == s.posted && s'.recorded == s.recorded && s'.status == s.status
    requires forall key: Key :: Total(s', key) == Total(s, key)
    requires JobsOk(c, s')
    ensures Inv(c, s')
  {
    forall u, i | 0 <= u < |c.packets| && 0 <= i < c.ringSize ensures SlotOk(c, s', u, i) {
      assert SlotOk(c, s, u, i);
    }
    forall p: Packet ensures multiset(s'.posted)[p] == multiset(s'.recorded)[p] + Total(s', ByPacket(p)) {
      assert multiset(s.posted)[p] == multiset(s.recorded)[p] + Total(s, ByPacket(p));
    }
  }

  lemma NotifyFrameKeeps(c: Config, s: State, frame: nat, radio: nat)
    requires Inv(c, s)
    ensures Inv(c, DoNotifyFrame(c, s, frame, radio))
  {
    if !c.internalMeasurement {
      var s' := DoNotifyFrame(c, s, frame, radio);
      var job := Job(0, frame, 0, radio, None);
      forall key: Key ensures Total(s', key) == Total(s, key) {
        CountAppend(s.queue, job, key);
      }
      MovingStep(c, s, s');
    }
  }

  lemma DequeueKeeps(c: Config, s: State, i: nat)
    requires Inv(c, s)
    ensures Inv(c, DoDequeue(c, s, i))
  {
    var s' := DoDequeue(c, s, i);
    if i < |s.queue| && |s.batch| < BULK_SIZE {
      forall key: Key ensures Total(s', key) == Total(s, key) {
        CountRemove(s.queue, i, key);
        CountAppend(s.batch, s.queue[i], key);
      }
      forall j | j in s'.queue ensures JobOk(c, s'.cells, j) {
        assert j in s.queue;
      }
      MovingStep(c, s, s');
    }
  }

  /** The antenna blocks of the recorders cover every antenna: the index the scheduler computes is
      that of an existing recorder, and the antenna is in that recorder's range. */
  lemma BlocksCover(c: Config, ant: nat)
    requires c.Valid() && ant < c.antennas
    ensures 0 < c.ThreadAntennas()
    ensures var index := ant / c.ThreadAntennas();
      index < c.recorders && index * c.ThreadAntennas() <= ant < (index + 1) * c.ThreadAntennas()
  {
    hide Config.ThreadAntennas;
    BlocksReachAll(c);
    InItsBlock(c.recorders, c.ThreadAntennas(), ant);
  }

  predicate InBlock(block: nat, index: nat, ant: nat) { index * block <= ant < (index + 1) * block }

  lemma BlocksReachAll(c: Config)
    requires c.Valid() && 0 < c.antennas
    ensures 0 < c.ThreadAntennas() && c.antennas <= c.ThreadAntennas() * c.recorders
  {
    DivMod(c.antennas, c.recorders);
    BlocksReach(c.recorders, c.antennas, c.antennas / c.recorders, c.antennas % c.recorders, c.ThreadAntennas());
  }

  lemma BlocksReach(n: nat, antennas: nat, q: nat, r: nat, block: nat)
    requires r < n && 0 < antennas == r + q * n && block == q + if r != 0 then 1 else 0
    ensures 0 < block && antennas <= block * n
  {
    assert (q + 1) * n == q * n + n;
  }

  lemma InItsBlock(n: nat, block: nat, ant: nat)
    requires 0 < block && ant < block * n
    ensures ant / block < n && InBlock(block, ant / block, ant)
  {
    hide InBlock;
    DivMod(ant, block);
    InItsBlockParts(n, block, ant, ant / block, ant % block);
  }

  lemma InItsBlockParts(n: nat, block: nat, ant: nat, index: nat, r: nat)
    requires ant < block * n && r < block && ant == r + index * block
    ensures index < n && InBlock(block, index, ant)
  {
    assert (index + 1) * block == index * block + block;
    if index >= n {
      MulMonotone(n, index, block);
    }
  }

  /** A job that leaves the batch for the queue of its recorder. */
  lemma HandedOver(c: Config, s: State, s': State, index: nat)
    requires Inv(c, s) && s.batch != [] && index < c.recorders && ForRecorder(c, index, s.batch[0])
    requires s' == SetRecorder(s.(batch := s.batch[1..]), index,
                               s.recorders[index].(queue := s.recorders[index].queue + [s.batch[0]]))
    ensures Inv(c, s')
  {
    hide LogOk, Load, LoadAll, Matches, ReceiversOk, SlotsOk, StampsOk, ForRecorder;
    var job, to := s.batch[0], s.recorders[index];
    assert JobOk(c, s.cells, job);
    hide JobOk;
    forall key: Key ensures Total(s', key) == Total(s, key) {
      LoadUpdate(s.recorders, index, s'.recorders[index], key);
      LongerQueue(to, job, key);
    }
    assert RecorderOk(c, s.cells, index, to);
    assert RecorderOk(c, s'.cells, index, s'.recorders[index]);
    assert forall r | 0 <= r < c.recorders && r != index :: RecorderOk(c, s.cells, r, s.recorders[r]);
    MovingStep(c, s, s');
  }

  lemma LongerQueue(me: Recorder, job: Job, key: Key)
    ensures Load(me.(queue := me.queue + [job]), key) == Load(me, key) + Matches(job, key)
  {
    CountAppend(me.queue, job, key);
  }

  lemma RouteKeeps(c: Config, s: State)
    requires Inv(c, s)
    ensures Inv(c, DoRoute(c, s))
  {
    if s.batch != [] {
      var s' := DoRoute(c, s);
      var job := s.batch[0];
      assert JobOk(c, s.cells, job);
      if !c.internalMeasurement && job.slot == 0 {
        forall key: Key ensures Total(s', key) == Total(s, key) {
          CountAppend(s.misrouted, job, key);
        }
        MovingStep(c, s, s');
      } else {
        BlocksCover(c, job.ant);
        HandedOver(c, s, s', job.ant / c.ThreadAntennas());
      }
    }
  }

  lemma TakeKeeps(c: Config, s: State, r: nat)
    requires Inv(c, s) && r < c.recorders
    ensures Inv(c, DoTake(c, s, r))
  {
    var s' := DoTake(c, s, r);
    var me := s.recorders[r];
    if me.busy.None? && me.queue != [] {
      forall key: Key ensures Total(s', key) == Total(s, key) {
        LoadUpdate(s.recorders, r, s'.recorders[r], key);
      }
      assert RecorderOk(c, s.cells, r, me);
      assert forall q | 0 <= q < c.recorders && q != r :: RecorderOk(c, s.cells, q, s.recorders[q]);
      MovingStep(c, s, s');
    }
  }

  /** Recording succeeds: the task decodes to an existing slot, which still holds the packet that was
      posted, and its antenna is in the recorder's range. */
  lemma RecordWrites(c: Config, s: State, r: nat)
    requires Inv(c, s) && r < c.recorders && s.recorders[r].busy.Some? && !s.recorders[r].written
    ensures var me := s.recorders[r];
      && me.busy.value.packet.Some?
      && DoRecord(c, s, r) ==
           SetRecorder(s.(recorded := s.recorded + [me.busy.value.packet.value]), r, me.(written := true))
  {
    assert RecorderOk(c, s.cells, r, s.recorders[r]);
  }

  lemma RecorderUpdate(s: State, s': State, r: nat, to: Recorder, key: Key)
    requires r < |s.recorders| && s'.recorders == s.recorders[r := to]
    requires s'.queue == s.queue && s'.batch == s.batch && s'.misrouted == s.misrouted
    ensures Total(s', key) + Load(s.recorders[r], key) == Total(s, key) + Load(to, key)
  {
    hide Load, LoadAll, Count;
    LoadUpdate(s.recorders, r, to, key);
  }

  lemma WrittenLoad(me: Recorder, pkt: Packet, key: Key)
    requires me.busy.Some? && !me.written && me.busy.value.packet == Some(pkt)
    ensures Load(me.(written := true), key) + (if key == ByPacket(pkt) then 1 else 0) == Load(me, key)
  {
    hide Count;
  }

  lemma FreedLoad(me: Recorder, key: Key)
    requires me.busy.Some? && me.written && me.busy.value.packet.Some?
    ensures Load(me.(busy := None, written := false), key) +
      (if key == ByOffset(me.busy.value.offset) then 1 else 0) == Load(me, key)
  {
    hide Count;
  }

  lemma RecordKeepsLog(c: Config, s: State, s': State, r: nat, to: Recorder, pkt: Packet)
    requires Shaped(c, s) && LogOk(s) && r < c.recorders
    requires s.recorders[r].busy.Some? && !s.recorders[r].written && s.recorders[r].busy.value.packet == Some(pkt)
    requires to == s.recorders[r].(written := true)
    requires s' == SetRecorder(s.(recorded := s.recorded + [pkt]), r, to)
    ensures LogOk(s')
    ensures forall o :: Total(s', ByOffset(o)) == Total(s, ByOffset(o))
  {
    hide Load, LoadAll, Count, Matches, Total;
    forall key: Key ensures Total(s', key) + (if key == ByPacket(pkt) then 1 else 0) == Total(s, key) {
      RecorderUpdate(s, s', r, to, key);
      WrittenLoad(s.recorders[r], pkt, key);
    }
    assert multiset(s'.recorded) == multiset(s.recorded) + multiset{pkt};
    forall p: Packet ensures multiset(s'.posted)[p] == multiset(s'.recorded)[p] + Total(s', ByPacket(p)) {
      assert multiset(s.posted)[p] == multiset(s.recorded)[p] + Total(s, ByPacket(p));
    }
  }

  lemma RecordKeeps(c: Config, s: State, r: nat)
    requires Inv(c, s) && r < c.recorders
    ensures Inv(c, DoRecord(c, s, r))
  {
    var s' := DoRecord(c, s, r);
    var me := s.recorders[r];
    if me.busy.Some? && !me.written {
      RecordWrites(c, s, r);
      RecordKeepsLog(c, s, s', r, s'.recorders[r], me.busy.value.packet.value);
      forall u, i | 0 <= u < |c.packets| && 0 <= i < c.ringSize ensures SlotOk(c, s', u, i) {
        assert SlotOk(c, s, u, i);
      }
      assert RecorderOk(c, s.cells, r, me);
      assert forall q | 0 <= q < c.recorders && q != r :: RecorderOk(c, s.cells, q, s.recorders[q]);
    }
  }

  lemma FreeKeepsLog(s: State, s': State, r: nat, to: Recorder)
    requires LogOk(s) && r < |s.recorders| && s.recorders[r].busy.Some? && s.recorders[r].written
    requires s.recorders[r].busy.value.packet.Some?
    requires to == s.recorders[r].(busy := None, written := false)
    requires s' == s.(recorders := s.recorders[r := to], inUse := s'.inUse)
    ensures LogOk(s')
    ensures forall key ::
      Total(s', key) + (if key == ByOffset(s.recorders[r].busy.value.offset) then 1 else 0) == Total(s, key)
  {
    hide Load, LoadAll, Count, Matches, Total;
    var offset := s.recorders[r].busy.value.offset;
    forall key: Key ensures Total(s', key) + (if key == ByOffset(offset) then 1 else 0) == Total(s, key) {
      RecorderUpdate(s, s', r, to, key);
      FreedLoad(s.recorders[r], key);
    }
    forall p: Packet ensures multiset(s'.posted)[p] == multiset(s'.recorded)[p] + Total(s', ByPacket(p)) {
      assert multiset(s.posted)[p] == multiset(s.recorded)[p] + Total(s, ByPacket(p));
    }
  }

  lemma FreeKeeps(c: Config, s: State, r: nat)
    requires Inv(c, s) && r < c.recorders
    ensures Inv(c, DoFree(c, s, r))
  {
    var s' := DoFree(c, s, r);
    var me := s.recorders[r];
    if me.busy.Some? && me.written {
      var job := me.busy.value;
      assert RecorderOk(c, s.cells, r, me);
      var t, i := BufferId(c, job.offset), BufferOffset(c, job.offset);
      AddressEncodes(c, job.offset);
      FreeKeepsLog(s, s', r, s'.recorders[r]);
      hide LogOk;
      forall u, v | 0 <= u < |c.packets| && 0 <= v < c.ringSize ensures SlotOk(c, s', u, v) {
        assert SlotOk(c, s, u, v);
        AddressDecodes(c, u, v);
      }
      assert forall q | 0 <= q < c.recorders && q != r :: RecorderOk(c, s.cells, q, s.recorders[q]);
    }
  }

  lemma ReceiverActionKeeps(c: Config, s: State, a: Action)
    requires Inv(c, s) && s.status.Running?
    requires !a.NotifyFrame? && !a.Dequeue? && !a.Route? && !a.Take? && !a.Record? && !a.Free?
    ensures Inv(c, Apply(c, s, a))
  {
    hide Inv;
    if a.t < |c.packets| {
      match a
      case FetchOr(t) => FetchOrKeeps(c, s, t);
      case Receive(t, samples) => ReceiveKeeps(c, s, t, samples);
      case Discard(t) => DiscardOrFailKeeps(c, s, t);
      case RxFailure(t) => DiscardOrFailKeeps(c, s, t);
      case FetchAnd(t) => FetchAndKeeps(c, s, t);
      case Stamp(t, frame, slot, cell, ant) => StampKeeps(c, s, t, frame, slot, cell, ant);
      case Notify(t) => NotifyKeeps(c, s, t);
    }
  }

  lemma StepKeeps(c: Config, s: State, a: Action)
    requires Inv(c, s)
    ensures Inv(c, Apply(c, s, a))
  {
    if s.status.Running? {
      match a
      case NotifyFrame(frame, radio) => NotifyFrameKeeps(c, s, frame, radio);
      case Dequeue(i) => DequeueKeeps(c, s, i);
      case Route => RouteKeeps(c, s);
      case Take(r) => if r < c.recorders { TakeKeeps(c, s, r); }
      case Record(r) => if r < c.recorders { RecordKeeps(c, s, r); }
      case Free(r) => if r < c.recorders { FreeKeeps(c, s, r); }
      case _ => ReceiverActionKeeps(c, s, a);
    }
  }

  lemma {:induction false} RunKeeps(c: Config, s: State, actions: seq<Action>)
    requires Inv(c, s)
    ensures Inv(c, Run(c, s, actions))
    decreases |actions|
  {
    if actions != [] {
      var before := actions[..|actions| - 1];
      RunKeeps(c, s, before);
      StepKeeps(c, Run(c, s, before), actions[|actions| - 1]);
    }
  }
}
