/** In what order the receive path works: the scheduler's batches, and the tasks of one recorder. */
module ReceiveRingOrder {
  import opened Arithmetic
  import opened Common
  import opened ReceiveRing
  import opened ReceiveRingInvariant
  import opened ReceiveRingPackets
  import opened ReceiveRingSafety

  /** The scheduler never takes more than five events from the message queue before it has dispatched them. */
  lemma {:induction false} BatchIsBounded(c: Config, actions: seq<Action>)
    requires c.Valid()
    ensures |FromStart(c, actions).batch| <= 5
    decreases |actions|
  {
    if actions != [] {
      BatchIsBounded(c, Before(actions));
      BatchStep(c, FromStart(c, Before(actions)), Last(actions));
    }
  }

  lemma BatchStep(c: Config, s: State, a: Action)
    requires Shaped(c, s) && |s.batch| <= 5
    ensures |Apply(c, s, a).batch| <= 5
  {
  }

  /** A recorder serves the fewest antennas for which the recorders together serve all: with one less, some would be
      left over. */
  lemma BlocksAreSmallest(c: Config)
    requires c.Valid() && 0 < c.antennas
    ensures (c.ThreadAntennas() - 1) * c.recorders < c.antennas <= c.ThreadAntennas() * c.recorders
  {
    BlocksReachAll(c);
    DivMod(c.antennas, c.recorders);
    SmallestParts(c.recorders, c.antennas, c.antennas / c.recorders, c.antennas % c.recorders, c.ThreadAntennas());
  }

  lemma SmallestParts(n: nat, antennas: nat, q: nat, r: nat, block: nat)
    requires r < n && 0 < antennas == r + q * n && block == q + if r != 0 then 1 else 0
    ensures (block - 1) * n < antennas
  {
    assert (q - 1) * n == q * n - n;
  }

  // ----- one recorder's tasks -----

  /** The tasks handed to recorder `r` in a run, in the order they were. */
  ghost function Handed(c: Config, actions: seq<Action>, r: nat): seq<Job>
    requires c.Valid() && r < c.recorders
    decreases |actions|
  {
    if actions == [] then []
    else
      var s, s' := FromStart(c, Before(actions)), FromStart(c, actions);
      Handed(c, Before(actions), r) +
      if Last(actions).Route? && s.batch != [] && |s'.recorders[r].queue| > |s.recorders[r].queue| then [s.batch[0]] else []
  }

  /** The packets recorder `r` wrote in a run, in the order it did. */
  ghost function Written(c: Config, actions: seq<Action>, r: nat): seq<Packet>
    requires c.Valid() && r < c.recorders
    decreases |actions|
  {
    if actions == [] then []
    else
      var s, s' := FromStart(c, Before(actions)), FromStart(c, actions);
      Written(c, Before(actions), r) +
      if Last(actions) == Record(r) && |s'.recorded| > |s.recorded| then [s'.recorded[|s'.recorded| - 1]] else []
  }

  /** The tasks written are the first ones handed over; the one in hand comes next, then those waiting. */
  ghost predicate InOrder(handed: seq<Job>, written: seq<Packet>, me: Recorder) {
    var n := |written|;
    && n <= |handed| && (forall i: nat | i < n :: handed[i].packet == Some(written[i]))
    && (me.busy.None? ==> handed[n..] == me.queue)
    && (me.busy.Some? && !me.written ==> n < |handed| && handed[n] == me.busy.value && handed[n + 1..] == me.queue)
    && (me.busy.Some? && me.written ==> handed[n..] == me.queue)
  }

  /** A recorder writes the packets of its tasks one after the other in the order the scheduler handed them over,
      leaving none out. */
  lemma {:induction false} RecorderKeepsOrder(c: Config, actions: seq<Action>, r: nat)
    requires c.Valid() && c.WholeReservations() && r < c.recorders
    ensures InOrder(Handed(c, actions, r), Written(c, actions, r), FromStart(c, actions).recorders[r])
    decreases |actions|
  {
    hide Apply, Inv, InOrder;
    if actions == [] {
      StartsInOrder(c, r);
    } else {
      var s, a := FromStart(c, Before(actions)), Last(actions);
      RecorderKeepsOrder(c, Before(actions), r);
      ReachableInv(c, Before(actions));
      OrderStep(c, s, a, r, Handed(c, Before(actions), r), Written(c, Before(actions), r));
    }
  }

  lemma StartsInOrder(c: Config, r: nat)
    requires c.Valid() && r < c.recorders
    ensures InOrder([], [], FromStart(c, []).recorders[r])
  {
  }

  lemma OrderStep(c: Config, s: State, a: Action, r: nat, handed: seq<Job>, written: seq<Packet>)
    requires Inv(c, s) && r < c.recorders && InOrder(handed, written, s.recorders[r])
    ensures var s' := Apply(c, s, a);
      InOrder(handed + (if a.Route? && s.batch != [] && |s'.recorders[r].queue| > |s.recorders[r].queue|
                        then [s.batch[0]] else []),
              written + (if a == Record(r) && |s'.recorded| > |s.recorded| then [s'.recorded[|s'.recorded| - 1]] else []),
              s'.recorders[r])
  {
    var s' := Apply(c, s, a);
    hide Inv;
    assert handed + [] == handed && written + [] == written;
    if a.Route? && s'.recorders[r] != s.recorders[r] {
      RouteAppends(c, s, r);
      HandedInOrder(handed, written, s.recorders[r], s.batch[0]);
    } else if a == Take(r) && s' != s {
      TakesFirst(c, s, r);
    } else if a == Record(r) && s' != s {
      RecordsBusy(c, s, r);
    } else if a == Free(r) && s' != s {
      FreeKeepsQueue(c, s, r);
    } else {
      OthersKeepRecorder(c, s, a, r);
    }
  }

  lemma RouteAppends(c: Config, s: State, r: nat)
    requires Shaped(c, s) && r < c.recorders && Apply(c, s, Route).recorders[r] != s.recorders[r]
    ensures s.batch != []
    ensures Apply(c, s, Route).recorders[r] == s.recorders[r].(queue := s.recorders[r].queue + [s.batch[0]])
  {
  }

  lemma HandedInOrder(handed: seq<Job>, written: seq<Packet>, me: Recorder, job: Job)
    requires InOrder(handed, written, me)
    ensures InOrder(handed + [job], written, me.(queue := me.queue + [job]))
  {
    var n := |written|;
    assert (handed + [job])[n..] == handed[n..] + [job];
    if n < |handed| {
      assert (handed + [job])[n + 1..] == handed[n + 1..] + [job];
    }
  }

  lemma TakesFirst(c: Config, s: State, r: nat)
    requires Shaped(c, s) && r < c.recorders && Apply(c, s, Take(r)) != s
    ensures s.recorders[r].busy.None? && s.recorders[r].queue != []
    ensures Apply(c, s, Take(r)).recorders[r] == Recorder(s.recorders[r].queue[1..], Some(s.recorders[r].queue[0]), false)
    ensures Apply(c, s, Take(r)).recorded == s.recorded
  {
  }

  lemma RecordsBusy(c: Config, s: State, r: nat)
    requires Inv(c, s) && r < c.recorders && Apply(c, s, Record(r)) != s
    ensures var me, s' := s.recorders[r], Apply(c, s, Record(r));
      && me.busy.Some? && !me.written && me.busy.value.packet.Some?
      && s'.recorded == s.recorded + [me.busy.value.packet.value] && s'.recorders[r] == me.(written := true)
  {
    hide SlotsOk, LogOk, StampsOk, ReceiversOk;
    if s.recorders[r].busy.Some? && !s.recorders[r].written {
      RecordWrites(c, s, r);
    }
  }

  lemma FreeKeepsQueue(c: Config, s: State, r: nat)
    requires Inv(c, s) && r < c.recorders && Apply(c, s, Free(r)) != s
    ensures var me, s' := s.recorders[r], Apply(c, s, Free(r));
      me.busy.Some? && me.written && s'.recorders[r] == me.(busy := None, written := false) && s'.recorded == s.recorded
  {
    hide SlotsOk, LogOk, StampsOk, ReceiversOk;
    assert RecorderOk(c, s.cells, r, s.recorders[r]);
  }

  lemma OthersKeepRecorder(c: Config, s: State, a: Action, r: nat)
    requires Shaped(c, s) && r < c.recorders
    requires (a.Route? ==> Apply(c, s, a).recorders[r] == s.recorders[r])
    requires a == Take(r) || a == Record(r) || a == Free(r) ==> Apply(c, s, a) == s
    ensures Apply(c, s, a).recorders[r] == s.recorders[r]
  {
  }
}
