/** What the packets hold: the samples a thread received and the header it wrote, told from the actions of a run. */
module ReceiveRingPackets {
  import opened Arithmetic
  import opened Common
  import opened ReceiveRing
  import opened ReceiveRingInvariant
  import opened ReceiveRingSafety

  function Before(actions: seq<Action>): seq<Action>
    requires actions != []
  {
    actions[..|actions| - 1]
  }

  function Last(actions: seq<Action>): Action
    requires actions != []
  {
    actions[|actions| - 1]
  }

  /** The last action of the run is thread `t`'s, and the thread could take it. */
  ghost predicate Took(c: Config, actions: seq<Action>, t: nat)
    requires c.Valid() && actions != []
  {
    && (Last(actions).Receive? || Last(actions).Stamp? || Last(actions).Notify?) && Last(actions).t == t
    && FromStart(c, actions) != FromStart(c, Before(actions))
  }

  /** What the radio delivered to thread `t` last, one seq of samples per channel. */
  ghost function LastReceived(c: Config, actions: seq<Action>, t: nat): Option<seq<seq<int>>>
    requires c.Valid()
    decreases |actions|
  {
    if actions == [] then None
    else if Took(c, actions, t) && Last(actions).Receive? then Some(Last(actions).samples)
    else LastReceived(c, Before(actions), t)
  }

  /** How many packets thread `t` has posted since. */
  ghost function PostedSince(c: Config, actions: seq<Action>, t: nat): nat
    requires c.Valid()
    decreases |actions|
  {
    if actions == [] || (Took(c, actions, t) && Last(actions).Receive?) then 0
    else PostedSince(c, Before(actions), t) + if Took(c, actions, t) && Last(actions).Notify? then 1 else 0
  }

  /** The header that thread `t` wrote last. */
  ghost function LastStamp(c: Config, actions: seq<Action>, t: nat): (stamp: Option<Action>)
    requires c.Valid()
    ensures stamp.Some? ==> stamp.value.Stamp?
    decreases |actions|
  {
    if actions == [] then None
    else if Took(c, actions, t) && Last(actions).Stamp? then Some(Last(actions))
    else LastStamp(c, Before(actions), t)
  }

  /** The packet that thread `t` has to post next: the next channel's samples of its last reception, and the header it
      wrote last. */
  ghost predicate Carries(c: Config, actions: seq<Action>, t: nat, p: Packet)
    requires c.Valid()
  {
    var received, ch, stamp := LastReceived(c, actions, t), PostedSince(c, actions, t), LastStamp(c, actions, t);
    && received.Some? && ch < |received.value| && p.samples == received.value[ch]
    && stamp.Some? && p.frame == stamp.value.frame && p.slot == stamp.value.slot
    && p.cell == stamp.value.cell && p.ant == stamp.value.ant
  }

  // ----- what a thread's slots hold while it posts them -----

  ghost predicate HeaderIs(p: Packet, stamp: Option<Action>) {
    && stamp.Some? && stamp.value.Stamp? && p.frame == stamp.value.frame && p.slot == stamp.value.slot
    && p.cell == stamp.value.cell && p.ant == stamp.value.ant
  }

  /** The slots from the cursor on hold the channels not yet posted, and the first of them its header if written. */
  ghost predicate HoldsReceived(c: Config, s: State, t: nat, received: Option<seq<seq<int>>>, posted: nat,
                                stamp: Option<Action>)
    requires Shaped(c, s) && t < |c.packets|
  {
    var r, k := s.receivers[t], c.packets[t];
    r.phase.Posting? ==>
      && received.Some? && |received.value| == k && posted == r.phase.posted < k && r.cursor + k - posted <= c.ringSize
      && (forall ch | posted <= ch < k :: s.cells[t][r.cursor + ch - posted].samples == received.value[ch])
      && (r.phase.stamped ==> HeaderIs(s.cells[t][r.cursor], stamp))
  }

  /** Whatever else happens, a thread's slots and its place among them stay as they are. */
  lemma OthersKeep(c: Config, s: State, a: Action, t: nat)
    requires Shaped(c, s) && t < |c.packets| && !((a.Receive? || a.Stamp? || a.Notify?) && a.t == t)
    ensures Apply(c, s, a).cells[t] == s.cells[t]
    ensures Apply(c, s, a).receivers[t].phase.Posting? ==> Apply(c, s, a).receivers[t] == s.receivers[t]
  {
  }

  lemma ReceiveHolds(c: Config, s: State, t: nat, samples: seq<seq<int>>, posted: nat, stamp: Option<Action>)
    requires Inv(c, s) && t < |c.packets| && Apply(c, s, Receive(t, samples)) != s
    ensures HoldsReceived(c, Apply(c, s, Receive(t, samples)), t, Some(samples), 0, stamp)
  {
    hide SlotsOk, JobsOk, LogOk, StampsOk;
    RoomLeft(c.ringSize, c.packets[t], s.receivers[t].cursor, 0);
    assert ReceiverOk(c.ringSize, c.packets[t], s.receivers[t]);
  }

  lemma StampHolds(c: Config, s: State, a: Action, received: Option<seq<seq<int>>>, posted: nat, stamp: Option<Action>)
    requires Inv(c, s) && a.Stamp? && a.t < |c.packets| && Apply(c, s, a) != s
    requires HoldsReceived(c, s, a.t, received, posted, stamp)
    ensures HoldsReceived(c, Apply(c, s, a), a.t, received, posted, Some(a))
  {
    hide SlotsOk, JobsOk, LogOk, StampsOk;
    assert ReceiverOk(c.ringSize, c.packets[a.t], s.receivers[a.t]);
  }

  /** Posting takes the packet at the cursor, and goes on to the next channel. */
  lemma NotifyHolds(c: Config, s: State, t: nat, received: Option<seq<seq<int>>>, posted: nat, stamp: Option<Action>)
    requires Inv(c, s) && t < |c.packets| && Apply(c, s, Notify(t)) != s
    requires HoldsReceived(c, s, t, received, posted, stamp)
    ensures var s' := Apply(c, s, Notify(t));
      && HoldsReceived(c, s', t, received, posted + 1, stamp)
      && s'.posted == s.posted + [s.cells[t][s.receivers[t].cursor]]
      && s.receivers[t].phase.Posting? && s.receivers[t].phase.stamped
  {
    hide SlotsOk, JobsOk, LogOk, StampsOk;
    assert ReceiverOk(c.ringSize, c.packets[t], s.receivers[t]);
    CyclicNext(c.ringSize, s.receivers[t].cursor);
  }

  // ----- over whole runs -----

  lemma {:induction false} RunHolds(c: Config, actions: seq<Action>, t: nat)
    requires c.Valid() && c.WholeReservations() && t < |c.packets|
    ensures HoldsReceived(c, FromStart(c, actions), t, LastReceived(c, actions, t), PostedSince(c, actions, t),
                          LastStamp(c, actions, t))
    decreases |actions|
  {
    hide Inv, Apply, HoldsReceived, Carries;
    if actions == [] {
      NothingHeld(c, t);
    } else {
      var before, a := Before(actions), Last(actions);
      var s := FromStart(c, before);
      var received, posted, stamp := LastReceived(c, before, t), PostedSince(c, before, t), LastStamp(c, before, t);
      RunHolds(c, before, t);
      ReachableInv(c, before);
      if !Took(c, actions, t) {
        NotTakenHolds(c, s, a, t, received, posted, stamp);
      } else if a.Receive? {
        ReceiveHolds(c, s, t, a.samples, posted, stamp);
      } else if a.Stamp? {
        StampHolds(c, s, a, received, posted, stamp);
      } else {
        NotifyHolds(c, s, t, received, posted, stamp);
      }
    }
  }

  lemma NothingHeld(c: Config, t: nat)
    requires c.Valid() && t < |c.packets|
    ensures HoldsReceived(c, FromStart(c, []), t, None, 0, None)
  {
  }

  lemma NotTakenHolds(c: Config, s: State, a: Action, t: nat, received: Option<seq<seq<int>>>, posted: nat,
                      stamp: Option<Action>)
    requires Shaped(c, s) && t < |c.packets| && HoldsReceived(c, s, t, received, posted, stamp)
    requires (a.Receive? || a.Stamp? || a.Notify?) && a.t == t ==> Apply(c, s, a) == s
    ensures HoldsReceived(c, Apply(c, s, a), t, received, posted, stamp)
  {
    hide Apply;
    if !((a.Receive? || a.Stamp? || a.Notify?) && a.t == t) {
      OthersKeep(c, s, a, t);
    }
  }

  /** A thread posts exactly what the radio delivered: the packet carries the samples of the channel that is as many
      packets after the last reception, and the header written last. */
  lemma PostsWhatWasReceived(c: Config, actions: seq<Action>, t: nat)
    requires c.Valid() && c.WholeReservations() && Took(c, actions + [Notify(t)], t)
    ensures var s, s' := FromStart(c, actions), FromStart(c, actions + [Notify(t)]);
      s'.posted != [] && s'.posted[..|s'.posted| - 1] == s.posted && Carries(c, actions, t, s'.posted[|s'.posted| - 1])
  {
    hide Apply, Inv, LastReceived, PostedSince, LastStamp;
    assert Before(actions + [Notify(t)]) == actions;
    var s := FromStart(c, actions);
    ReachableInv(c, actions);
    ThreadExists(c, s, t);
    RunHolds(c, actions, t);
    NotifyHolds(c, s, t, LastReceived(c, actions, t), PostedSince(c, actions, t), LastStamp(c, actions, t));
  }

  lemma ThreadExists(c: Config, s: State, t: nat)
    requires Shaped(c, s) && Apply(c, s, Notify(t)) != s
    ensures t < |c.packets|
  {
  }

  /** Some thread posted the packet in the run, and it carries what it then had to. */
  ghost predicate PostedIn(c: Config, actions: seq<Action>, n: nat, p: Packet)
    requires c.Valid()
  {
    && n < |actions| && actions[n].Notify? && Took(c, actions[..n + 1], actions[n].t)
    && Carries(c, actions[..n], actions[n].t, p)
  }

  lemma PostedInLonger(c: Config, actions: seq<Action>, n: nat, p: Packet)
    requires c.Valid() && actions != [] && PostedIn(c, Before(actions), n, p)
    ensures PostedIn(c, actions, n, p)
  {
    hide Carries, Took;
    assert Before(actions)[..n] == actions[..n] && Before(actions)[..n + 1] == actions[..n + 1];
  }

  /** Every packet posted in a run is one that a thread received and stamped so. */
  lemma {:induction false} EveryPostedPacketWasReceived(c: Config, actions: seq<Action>, p: Packet) returns (n: nat)
    requires c.Valid() && c.WholeReservations() && p in FromStart(c, actions).posted
    ensures PostedIn(c, actions, n, p)
    decreases |actions|
  {
    hide Apply, Carries;
    if actions != [] {
      var before, a := Before(actions), Last(actions);
      if p in FromStart(c, before).posted {
        n := EveryPostedPacketWasReceived(c, before, p);
        PostedInLonger(c, actions, n, p);
      } else {
        OnlyNotifyPosts(c, FromStart(c, before), a);
        assert before + [a] == actions;
        PostsWhatWasReceived(c, before, a.t);
        n := |before|;
        assert actions[..n + 1] == actions;
      }
    } else {
      NothingPosted(c);
    }
  }

  lemma NothingPosted(c: Config)
    requires c.Valid()
    ensures FromStart(c, []).posted == []
  {
  }

  lemma OnlyNotifyPosts(c: Config, s: State, a: Action)
    requires Shaped(c, s)
    ensures a.Notify? || Apply(c, s, a).posted == s.posted
  {
  }

  /** And so is every packet recorded. */
  lemma EveryRecordedPacketWasReceived(c: Config, actions: seq<Action>, p: Packet) returns (n: nat)
    requires c.Valid() && c.WholeReservations() && p in FromStart(c, actions).recorded
    ensures PostedIn(c, actions, n, p)
  {
    hide FromStart, PostedIn;
    RecordedAtMostOnce(c, actions);
    assert p in multiset(FromStart(c, actions).recorded);
    assert p in multiset(FromStart(c, actions).posted);
    n := EveryPostedPacketWasReceived(c, actions, p);
  }
}
