/** Downlink sounding frames of the base station, and the two generators of client frames. */
module ClientSchedules {
  import opened Arithmetic
  import opened Common
  import opened Slots

  /** Client `i` owns pilot slot `t`: it is one of the `channels` pilots from `channels * i` on. */
  ghost predicate OwnsPilot(pilots: seq<nat>, channels: nat, i: nat, t: nat) {
    exists j: nat :: channels * i <= j < channels * i + channels && j < |pilots| && pilots[j] == t
  }

  // ----- what every client generator promises about pilots -----

  /** A client sends pilots in its own pilot slots and nowhere else. */
  ghost predicate SendOwnPilots(frames: seq<string>, length: nat, pilots: seq<nat>, clients: nat, channels: nat) {
    && Shape(frames, clients, length)
    && forall i: nat, t: nat | i < clients && t < length :: frames[i][t] == 'P' <==> OwnsPilot(pilots, channels, i, t)
  }

  ghost predicate SentByOne(frames: seq<string>, t: nat)
    requires forall i: nat | i < |frames| :: t < |frames[i]|
  {
    exists i: nat :: i < |frames| && frames[i][t] == 'P' && forall k: nat | k < |frames| && frames[k][t] == 'P' :: k == i
  }

  /** The pilot slot with index `j` is sent by client `j / channels`, if there is one, and by nobody else. */
  lemma PilotSender(frames: seq<string>, length: nat, pilots: seq<nat>, clients: nat, channels: nat, j: nat, i: nat)
    requires SendOwnPilots(frames, length, pilots, clients, channels) && 0 < channels
    requires j < |pilots| && pilots[j] < length && i < clients
    requires Increasing(pilots)
    ensures frames[i][pilots[j]] == 'P' <==> i == j / channels
  {
    DivMod(j, channels);
    if i == j / channels {
      assert OwnsPilot(pilots, channels, i, pilots[j]);
    }
    if frames[i][pilots[j]] == 'P' {
      assert OwnsPilot(pilots, channels, i, pilots[j]);
      DivModUnique(j, channels, i, j - channels * i);
    }
  }

  lemma SentByOneIff(frames: seq<string>, length: nat, pilots: seq<nat>, clients: nat, channels: nat, j: nat, client: nat)
    requires SendOwnPilots(frames, length, pilots, clients, channels) && 0 < channels && Increasing(pilots)
    requires j < |pilots| && pilots[j] < length && client == j / channels
    ensures SentByOne(frames, pilots[j]) <==> j < clients * channels
  {
    hide OwnsPilot;
    forall i: nat | i < clients ensures frames[i][pilots[j]] == 'P' <==> i == client {
      PilotSender(frames, length, pilots, clients, channels, j, i);
    }
    QuotientAtLeast(j, channels, clients);
    assert client < clients ==> frames[client][pilots[j]] == 'P';
  }

  /** Every base station pilot slot is sent by exactly one client just when there are enough client antennas. */
  lemma EachPilotSentOnceIff(frames: seq<string>, frame: string, pilots: seq<nat>, clients: nat, channels: nat)
    requires SendOwnPilots(frames, |frame|, pilots, clients, channels) && 0 < channels && IsSlots(frame, 'P', pilots)
    ensures (forall j: nat | j < |pilots| :: SentByOne(frames, pilots[j])) <==> |pilots| <= clients * channels
    ensures forall t: nat, i: nat | i < clients && t < |frame| && frames[i][t] == 'P' :: frame[t] == 'P'
  {
    hide SentByOne;
    forall j: nat | j < |pilots| ensures SentByOne(frames, pilots[j]) <==> j < clients * channels {
      SentByOneIff(frames, |frame|, pilots, clients, channels, j, j / channels);
    }
    if |pilots| > clients * channels {
      assert !SentByOne(frames, pilots[clients * channels]);
    }
    forall t: nat, i: nat | i < clients && t < |frame| && frames[i][t] == 'P' ensures frame[t] == 'P' {
      assert OwnsPilot(pilots, channels, i, t);
    }
  }

  /** Every client has a pilot slot for each of its channels just when there are enough pilots. */
  lemma EveryClientServedIff(pilots: seq<nat>, clients: nat, channels: nat)
    requires 0 < channels
    requires Increasing(pilots)
    ensures (forall i: nat | i < clients :: ClientServed(pilots, channels, i)) <==> clients * channels <= |pilots|
  {
    if clients * channels <= |pilots| {
      forall i: nat | i < clients ensures ClientServed(pilots, channels, i) {
        MulMonotone(i + 1, clients, channels);
      }
    } else if clients > 0 {
      assert channels * (clients - 1) + channels == clients * channels;
      assert !ClientServed(pilots, channels, clients - 1);
    }
  }

  predicate ClientServed(pilots: seq<nat>, channels: nat, i: nat) { channels * i + channels <= |pilots| }

  // ----- the default generator -----

  datatype Generated = Frames(frames: seq<string>) | OutOfRange

  /** What client `i` does in slot `t` of the base station's frame. */
  ghost function DefaultRole(frame: string, pilots: seq<nat>, channels: nat, i: nat, t: nat): char
    requires t < |frame|
  {
    if frame[t] == 'P' then (if OwnsPilot(pilots, channels, i, t) then 'P' else 'G')
    else if frame[t] == 'U' || frame[t] == 'D' then frame[t] else 'G'
  }

  ghost predicate IsDefault(frame: string, pilots: seq<nat>, clients: nat, channels: nat, frames: seq<string>) {
    && Shape(frames, clients, |frame|)
    && forall i: nat, t: nat | i < clients && t < |frame| :: frames[i][t] == DefaultRole(frame, pilots, channels, i, t)
  }

  /** The pilot indices the generator looks up for client `i` in slot `t` are in range. */
  predicate LookupsFit(pilots: seq<nat>, channels: nat, i: nat, t: nat) {
    if channels == 1 then i < |pilots| else 2 * i < |pilots| && (pilots[2 * i] == t || 2 * i + 1 < |pilots|)
  }

  /** Some lookup is out of range: too few pilots for the clients.  A single two-channel client with a single
      pilot escapes, because its first lookup already matches. */
  predicate TooFewPilots(pilots: seq<nat>, clients: nat, channels: nat) {
    0 < |pilots| < clients * channels && !(channels == 2 && clients == 1 && |pilots| == 1)
  }

  lemma OwnsPilotByChannels(pilots: seq<nat>, channels: nat, i: nat, t: nat)
    requires 1 <= channels <= 2 && LookupsFit(pilots, channels, i, t)
    ensures channels == 1 ==> (OwnsPilot(pilots, 1, i, t) <==> pilots[i] == t)
    ensures channels == 2 ==>
      (OwnsPilot(pilots, 2, i, t) <==> pilots[2 * i] == t || (2 * i + 1 < |pilots| && pilots[2 * i + 1] == t))
  {
    if channels == 1 && pilots[i] == t {
      assert channels * i <= i < channels * i + channels;
    } else if channels == 2 && pilots[2 * i] == t {
      assert channels * i <= 2 * i < channels * i + channels;
    } else if channels == 2 && 2 * i + 1 < |pilots| && pilots[2 * i + 1] == t {
      assert channels * i <= 2 * i + 1 < channels * i + channels;
    }
  }

  /** All lookups fit exactly when there are not too few pilots. */
  lemma LookupsFitIff(frame: string, pilots: seq<nat>, clients: nat, channels: nat)
    requires 1 <= channels <= 2 && IsSlots(frame, 'P', pilots)
    ensures (forall i: nat, t: nat | i < clients && t < |frame| && frame[t] == 'P' ::
              LookupsFit(pilots, channels, i, t)) <==>
            !TooFewPilots(pilots, clients, channels)
  {
    if TooFewPilots(pilots, clients, channels) {
      assert frame[pilots[0]] == 'P';
      if channels == 1 || 2 * (clients - 1) >= |pilots| || |pilots| == 1 {
        assert !LookupsFit(pilots, channels, clients - 1, pilots[0]);
      } else {
        assert pilots[0] < pilots[1] && 2 * clients - 1 >= |pilots|;
        assert frame[pilots[0]] == 'P' && frame[pilots[1]] == 'P';
        assert !LookupsFit(pilots, channels, clients - 1, pilots[0]) ||
               !LookupsFit(pilots, channels, clients - 1, pilots[1]);
      }
    } else {
      forall i: nat, t: nat | i < clients && t < |frame| && frame[t] == 'P'
        ensures LookupsFit(pilots, channels, i, t)
      {
        assert t in pilots;
      }
    }
  }

  method GenClientDefault(frame: string, pilots: seq<nat>, clients: nat, channels: nat) returns (r: Generated)
    requires 1 <= channels <= 2 && IsSlots(frame, 'P', pilots)
    ensures r.OutOfRange? <==> TooFewPilots(pilots, clients, channels)
    ensures r.Frames? ==> IsDefault(frame, pilots, clients, channels, r.frames)
  {
    LookupsFitIff(frame, pilots, clients, channels);
    var frames: seq<string> := [];
    for i := 0 to clients
      invariant IsDefault(frame, pilots, i, channels, frames)
      invariant forall k: nat, t: nat | k < i && t < |frame| && frame[t] == 'P' :: LookupsFit(pilots, channels, k, t)
    {
      var client := frame;
      for s := 0 to |frame|
        invariant |client| == |frame|
        invariant forall t: nat | t < s :: client[t] == DefaultRole(frame, pilots, channels, i, t)
        invariant forall t: nat | s <= t < |frame| :: client[t] == frame[t]
        invariant forall t: nat | t < s && frame[t] == 'P' :: LookupsFit(pilots, channels, i, t)
      {
        var c := client[s];
        if c == 'B' {
          client := client[s := 'G'];
        } else if c == 'P' {
          if !LookupsFit(pilots, channels, i, s) {
            return OutOfRange;
          }
          OwnsPilotByChannels(pilots, channels, i, s);
          if (channels == 1 && pilots[i] != s) || (channels == 2 && pilots[2 * i] != s && pilots[2 * i + 1] != s) {
            client := client[s := 'G'];
          }
        } else if c != 'U' && c != 'D' {
          client := client[s := 'G'];
        }
      }
      frames := frames + [client];
    }
    r := Frames(frames);
  }

  /** The default frames keep the pilots apart and follow the base station in its data slots. */
  lemma DefaultKeepsPilotsApart(frame: string, pilots: seq<nat>, clients: nat, channels: nat, frames: seq<string>)
    requires IsSlots(frame, 'P', pilots) && IsDefault(frame, pilots, clients, channels, frames)
    ensures SendOwnPilots(frames, |frame|, pilots, clients, channels)
    ensures forall i: nat, t: nat | i < clients && t < |frame| :: frames[i][t] == 'U' <==> frame[t] == 'U'
    ensures forall i: nat, t: nat | i < clients && t < |frame| :: frames[i][t] == 'D' <==> frame[t] == 'D'
    ensures forall i: nat, t: nat | i < clients && t < |frame| && frame[t] == 'B' :: frames[i][t] == 'G'
    ensures forall i: nat, t: nat | i < clients && t < |frame| :: frames[i][t] in {'P', 'U', 'D', 'G'}
  {
    forall i: nat, t: nat | i < clients && t < |frame|
      ensures frames[i][t] == 'P' <==> OwnsPilot(pilots, channels, i, t)
    {
      assert frames[i][t] == DefaultRole(frame, pilots, channels, i, t);
    }
  }

  // ----- downlink sounding -----

  const GUARD_AFTER_BEACON: nat := 3
  const GUARD_AFTER_UL_PILOTS: nat := 2
  const GUARD_AFTER_DL_PILOTS: nat := 2

  datatype Sounding = Sounding(radios: nat, channels: nat, clients: nat, clientChannels: nat) {
    predicate Valid() { 0 < radios && 0 < channels && 0 < clientChannels }

    function UplinkPilots(): nat { clients * clientChannels }

    function FirstDownlink(): nat { GUARD_AFTER_BEACON + UplinkPilots() + GUARD_AFTER_UL_PILOTS }

    function Length(): nat { FirstDownlink() + radios * channels + GUARD_AFTER_DL_PILOTS }

    /** The slot in which radio `i` sounds its channel `ch`. */
    function DownlinkSlot(i: nat, ch: nat): nat { FirstDownlink() + i * channels + ch }

    /** What radio `i` does in slot `t`. */
    function Role(i: nat, t: nat): char {
      if t == 0 then 'B'
      else if GUARD_AFTER_BEACON <= t < GUARD_AFTER_BEACON + UplinkPilots() then 'P'
      else if DownlinkSlot(i, 0) <= t < DownlinkSlot(i, channels) then 'D'
      else 'G'
    }
  }

  ghost predicate IsSounding(s: Sounding, frames: seq<string>) {
    && Shape(frames, s.radios, s.Length())
    && forall i: nat, t: nat | i < s.radios && t < s.Length() :: frames[i][t] == s.Role(i, t)
  }

  method SoundingFrame(s: Sounding, i: nat) returns (frame: string)
    requires s.Valid() && i < s.radios
    ensures |frame| == s.Length() && forall t: nat | t < s.Length() :: frame[t] == s.Role(i, t)
  {
    MulMonotone(i + 1, s.radios, s.channels);
    frame := seq(s.Length(), _ => 'G');
    frame := frame[0 := 'B'];
    frame := Fill(frame, GUARD_AFTER_BEACON, s.UplinkPilots(), 'P');
    frame := Fill(frame, s.FirstDownlink() + i * s.channels, s.channels, 'D');
  }

  method GenBsSounding(s: Sounding) returns (frames: seq<string>)
    requires s.Valid()
    ensures IsSounding(s, frames)
  {
    frames := [];
    for i := 0 to s.radios
      invariant |frames| == i
      invariant forall r: nat | r < i :: |frames[r]| == s.Length()
      invariant forall r: nat, t: nat | r < i && t < s.Length() :: frames[r][t] == s.Role(r, t)
    {
      var frame := SoundingFrame(s, i);
      frames := frames + [frame];
    }
  }

  /** The layout of every radio's frame: the beacon, two silent slots, a pilot slot for each client antenna, two silent
      slots, a sounding slot for each base station antenna, and two silent slots. */
  lemma SoundingLayout(s: Sounding, frames: seq<string>, i: nat)
    requires s.Valid() && IsSounding(s, frames) && i < s.radios
    ensures var n, m, f := s.clients * s.clientChannels, s.radios * s.channels, frames[i];
      && |f| == 3 + n + 2 + m + 2
      && f[0] == 'B' && f[1] == 'G' && f[2] == 'G'
      && (forall t: nat | 3 <= t < 3 + n :: f[t] == 'P')
      && f[3 + n] == 'G' && f[4 + n] == 'G'
      && (forall t: nat | 5 + n <= t < 5 + n + m ::
            f[t] == if i * s.channels <= t - (5 + n) < i * s.channels + s.channels then 'D' else 'G')
      && f[5 + n + m] == 'G' && f[6 + n + m] == 'G'
  {
    MulMonotone(i + 1, s.radios, s.channels);
  }

  /** What client `i` does in slot `t`: pilots win over uplink slots, and those over downlink slots. */
  ghost function SoundingRole(downlink: seq<seq<nat>>, uplink: seq<nat>, pilots: seq<nat>, channels: nat, i: nat, t: nat)
    : char
  {
    if OwnsPilot(pilots, channels, i, t) then 'P'
    else if t in uplink then 'U'
    else if exists r: nat :: r < |downlink| && t in downlink[r] then 'D'
    else 'G'
  }

  ghost predicate IsClientSounding(length: nat, downlink: seq<seq<nat>>, uplink: seq<nat>, pilots: seq<nat>,
                                   clients: nat, channels: nat, frames: seq<string>)
  {
    && Shape(frames, clients, length)
    && forall i: nat, t: nat | i < clients && t < length ::
         frames[i][t] == SoundingRole(downlink, uplink, pilots, channels, i, t)
  }

  /** `c` written at every listed slot. */
  method Mark(frame: string, slots: seq<nat>, c: char) returns (marked: string)
    requires forall k: nat | k < |slots| :: slots[k] < |frame|
    ensures |marked| == |frame|
    ensures forall t: nat | t < |frame| :: marked[t] == if t in slots then c else frame[t]
  {
    marked := frame;
    for k := 0 to |slots|
      invariant |marked| == |frame|
      invariant forall t: nat | t < |frame| :: marked[t] == if t in slots[..k] then c else frame[t]
    {
      marked := marked[slots[k] := c];
    }
    assert slots[..|slots|] == slots;
  }

  method MarkAll(frame: string, slots: seq<seq<nat>>, c: char) returns (marked: string)
    requires forall r: nat, k: nat | r < |slots| && k < |slots[r]| :: slots[r][k] < |frame|
    ensures |marked| == |frame|
    ensures forall t: nat | t < |frame| ::
              marked[t] == if exists r: nat :: r < |slots| && t in slots[r] then c else frame[t]
  {
    marked := frame;
    for q := 0 to |slots|
      invariant |marked| == |frame|
      invariant forall t: nat | t < |frame| ::
        marked[t] == if exists r: nat :: r < q && t in slots[r] then c else frame[t]
    {
      var before := marked;
      marked := Mark(marked, slots[q], c);
      forall t: nat | t < |frame|
        ensures marked[t] == if exists r: nat :: r < q + 1 && t in slots[r] then c else frame[t]
      {
        if t in slots[q] {
          assert q < q + 1;
        }
      }
    }
  }

  /** The pilots of one client: a scan that stops at the client's last pilot. */
  method MarkPilots(frame: string, pilots: seq<nat>, channels: nat, i: nat) returns (client: string)
    requires 0 < channels && forall k: nat | k < |pilots| :: pilots[k] < |frame|
    ensures |client| == |frame|
    ensures forall t: nat | t < |frame| :: client[t] == if OwnsPilot(pilots, channels, i, t) then 'P' else frame[t]
  {
    client := frame;
    var first, end := channels * i, channels * (i + 1);
    var antenna, idx := first, 0;
    while idx < |pilots|
      invariant idx <= |pilots| && |client| == |frame|
      invariant antenna == (if idx <= first then first else idx) < end
      invariant forall t: nat | t < |frame| ::
        client[t] == if exists j: nat :: first <= j < idx && pilots[j] == t then 'P' else frame[t]
    {
      if idx == antenna {
        client := client[pilots[idx] := 'P'];
        antenna := antenna + 1;
        if antenna >= end {
          idx := idx + 1;
          break;
        }
      }
      idx := idx + 1;
    }
    forall t: nat | t < |frame|
      ensures OwnsPilot(pilots, channels, i, t) <==> exists j: nat :: first <= j < idx && pilots[j] == t
    {
    }
  }

  method GenClientSounding(length: nat, downlink: seq<seq<nat>>, uplink: seq<nat>, pilots: seq<nat>,
                           clients: nat, channels: nat)
    returns (frames: seq<string>)
    requires 0 < channels
    requires forall r: nat, k: nat | r < |downlink| && k < |downlink[r]| :: downlink[r][k] < length
    requires forall k: nat | k < |uplink| :: uplink[k] < length
    requires forall k: nat | k < |pilots| :: pilots[k] < length
    ensures IsClientSounding(length, downlink, uplink, pilots, clients, channels, frames)
  {
    var blank := seq(length, _ => 'G');
    var withDownlink := MarkAll(blank, downlink, 'D');
    var withUplink := Mark(withDownlink, uplink, 'U');
    frames := [];
    for i := 0 to clients
      invariant IsClientSounding(length, downlink, uplink, pilots, i, channels, frames)
    {
      var client := MarkPilots(withUplink, pilots, channels, i);
      frames := frames + [client];
    }
  }

  /** In an uplink slot every client sends, its own pilot if it has one there; a downlink slot that is neither is received
      by all. */
  lemma ClientsFollowLists(length: nat, downlink: seq<seq<nat>>, uplink: seq<nat>, pilots: seq<nat>, clients: nat,
                           channels: nat, frames: seq<string>, i: nat, t: nat)
    requires IsClientSounding(length, downlink, uplink, pilots, clients, channels, frames) && i < clients && t < length
    ensures frames[i][t] == 'P' <==>
            exists j: nat :: j < |pilots| && pilots[j] == t && i * channels <= j < i * channels + channels
    ensures t in uplink ==> frames[i][t] == 'P' || frames[i][t] == 'U'
    ensures frames[i][t] == 'U' ==> t in uplink
    ensures t !in uplink && (exists r: nat :: r < |downlink| && t in downlink[r]) ==>
            frames[i][t] == 'P' || frames[i][t] == 'D'
    ensures frames[i][t] == 'D' ==> exists r: nat :: r < |downlink| && t in downlink[r]
    ensures frames[i][t] in {'P', 'U', 'D', 'G'}
  {
    assert frames[i][t] == SoundingRole(downlink, uplink, pilots, channels, i, t);
  }

  /** The client frames are generated from the slot lists of the base station's frames. */
  ghost predicate Sounds(s: Sounding, bs: seq<string>, downlink: seq<seq<nat>>, uplink: seq<nat>, pilots: seq<nat>,
                         clients: seq<string>)
  {
    && s.Valid() && IsSounding(s, bs)
    && |downlink| == |bs| && (forall r: nat | r < |bs| :: IsSlots(bs[r], 'D', downlink[r]))
    && IsSlots(bs[0], 'U', uplink) && IsSlots(bs[0], 'P', pilots)
    && IsClientSounding(s.Length(), downlink, uplink, pilots, s.clients, s.clientChannels, clients)
  }

  /** The two sounding generators together, with the slot lists that the second works from. */
  method GenSounding(s: Sounding)
    returns (bs: seq<string>, clients: seq<string>, downlink: seq<seq<nat>>, uplink: seq<nat>, pilots: seq<nat>)
    requires s.Valid()
    ensures Sounds(s, bs, downlink, uplink, pilots, clients)
  {
    bs := GenBsSounding(s);
    downlink := LoadSlots(bs, 'D');
    var uplinks := LoadSlots(bs, 'U');
    var allPilots := LoadSlots(bs, 'P');
    uplink, pilots := uplinks[0], allPilots[0];
    clients := GenClientSounding(s.Length(), downlink, uplink, pilots, s.clients, s.clientChannels);
  }

  /** The radio that sounds in slot `t`. */
  lemma SounderOfSlot(s: Sounding, bs: seq<string>, t: nat, i: nat)
    requires s.Valid() && IsSounding(s, bs) && i < s.radios && t < s.Length()
    ensures bs[i][t] == 'D' <==> s.FirstDownlink() <= t && (t - s.FirstDownlink()) / s.channels == i
  {
    if t >= s.FirstDownlink() {
      var d := t - s.FirstDownlink();
      DivMod(d, s.channels);
      if s.DownlinkSlot(i, 0) <= t < s.DownlinkSlot(i, s.channels) {
        DivModUnique(d, s.channels, i, d - i * s.channels);
      }
    }
  }

  /** Every slot with a downlink pilot belongs to one radio, each antenna of the base station has one, and the
      clients all receive in it. */
  lemma DownlinkPilotsAreHeard(s: Sounding, bs: seq<string>, downlink: seq<seq<nat>>, uplink: seq<nat>, pilots: seq<nat>,
                               clients: seq<string>, i: nat, ch: nat)
    requires Sounds(s, bs, downlink, uplink, pilots, clients) && i < s.radios && ch < s.channels
    ensures s.DownlinkSlot(i, ch) < s.Length() && bs[i][s.DownlinkSlot(i, ch)] == 'D'
    ensures forall k: nat | k < s.radios && k != i :: bs[k][s.DownlinkSlot(i, ch)] != 'D'
    ensures forall k: nat | k < s.clients :: clients[k][s.DownlinkSlot(i, ch)] == 'D'
  {
    hide IsSlots, SoundingRole;
    OneSounder(s, bs, i, ch);
    forall k: nat | k < s.clients ensures clients[k][s.DownlinkSlot(i, ch)] == 'D' {
      ClientHears(s, bs, downlink, uplink, pilots, clients, i, s.DownlinkSlot(i, ch), k);
    }
  }

  lemma OneSounder(s: Sounding, bs: seq<string>, i: nat, ch: nat)
    requires s.Valid() && IsSounding(s, bs) && i < s.radios && ch < s.channels
    ensures s.FirstDownlink() <= s.DownlinkSlot(i, ch) < s.Length()
    ensures forall k: nat | k < s.radios :: bs[k][s.DownlinkSlot(i, ch)] == 'D' <==> k == i
  {
    MulMonotone(i + 1, s.radios, s.channels);
    var t := s.DownlinkSlot(i, ch);
    DivModUnique(t - s.FirstDownlink(), s.channels, i, ch);
    forall k: nat | k < s.radios ensures bs[k][t] == 'D' <==> k == i {
      SounderOfSlot(s, bs, t, k);
    }
  }

  lemma ClientHears(s: Sounding, bs: seq<string>, downlink: seq<seq<nat>>, uplink: seq<nat>, pilots: seq<nat>,
                    clients: seq<string>, i: nat, t: nat, k: nat)
    requires Sounds(s, bs, downlink, uplink, pilots, clients) && i < s.radios && k < s.clients
    requires s.FirstDownlink() <= t < s.Length() && bs[i][t] == 'D'
    ensures clients[k][t] == 'D'
  {
    assert bs[0][t] == s.Role(0, t) && bs[0][t] != 'P' && bs[0][t] != 'U';
    assert t in downlink[i];
    assert !OwnsPilot(pilots, s.clientChannels, k, t);
  }

  /** Nothing else is sounded: a client receives only in slots with a downlink pilot. */
  lemma ClientsListenOnlyToPilots(s: Sounding, bs: seq<string>, downlink: seq<seq<nat>>, uplink: seq<nat>, pilots: seq<nat>,
                                  clients: seq<string>, k: nat, t: nat)
    requires Sounds(s, bs, downlink, uplink, pilots, clients) && k < s.clients && t < s.Length() && clients[k][t] == 'D'
    ensures exists i: nat :: i < s.radios && bs[i][t] == 'D'
  {
    var i: nat :| i < |downlink| && t in downlink[i];
    assert bs[i][t] == 'D';
  }

  lemma UplinkPilotSlots(s: Sounding, bs: seq<string>, pilots: seq<nat>)
    requires s.Valid() && IsSounding(s, bs) && IsSlots(bs[0], 'P', pilots)
    ensures pilots == seq(s.UplinkPilots(), k requires 0 <= k < s.UplinkPilots() => GUARD_AFTER_BEACON + k)
  {
    var want: seq<nat> := seq(s.UplinkPilots(), k requires 0 <= k < s.UplinkPilots() => GUARD_AFTER_BEACON + k);
    forall t: nat | t < |bs[0]| && bs[0][t] == 'P' ensures t in want {
      assert bs[0][t] == s.Role(0, t);
      assert want[t - GUARD_AFTER_BEACON] == t;
    }
    forall k: nat | k < |want| ensures bs[0][want[k]] == 'P' {
      assert bs[0][want[k]] == s.Role(0, want[k]);
    }
    SlotsUnique(bs[0], 'P', pilots, want);
  }

  /** In downlink sounding every uplink pilot slot has exactly one sender, and every client a slot for each channel. */
  lemma SoundingIsCollisionFree(s: Sounding, bs: seq<string>, downlink: seq<seq<nat>>, uplink: seq<nat>, pilots: seq<nat>,
                                clients: seq<string>)
    requires Sounds(s, bs, downlink, uplink, pilots, clients)
    ensures forall i: nat | i < s.clients :: |clients[i]| == |bs[0]|
    ensures |clients| == s.clients
    ensures forall t: nat | t < |bs[0]| && bs[0][t] == 'P' :: SentByOne(clients, t)
    ensures forall i: nat | i < s.clients :: ClientServed(pilots, s.clientChannels, i)
  {
    UplinkPilotSlots(s, bs, pilots);
    assert SendOwnPilots(clients, |bs[0]|, pilots, s.clients, s.clientChannels);
    EachPilotSentOnceIff(clients, bs[0], pilots, s.clients, s.clientChannels);
    EveryClientServedIff(pilots, s.clients, s.clientChannels);
    forall t: nat | t < |bs[0]| && bs[0][t] == 'P' ensures SentByOne(clients, t) {
      assert t in pilots;
    }
  }
}
