/** The star calibration schedule: one reference radio exchanges pilots with every other radio of the cell and
    listens to the clients.  The base station has one channel. */
module StarCalibration {
  import opened Arithmetic
  import opened Slots

  datatype Star = Star(radios: nat, clients: nat, clientChannels: nat) {
    predicate Valid() { 0 < radios && 0 < clientChannels }

    function Ref(): nat requires Valid() { radios - 1 }

    function ClientAntennas(): nat { clients * clientChannels }

    /** With clients, slot 0 is for the beacon. */
    function BeaconSlot(): nat { if ClientAntennas() > 0 then 1 else 0 }

    function Length(): nat { BeaconSlot() + radios + ClientAntennas() }

    /** What radio `i` does in slot `t`. */
    function Role(i: nat, t: nat): char
      requires Valid()
    {
      var b := BeaconSlot();
      if i == Ref() then
        (if t == b + Ref() then 'P' else if b <= t < b + Ref() then 'R' else 'G')
      else if t < b then 'B'
      else if t == b + i then 'P'
      else if t >= b + Ref() then 'R'
      else 'G'
    }

    /** What client `k` does in slot `t`. */
    function ClientRole(k: nat, t: nat): char
      requires Valid()
    {
      if 1 <= t < 1 + Ref() then 'D'
      else if 1 + radios + clientChannels * k <= t < 1 + radios + clientChannels * k + clientChannels then 'P'
      else 'G'
    }
  }

  ghost predicate IsStar(s: Star, frames: seq<string>)
    requires s.Valid()
  {
    && Shape(frames, s.radios, s.Length())
    && forall i: nat, t: nat | i < s.radios && t < s.Length() :: frames[i][t] == s.Role(i, t)
  }

  /** After the loop has passed radio `i`, the frames of the radios before `i` and the reference's replies to them
      are in place. */
  ghost predicate Progress(s: Star, frames: seq<string>, i: nat)
    requires s.Valid()
  {
    && Shape(frames, s.radios, s.Length())
    && (forall r: nat, t: nat | r < i && r != s.Ref() && t < s.Length() && r < s.radios :: frames[r][t] == s.Role(r, t))
    && forall t: nat | t < s.Length() ::
         frames[s.Ref()][t] == if s.BeaconSlot() + i <= t < s.BeaconSlot() + s.Ref() then 'G' else s.Role(s.Ref(), t)
  }

  method RadioFrame(s: Star, i: nat) returns (frame: string)
    requires s.Valid() && i < s.radios && i != s.Ref()
    ensures |frame| == s.Length() && forall t: nat | t < s.Length() :: frame[t] == s.Role(i, t)
  {
    var b := s.BeaconSlot();
    frame := seq(s.Length(), _ => 'G');
    if s.ClientAntennas() > 0 {
      frame := frame[0 := 'B'];
    }
    frame := frame[b + i := 'P'];
    frame := frame[b + s.Ref() := 'R'];
    frame := Fill(frame, b + s.radios, s.ClientAntennas(), 'R');
  }

  method GenSchedule(s: Star) returns (frames: seq<string>)
    requires s.Valid()
    ensures IsStar(s, frames)
  {
    hide Star.Role;
    frames := seq(s.radios, _ => seq(s.Length(), _ => 'G'));
    RefStart(s, frames);
    frames := Put(frames, s.Ref(), s.BeaconSlot() + s.Ref(), 'P');
    for i := 0 to s.radios
      invariant Progress(s, frames, i)
    {
      RefReplies(s, frames, i);
      if i != s.Ref() {
        var frame := RadioFrame(s, i);
        frames := frames[i := frame];
        frames := Put(frames, s.Ref(), s.BeaconSlot() + i, 'R');
      }
    }
    RefDone(s, frames);
  }

  lemma RefStart(s: Star, frames: seq<string>)
    requires s.Valid() && Shape(frames, s.radios, s.Length())
    requires forall r: nat, t: nat | r < s.radios && t < s.Length() :: frames[r][t] == 'G'
    ensures Progress(s, Put(frames, s.Ref(), s.BeaconSlot() + s.Ref(), 'P'), 0)
  {
  }

  /** The reference frame once radio `i` is served too. */
  lemma RefReplies(s: Star, frames: seq<string>, i: nat)
    requires s.Valid() && i < s.radios && Progress(s, frames, i)
    ensures i != s.Ref() ==> forall t: nat | t < s.Length() ::
      frames[s.Ref()][s.BeaconSlot() + i := 'R'][t] ==
      if s.BeaconSlot() + i + 1 <= t < s.BeaconSlot() + s.Ref() then 'G' else s.Role(s.Ref(), t)
  {
  }

  lemma RefDone(s: Star, frames: seq<string>)
    requires s.Valid() && Progress(s, frames, s.radios)
    ensures IsStar(s, frames)
  {
  }

  ghost predicate IsStarClients(s: Star, frames: seq<string>)
    requires s.Valid()
  {
    && Shape(frames, s.clients, s.Length())
    && forall k: nat, t: nat | k < s.clients && t < s.Length() :: frames[k][t] == s.ClientRole(k, t)
  }

  method GenClientSchedule(s: Star) returns (frames: seq<string>)
    requires s.Valid() && 0 < s.ClientAntennas()
    ensures IsStarClients(s, frames)
  {
    frames := [];
    for k := 0 to s.clients
      invariant |frames| == k
      invariant forall j: nat | j < k :: |frames[j]| == s.Length()
      invariant forall j: nat, t: nat | j < k && t < s.Length() :: frames[j][t] == s.ClientRole(j, t)
    {
      MulMonotone(k + 1, s.clients, s.clientChannels);
      var frame := seq(s.Length(), _ => 'G');
      for n := 0 to s.radios
        invariant |frame| == s.Length()
        invariant forall t: nat | t < s.Length() :: frame[t] == if 1 <= t < 1 + s.Ref() && t < 1 + n then 'D' else 'G'
      {
        if n != s.Ref() {
          frame := frame[1 + n := 'D'];
        }
      }
      frame := Fill(frame, 1 + s.radios + s.clientChannels * k, s.clientChannels, 'P');
      frames := frames + [frame];
    }
  }

  /** Who sends a pilot: radio `i` of the base station or client `k`. */
  datatype Sender = Radio(i: nat) | Client(k: nat)

  ghost predicate SendsPilot(bs: seq<string>, clients: seq<string>, who: Sender, t: nat) {
    match who
    case Radio(i) => i < |bs| && t < |bs[i]| && bs[i][t] == 'P'
    case Client(k) => k < |clients| && t < |clients[k]| && clients[k][t] == 'P'
  }

  /** No slot has two pilot senders, radios and clients taken together. */
  lemma OnePilotSender(s: Star, bs: seq<string>, clients: seq<string>, a: Sender, b: Sender, t: nat)
    requires s.Valid() && 0 < s.ClientAntennas() && IsStar(s, bs) && IsStarClients(s, clients)
    requires SendsPilot(bs, clients, a, t) && SendsPilot(bs, clients, b, t)
    ensures a == b
  {
    if a.Client? && b.Client? {
      var u := t - (1 + s.radios);
      DivModUnique(u, s.clientChannels, a.k, u - s.clientChannels * a.k);
      DivModUnique(u, s.clientChannels, b.k, u - s.clientChannels * b.k);
    }
  }

  /** Every pilot is heard: a radio's by the reference and by every client, the reference's by all other radios, and
      that of client `k` on its channel `ch`, in the slots after the radios' turns, by all radios but the reference. */
  lemma PilotsAreHeard(s: Star, bs: seq<string>, clients: seq<string>)
    requires s.Valid() && 0 < s.ClientAntennas() && IsStar(s, bs) && IsStarClients(s, clients)
    ensures forall i: nat | i < s.radios :: |bs[i]| == 1 + s.radios + s.clients * s.clientChannels
    ensures forall i: nat | i + 1 < s.radios :: bs[i][0] == 'B' && bs[i][1 + i] == 'P' && bs[s.radios - 1][1 + i] == 'R'
    ensures forall k: nat, t: nat | k < s.clients && 1 <= t < s.radios :: clients[k][t] == 'D'
    ensures bs[s.radios - 1][s.radios] == 'P' && forall i: nat | i + 1 < s.radios :: bs[i][s.radios] == 'R'
  {
  }

  lemma ClientPilotsAreHeard(s: Star, bs: seq<string>, clients: seq<string>, k: nat, ch: nat)
    requires s.Valid() && IsStar(s, bs) && IsStarClients(s, clients) && k < s.clients && ch < s.clientChannels
    ensures var t := 1 + s.radios + k * s.clientChannels + ch;
      && 0 < s.ClientAntennas() && t < s.Length() && clients[k][t] == 'P'
      && forall i: nat | i + 1 < s.radios :: bs[i][t] == 'R'
  {
    MulMonotone(k + 1, s.clients, s.clientChannels);
  }

  /** A client receives only while a radio other than the reference sends its pilot. */
  lemma ClientsHearOnlyPilots(s: Star, bs: seq<string>, clients: seq<string>, k: nat, t: nat)
    requires s.Valid() && 0 < s.ClientAntennas() && IsStar(s, bs) && IsStarClients(s, clients)
    requires k < s.clients && t < s.Length() && clients[k][t] == 'D'
    ensures 0 < t < s.radios && bs[t - 1][t] == 'P'
  {
  }

  // ----- the receiver's renumbering -----

  /** Dataset row and antenna of what radio `i` receives in slot `t`; the radio has antenna `i`. */
  function Remap(s: Star, i: nat, t: nat): (int, int)
    requires s.Valid()
  {
    if i == s.Ref() then (0, t - s.BeaconSlot()) else (t - s.Ref(), i)
  }

  ghost predicate Receives(s: Star, bs: seq<string>, i: nat, t: nat)
    requires s.Valid() && IsStar(s, bs)
  {
    i < s.radios && t < s.Length() && bs[i][t] == 'R'
  }

  /** With clients: a radio's pilot to the reference goes to row 0, the reference's to row 1, and that of client
      `k` on its channel `ch` to row 2 + k * channels + ch, all inside the dataset. */
  lemma RemapRows(s: Star, bs: seq<string>, clients: seq<string>, i: nat, t: nat)
    requires s.Valid() && 0 < s.ClientAntennas() && IsStar(s, bs) && IsStarClients(s, clients) && Receives(s, bs, i, t)
    ensures 0 <= Remap(s, i, t).0 < 2 + s.ClientAntennas() && 0 <= Remap(s, i, t).1 < s.Ref()
    ensures i == s.Ref() ==> Remap(s, i, t).0 == 0 && bs[Remap(s, i, t).1][t] == 'P'
    ensures i != s.Ref() ==> Remap(s, i, t).0 != 0 && Remap(s, i, t).1 == i
    ensures Remap(s, i, t).0 == 1 ==> bs[s.Ref()][t] == 'P'
    ensures Remap(s, i, t).0 >= 2 ==>
      var p := Remap(s, i, t).0 - 2;
      p / s.clientChannels < s.clients && clients[p / s.clientChannels][t] == 'P' &&
      t == 1 + s.radios + p / s.clientChannels * s.clientChannels + p % s.clientChannels
  {
    if i != s.Ref() && t > 1 + s.Ref() {
      var p := t - (1 + s.radios);
      DivMod(p, s.clientChannels);
      if p / s.clientChannels >= s.clients {
        MulMonotone(s.clients, p / s.clientChannels, s.clientChannels);
      }
    }
  }

  ghost predicate RemapInjective(s: Star, bs: seq<string>)
    requires s.Valid() && IsStar(s, bs)
  {
    forall i: nat, t: nat, j: nat, u: nat |
      Receives(s, bs, i, t) && Receives(s, bs, j, u) && Remap(s, i, t) == Remap(s, j, u) :: i == j && t == u
  }

  /** The renumbering keeps packets apart just when there are client antennas or nothing to calibrate: without
      clients the beacon slot is missing, and both directions of a radio's exchange land in row 0. */
  lemma RemapInjectiveIff(s: Star, bs: seq<string>)
    requires s.Valid() && IsStar(s, bs)
    ensures RemapInjective(s, bs) <==> 0 < s.ClientAntennas() || s.radios == 1
  {
    if s.ClientAntennas() == 0 && s.radios > 1 {
      assert Receives(s, bs, s.Ref(), 0) && Receives(s, bs, 0, s.Ref());
      assert Remap(s, s.Ref(), 0) == Remap(s, 0, s.Ref());
    }
  }
}
