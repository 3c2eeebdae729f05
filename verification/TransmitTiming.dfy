/** When the client transmits: times are 64-bit sample counts, computed partly in unsigned arithmetic. */
module TransmitTiming {
  import opened Arithmetic
  import opened Slots

  const WORD: int := 0x1_0000_0000_0000_0000
  const HALF: int := 0x8000_0000_0000_0000

  /** The value a signed 64-bit integer takes when it is given `x` modulo 2^64. */
  function LongLong(x: int): int {
    if x % WORD < HALF then x % WORD else x % WORD - WORD
  }

  predicate Fits(x: int) { -HALF <= x < HALF }

  /** A frame has `slots` slots of `samples` samples; transmissions are sent `advance` samples early. */
  datatype Timing = Timing(slots: nat, samples: nat, advance: int) {
    function FrameSamples(): nat { slots * samples }

    /** The time of frame `e` when the client is in frame `frame`, whose beacon came at `base`: the frame
        difference is converted to an unsigned word before it is multiplied. */
    function FrameTime(base: int, e: nat, frame: nat): int {
      LongLong(base + (e - frame) % WORD * FrameSamples())
    }

    function SlotTime(frameTime: int, slot: nat): int {
      LongLong(frameTime + slot * samples - advance)
    }

    /** The time meant for slot `slot` of frame `e` when frame 0 began at `start`. */
    function MeantTime(start: int, e: nat, slot: nat): int {
      start + e * FrameSamples() + slot * samples - advance
    }
  }

  lemma LongLongExact(x: int)
    requires Fits(x)
    ensures LongLong(x) == x
  {
    if x >= 0 {
      DivModUnique(x, WORD, 0, x);
    } else {
      LongLongPeriodic(x, 1);
      DivModUnique(x + WORD, WORD, 0, x + WORD);
    }
  }

  lemma LongLongPeriodic(x: int, k: int)
    ensures (x + k * WORD) % WORD == x % WORD
    ensures LongLong(x + k * WORD) == LongLong(x)
  {
    var q, q' := x / WORD, (x + k * WORD) / WORD;
    assert x == q * WORD + x % WORD;
    assert (x + k * WORD) == q' * WORD + (x + k * WORD) % WORD;
    assert (q' - q - k) * WORD == x % WORD - (x + k * WORD) % WORD;
  }

  /** Whichever frame the client is in when it takes frame `e` from its queue, slot `slot` of it goes out at the
      time meant, as long as the times fit and that frame's base is whole frames after `start`: the wrapped
      multiplication does no harm. */
  lemma TimeDoesNotDependOnDrain(t: Timing, start: int, e: nat, slot: nat, frame: nat)
    requires Fits(start + e * t.FrameSamples()) && Fits(t.MeantTime(start, e, slot))
    ensures t.SlotTime(t.FrameTime(start + frame * t.FrameSamples(), e, frame), slot) == t.MeantTime(start, e, slot)
  {
    var f, d := t.FrameSamples(), e - frame;
    var base := start + frame * f;
    var k := d / WORD;
    assert d == k * WORD + d % WORD;
    assert d % WORD * f == d * f + (-(k * f)) * WORD;
    LongLongPeriodic(base + d * f, -(k * f));
    assert base + d * f == start + e * f;
    LongLongExact(start + e * f);
    LongLongExact(t.MeantTime(start, e, slot));
  }

  predicate Disjoint(a: int, b: int, length: nat) { a + length <= b || b + length <= a }

  /** Number of the slot among all slots of the run. */
  function SlotNumber(t: Timing, e: nat, slot: nat): nat { e * t.slots + slot }

  lemma SlotNumbers(t: Timing, e: nat, s: nat, e': nat, s': nat)
    requires s < t.slots && s' < t.slots && (e, s) != (e', s')
    ensures SlotNumber(t, e, s) != SlotNumber(t, e', s')
  {
    DivModUnique(SlotNumber(t, e, s), t.slots, e, s);
    DivModUnique(SlotNumber(t, e', s'), t.slots, e', s');
  }

  lemma MeantTimeByNumber(t: Timing, start: int, e: nat, s: nat)
    ensures t.MeantTime(start, e, s) == start - t.advance + SlotNumber(t, e, s) * t.samples
  {
    assert e * (t.slots * t.samples) == e * t.slots * t.samples;
  }

  /** Different slots counted from the same start never overlap. */
  lemma DifferentSlotsDisjoint(t: Timing, start: int, e: nat, s: nat, e': nat, s': nat)
    requires s < t.slots && s' < t.slots && (e, s) != (e', s')
    ensures Disjoint(t.MeantTime(start, e, s), t.MeantTime(start, e', s'), t.samples)
  {
    SlotNumbers(t, e, s, e', s');
    MeantTimeByNumber(t, start, e, s);
    MeantTimeByNumber(t, start, e', s');
    var n, n' := SlotNumber(t, e, s), SlotNumber(t, e', s');
    if n < n' {
      MulMonotone(n + 1, n', t.samples);
    } else {
      MulMonotone(n' + 1, n, t.samples);
    }
  }

  /** A resynchronisation may have moved the beacon between two transmissions.  Within one slot of movement, the
      later transmission is clear of the earlier one exactly when the move back leaves it the slots between them. */
  lemma MovedBeaconDisjointIff(t: Timing, start: int, e: nat, s: nat, e': nat, s': nat, move: int)
    requires s < t.slots && s' < t.slots && SlotNumber(t, e, s) < SlotNumber(t, e', s')
    requires 0 <= move + t.samples && move <= t.samples
    ensures Disjoint(t.MeantTime(start, e, s), t.MeantTime(start + move, e', s'), t.samples) <==>
            -move <= (SlotNumber(t, e', s') - SlotNumber(t, e, s) - 1) * t.samples
  {
    MeantTimeByNumber(t, start, e, s);
    MeantTimeByNumber(t, start + move, e', s');
    var gap := SlotNumber(t, e', s') - SlotNumber(t, e, s);
    assert SlotNumber(t, e', s') * t.samples == SlotNumber(t, e, s) * t.samples + gap * t.samples;
    assert (gap - 1) * t.samples == gap * t.samples - t.samples;
    MulMonotone(1, gap, t.samples);
  }

  // ----- one client's transmissions -----

  datatype Scheduled = Times(times: seq<int>) | OutOfRange

  /** The slots a client transmits in, in the order it does: a pilot for each channel, then its uplink slots. */
  function SentSlots(pilots: seq<nat>, uplink: seq<nat>, channels: nat): seq<nat>
    requires channels <= |pilots|
  {
    pilots[..channels] + uplink
  }

  /** The times at which frame `e` is sent when it is taken from the queue in frame `frame`.  If frame 0 began at
      `start` and the times fit, they are the times meant. */
  method ClientTxTimes(t: Timing, pilots: seq<nat>, uplink: seq<nat>, channels: nat, base: int, e: nat, frame: nat,
                       ghost start: int)
    returns (r: Scheduled)
    requires 1 <= channels <= 2
    ensures r.OutOfRange? <==> |pilots| < channels
    ensures r.Times? ==> AreSent(t, SentSlots(pilots, uplink, channels), base, e, frame, r.times)
    ensures r.Times? && base == start + frame * t.FrameSamples() ==>
      AsMeant(t, SentSlots(pilots, uplink, channels), start, e, r.times)
    ensures r.Times? ==> |pilots| >= channels && |r.times| == channels + |uplink|
    ensures r.Times? && base == start + frame * (t.slots * t.samples) ==>
      && (forall ch: nat | ch < channels :: GoesOutAt(t, start, e, pilots[ch], r.times[ch]))
      && (forall s: nat | s < |uplink| :: GoesOutAt(t, start, e, uplink[s], r.times[channels + s]))
  {
    hide AreSent, AsMeant, Timing.FrameTime, Timing.SlotTime, Timing.FrameSamples;
    var frameTime := t.FrameTime(base, e, frame);
    if |pilots| == 0 {
      return OutOfRange;
    }
    var times := [t.SlotTime(frameTime, pilots[0])];
    if channels == 2 {
      if |pilots| == 1 {
        return OutOfRange;
      }
      times := times + [t.SlotTime(frameTime, pilots[1])];
    }
    for s := 0 to |uplink|
      invariant |times| == channels + s
      invariant forall k: nat | k < |times| :: times[k] == t.SlotTime(frameTime, SentSlots(pilots, uplink, channels)[k])
    {
      times := times + [t.SlotTime(frameTime, uplink[s])];
    }
    r := Times(times);
    SentAsMeant(t, SentSlots(pilots, uplink, channels), base, e, frame, start, times);
    assert t.FrameSamples() == t.slots * t.samples by { FrameLength(t); }
    if base == start + frame * (t.slots * t.samples) {
      EachGoesOut(t, pilots, uplink, channels, start, e, times);
    }
  }

  /** A transmission for slot `slot` of frame `e` is given `time`: so many frames and slots after `start`, `advance`
      samples early, if that fits 64 bits. */
  ghost predicate GoesOutAt(t: Timing, start: int, e: nat, slot: nat, time: int) {
    var frameTime := start + e * (t.slots * t.samples);
    var slotTime := frameTime + slot * t.samples - t.advance;
    var limit := 0x8000_0000_0000_0000;
    (-limit <= frameTime < limit && -limit <= slotTime < limit) ==> time == slotTime
  }

  lemma FrameLength(t: Timing)
    ensures t.FrameSamples() == t.slots * t.samples
  {
  }

  lemma EachGoesOut(t: Timing, pilots: seq<nat>, uplink: seq<nat>, channels: nat, start: int, e: nat, times: seq<int>)
    requires channels <= |pilots| && AsMeant(t, SentSlots(pilots, uplink, channels), start, e, times)
    ensures |times| == channels + |uplink|
    ensures forall ch: nat | ch < channels :: GoesOutAt(t, start, e, pilots[ch], times[ch])
    ensures forall s: nat | s < |uplink| :: GoesOutAt(t, start, e, uplink[s], times[channels + s])
  {
    var slots := SentSlots(pilots, uplink, channels);
    forall ch: nat | ch < channels ensures GoesOutAt(t, start, e, pilots[ch], times[ch]) {
      assert slots[ch] == pilots[ch];
    }
    forall s: nat | s < |uplink| ensures GoesOutAt(t, start, e, uplink[s], times[channels + s]) {
      assert slots[channels + s] == uplink[s];
    }
  }

  ghost predicate AreSent(t: Timing, slots: seq<nat>, base: int, e: nat, frame: nat, times: seq<int>) {
    |times| == |slots| && forall k: nat | k < |slots| :: times[k] == t.SlotTime(t.FrameTime(base, e, frame), slots[k])
  }

  ghost predicate AsMeant(t: Timing, slots: seq<nat>, start: int, e: nat, times: seq<int>) {
    && |times| == |slots|
    && forall k: nat | k < |slots| && Fits(start + e * t.FrameSamples()) && Fits(t.MeantTime(start, e, slots[k])) ::
         times[k] == t.MeantTime(start, e, slots[k])
  }

  lemma SentAsMeant(t: Timing, slots: seq<nat>, base: int, e: nat, frame: nat, start: int, times: seq<int>)
    requires |times| == |slots|
    requires forall k: nat | k < |slots| :: times[k] == t.SlotTime(t.FrameTime(base, e, frame), slots[k])
    ensures AreSent(t, slots, base, e, frame, times)
    ensures base == start + frame * t.FrameSamples() ==> AsMeant(t, slots, start, e, times)
  {
    hide Timing.FrameTime, Timing.SlotTime, Timing.MeantTime, Timing.FrameSamples;
    if base == start + frame * t.FrameSamples() {
      forall k: nat | k < |slots| && Fits(start + e * t.FrameSamples()) && Fits(t.MeantTime(start, e, slots[k]))
        ensures times[k] == t.MeantTime(start, e, slots[k])
      {
        TimeDoesNotDependOnDrain(t, start, e, slots[k], frame);
      }
    }
  }

  /** A client's pilot and uplink slots in a frame are all different. */
  lemma SentSlotsDistinct(frame: string, pilots: seq<nat>, uplink: seq<nat>, channels: nat, a: nat, b: nat)
    requires IsSlots(frame, 'P', pilots) && IsSlots(frame, 'U', uplink) && channels <= |pilots|
    requires a < b < |SentSlots(pilots, uplink, channels)|
    ensures SentSlots(pilots, uplink, channels)[a] != SentSlots(pilots, uplink, channels)[b]
    ensures SentSlots(pilots, uplink, channels)[a] < |frame| && SentSlots(pilots, uplink, channels)[b] < |frame|
  {
  }

  /** No two transmissions of a client that are counted from the same start overlap: the `a`th of frame `e` and the
      `b`th of frame `e'`. */
  lemma ClientTransmissionsDisjoint(t: Timing, start: int, frame: string, pilots: seq<nat>, uplink: seq<nat>,
                                    channels: nat, e: nat, a: nat, e': nat, b: nat)
    requires IsSlots(frame, 'P', pilots) && IsSlots(frame, 'U', uplink) && channels <= |pilots| && |frame| == t.slots
    requires a < |SentSlots(pilots, uplink, channels)| && b < |SentSlots(pilots, uplink, channels)| && (e, a) != (e', b)
    ensures var slots := SentSlots(pilots, uplink, channels);
      Disjoint(t.MeantTime(start, e, slots[a]), t.MeantTime(start, e', slots[b]), t.samples)
  {
    hide Timing.MeantTime;
    var slots := SentSlots(pilots, uplink, channels);
    if a < b {
      SentSlotsDistinct(frame, pilots, uplink, channels, a, b);
    } else if b < a {
      SentSlotsDistinct(frame, pilots, uplink, channels, b, a);
    }
    DifferentSlotsDisjoint(t, start, e, slots[a], e', slots[b]);
  }
}
