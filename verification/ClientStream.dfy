/** Where the client stands in the stream of samples: the base station's frames begin a frame length apart, and in each
    the beacon ends after the prefix and its own length. */
module ClientStream {
  import opened Arithmetic
  import opened Common
  import opened ClientAlignment
  import opened ClientFacts
  import opened ClientTiming
  import opened ClientTurns

  function FrameLength(c: Config): nat { c.slots * (c.prefix + c.slotSamples + c.postfix) }

  /** Where frame `k` of the stream begins, if frame 0 begins at `f`. */
  function FrameBegins(c: Config, f: int, k: int): int { f + k * FrameLength(c) }

  ghost predicate AtFrame(c: Config, f: int, x: int) { exists k: int :: x == FrameBegins(c, f, k) }

  /** In the window read from `from`, some frame's beacon ends at `index`. */
  ghost predicate IsBeaconEnd(c: Config, f: int, from: int, index: int) {
    exists k: int :: from + index == FrameBegins(c, f, k) + c.prefix + c.beacon
  }

  lemma NextFrameBegins(c: Config, f: int, k: int, n: int)
    ensures FrameBegins(c, f, k) + n * FrameLength(c) == FrameBegins(c, f, k + n)
  {
    assert (k + n) * FrameLength(c) == k * FrameLength(c) + n * FrameLength(c);
  }

  /** If the detector reports ends of beacons, a successful initial synchronisation leaves the client at the beginning of
      a frame. */
  lemma InitialSyncEndsAtFrame(c: Config, r: Radio, f: int)
    requires c.Valid()
    requires var (s, thrown, found) := InitiallySynced(c, r, []);
      !thrown && s.running && forall w | w in found :: IsBeaconEnd(c, f, w.0, w.1)
    ensures AtFrame(c, f, InitiallySynced(c, r, []).0.position)
  {
    hide FrameLength, FrameBegins, InitiallySynced, IsBeaconEnd;
    NothingDetected(r.detections);
    InitiallySyncedFacts(c, r, [], r.detections);
    var (s, _, found) := InitiallySynced(c, r, []);
    assert found[1] in found;
    AlignedToFrame(c, f, found[1].0, found[1].1, s.position);
  }

  lemma AlignedToFrame(c: Config, f: int, from: int, index: int, position: int)
    requires IsBeaconEnd(c, f, from, index) && position == NextFrame(c, (from, index))
    ensures AtFrame(c, f, position)
  {
    var k: int :| from + index == FrameBegins(c, f, k) + c.prefix + c.beacon;
    NextFrameBegins(c, f, k, 1);
    assert position == FrameBegins(c, f, k + 1);
  }

  /** Each beacon found in the run is the end of a beacon of the stream. */
  ghost predicate FindsBeacons(c: Config, h: seq<Turn>, f: int) {
    forall k: nat | k < |h| && Found(h[k]) :: IsBeaconEnd(c, f, h[k].start, h[k].index)
  }

  lemma FoundFrameBegins(c: Config, f: int, t: Turn)
    requires IsBeaconEnd(c, f, t.start, t.index)
    ensures AtFrame(c, f, FrameStart(c, t))
  {
    var k: int :| t.start + t.index == FrameBegins(c, f, k) + c.prefix + c.beacon;
    assert FrameStart(c, t) == FrameBegins(c, f, k);
  }

  lemma FramesLater(c: Config, f: int, x: int, n: int)
    requires AtFrame(c, f, x)
    ensures AtFrame(c, f, x + n * FrameLength(c))
  {
    var k: int :| x == FrameBegins(c, f, k);
    NextFrameBegins(c, f, k, n);
    assert x + n * FrameLength(c) == FrameBegins(c, f, k + n);
  }

  /** From the first beacon found on, every frame the client reads begins where one of the stream does, once the samples
      are counted that it leaves out in slot 0 after an early find. */
  lemma {:induction false} FramesBeginAtFrames(c: Config, h: seq<Turn>, f: int, k: nat, j: nat)
    requires c.Valid() && IsRun(c, h) && AllFull(c, h) && FindsBeacons(c, h, f) && !CanRepeat(c)
    requires k < j < |h| && Found(h[k])
    ensures AtFrame(c, f, h[j].start - h[j].adjust)
    ensures h[j].adjust > 0 ==> Found(h[j - 1])
    decreases j
  {
    hide IsRun, FrameLength, IsBeaconEnd, AtFrame;
    PendingIff(c, h, j);
    if Found(h[j - 1]) || j == k + 1 {
      NothingPending(c, h, j - 1);
      CursorFollowsLastResync(c, h, j - 1, j);
      FoundFrameBegins(c, f, h[j - 1]);
      FramesLater(c, f, FrameStart(c, h[j - 1]), 1);
    } else {
      FramesBeginAtFrames(c, h, f, k, j - 1);
      RunStep(c, h, j - 1);
      FrameIsSlots(c);
      FramesLater(c, f, h[j - 1].start - h[j - 1].adjust, 1);
    }
    assert c.FrameSamples() == FrameLength(c) by { SameLength(c); }
  }

  lemma SameLength(c: Config)
    ensures c.FrameSamples() == FrameLength(c)
  {
  }

  /** The transmissions of a frame whose beacon was found are counted from where that frame begins. */
  lemma BaseIsAtFrame(c: Config, h: seq<Turn>, f: int, k: nat)
    requires FindsBeacons(c, h, f) && k < |h| && Found(h[k])
    ensures AtFrame(c, f, Base(c, h[k]))
  {
    FoundFrameBegins(c, f, h[k]);
  }

  /** A beacon that is late ends slot 0 where the second slot of its frame begins. */
  lemma LateFindEndsSlot0(c: Config, h: seq<Turn>, f: int, k: nat)
    requires c.Valid() && IsRun(c, h) && AllFull(c, h) && FindsBeacons(c, h, f) && !CanRepeat(c)
    requires k < |h| && Found(h[k]) && h[k].index >= c.prefix + c.beacon
    ensures AtFrame(c, f, EndOfSlot0(c, h[k]) - (c.prefix + c.slotSamples + c.postfix))
  {
    hide IsRun;
    NothingPending(c, h, k);
    FoundFrameBegins(c, f, h[k]);
    assert Full(c, h[k]);
  }

  /** The earliest beacon leaves the most samples out of the next frame: all but the postfix, when the beacon fills its
      slot. */
  lemma EarliestBeaconAsksLeast(c: Config, h: seq<Turn>, k: nat)
    requires c.Valid() && IsRun(c, h) && k + 1 < |h| && h[k].index == 0
    ensures c.Samples() - h[k + 1].adjust == c.postfix + (c.slotSamples - c.beacon)
  {
    RunStep(c, h, k);
  }
}
