/** What the client's main loop does to its alignment, over whole runs. */
module ClientAlignment {
  import opened Arithmetic
  import opened ClientTurns

  /** All reads of the turn delivered what was asked. */
  predicate Full(c: Config, t: Turn)
    requires 0 < c.slots
  {
    t.adjust + t.beaconRead == c.Samples() && t.rest == c.RestSamples()
  }

  /** Where the beacon found in the turn says its frame starts. */
  function FrameStart(c: Config, t: Turn): int { t.start + Offset(c, t) }

  /** The cursor once slot 0 is over, the samples thrown away included. */
  function EndOfSlot0(c: Config, t: Turn): int { t.start + t.beaconRead + Discard(c, t) }

  lemma FrameIsSlots(c: Config)
    requires 0 < c.slots
    ensures c.Samples() + c.RestSamples() == c.FrameSamples()
  {
  }

  /** The number of samples asked for in slot 0 is never above a slot nor below the postfix. */
  lemma RequestInRange(c: Config, h: seq<Turn>, k: nat)
    requires c.Valid() && IsRun(c, h) && k < |h|
    ensures c.postfix <= c.Samples() - h[k].adjust <= c.Samples()
  {
    assert TurnOk(c, h[k], k);
  }

  /** After a beacon at or behind the cursor's expectation, the end of slot 0 is where it should be, short of what
      an earlier correction still takes off; after one ahead of it, that holds for slot 0 of the next frame. */
  lemma ResyncAligns(c: Config, h: seq<Turn>, k: nat)
    requires c.Valid() && IsRun(c, h) && k + 1 < |h| && Found(h[k]) && Full(c, h[k]) && Full(c, h[k + 1])
    ensures Offset(c, h[k]) >= 0 ==> EndOfSlot0(c, h[k]) == FrameStart(c, h[k]) + c.Samples() - h[k].adjust
    ensures Offset(c, h[k]) < 0 && !Found(h[k + 1]) ==>
              EndOfSlot0(c, h[k + 1]) == FrameStart(c, h[k]) + c.FrameSamples() + c.Samples() - h[k].adjust
  {
    FrameIsSlots(c);
    assert Follows(c, h[k], h[k + 1], k);
  }

  /** What an earlier correction still takes off: nothing, unless the frame before found a beacon early. */
  lemma PendingIff(c: Config, h: seq<Turn>, k: nat)
    requires c.Valid() && IsRun(c, h) && k < |h|
    ensures h[k].adjust > 0 <==> k > 0 && Found(h[k - 1]) && Offset(c, h[k - 1]) < 0
  {
    if k > 0 {
      assert Follows(c, h[k - 1], h[k], k - 1);
    }
  }

  /** From a found beacon to the next, the cursor is whole frames after the start of the frame whose beacon was
      found, once the pending correction is taken off. */
  lemma {:induction false} CursorFollowsLastResync(c: Config, h: seq<Turn>, k: nat, j: nat)
    requires c.Valid() && IsRun(c, h) && k < j < |h| && Found(h[k])
    requires forall i: nat | k <= i < j :: Full(c, h[i])
    requires forall i: nat | k < i < j :: !Found(h[i])
    ensures h[j].start - h[j].adjust == FrameStart(c, h[k]) - h[k].adjust + (j - k) * c.FrameSamples()
    decreases j
  {
    hide IsRun;
    FrameIsSlots(c);
    RunStep(c, h, j - 1);
    if j - 1 > k {
      CursorFollowsLastResync(c, h, k, j - 1);
      assert (j - k) * c.FrameSamples() == (j - 1 - k) * c.FrameSamples() + c.FrameSamples();
    }
  }

  lemma RunStep(c: Config, h: seq<Turn>, k: nat)
    requires 0 < c.slots && IsRun(c, h) && k + 1 < |h|
    ensures TurnOk(c, h[k], k) && TurnOk(c, h[k + 1], k + 1) && Follows(c, h[k], h[k + 1], k)
  {
  }

  // ----- two corrections in a row -----

  /** Between tries, the retry count is the number of frames since resynchronisation fell due. */
  predicate RetryCounts(c: Config, t: Turn, k: nat) {
    && t.last <= k
    && (t.resync ==> t.retry == k - t.last)
    && (!t.resync && c.resyncEnable ==> t.retry == 0)
  }

  lemma {:induction false} RetriesCounted(c: Config, h: seq<Turn>, k: nat)
    requires c.Valid() && IsRun(c, h) && k < |h| && c.period > RESYNC_RETRY_MAX + 1
    ensures RetryCounts(c, h[k], k)
    decreases k
  {
    hide IsRun;
    if k > 0 {
      RetriesCounted(c, h, k - 1);
      RunStep(c, h, k - 1);
    } else {
      RunStarts(c, h);
    }
  }

  lemma RunStarts(c: Config, h: seq<Turn>)
    requires 0 < c.slots && IsRun(c, h) && h != []
    ensures h[0].adjust == 0 && h[0].resync && h[0].last == 0 && h[0].retry == 0 && TurnOk(c, h[0], 0)
  {
  }

  /** Two frames in a row can find the beacon: resynchronisation goes on, falls due again before the retries are used
      up, and the run is long enough for it to fall due once. */
  predicate CanRepeat(c: Config) {
    c.resyncEnable && c.period <= RESYNC_RETRY_MAX + 1 && (c.maxFrame == 0 || FirstRepeat(c) + 1 < c.maxFrame)
  }

  /** The first frame that can find the beacon just before another one does. */
  function FirstRepeat(c: Config): nat { if c.period == 0 then 0 else c.period - 1 }

  /** Otherwise no two frames in a row both find the beacon. */
  lemma NoConsecutiveFinds(c: Config, h: seq<Turn>, k: nat)
    requires c.Valid() && IsRun(c, h) && k + 1 < |h| && !CanRepeat(c)
    ensures !(Found(h[k]) && Found(h[k + 1]))
  {
    RunStep(c, h, k);
    if c.period > RESYNC_RETRY_MAX + 1 {
      RetriesCounted(c, h, k);
    }
  }

  /** Where a run without resynchronisation stands: until the period is over nothing has fallen due, and then it has
      stopped looking. */
  predicate OnlyFirstPeriod(c: Config, t: Turn, k: nat) {
    if k <= c.period then t.last == 0 else !t.resync
  }

  lemma {:induction false} FirstPeriodOnly(c: Config, h: seq<Turn>, k: nat)
    requires c.Valid() && IsRun(c, h) && k < |h| && !c.resyncEnable
    ensures OnlyFirstPeriod(c, h[k], k)
    decreases k
  {
    hide IsRun;
    if k > 0 {
      FirstPeriodOnly(c, h, k - 1);
      RunStep(c, h, k - 1);
    } else {
      RunStarts(c, h);
    }
  }

  /** Without resynchronisation the client looks for the beacon only in the frames of the first period, and finds it at
      most once. */
  lemma {:induction false} LooksOnlyOnce(c: Config, h: seq<Turn>, j: nat, k: nat)
    requires c.Valid() && IsRun(c, h) && j <= k < |h| && !c.resyncEnable && Found(h[k])
    ensures k < c.period
    ensures j < k ==> !Found(h[j]) && h[j + 1].resync
    decreases k - j
  {
    hide IsRun;
    FirstPeriodOnly(c, h, k);
    RunTurn(c, h, k);
    if j < k {
      LooksOnlyOnce(c, h, j + 1, k);
      FirstPeriodOnly(c, h, j + 1);
      if j + 1 < k {
        RunStep(c, h, j + 1);
      }
      RunStep(c, h, j);
    }
  }

  lemma RunTurn(c: Config, h: seq<Turn>, k: nat)
    requires 0 < c.slots && IsRun(c, h) && k < |h|
    ensures TurnOk(c, h[k], k)
  {
  }

  /** So then every resynchronisation starts with nothing pending, and puts the cursor exactly on the frames until
      the next one. */
  lemma AlignedAfterResync(c: Config, h: seq<Turn>, k: nat, j: nat)
    requires c.Valid() && IsRun(c, h) && k < j < |h| && Found(h[k]) && !CanRepeat(c)
    requires forall i: nat | k <= i < j :: Full(c, h[i])
    requires forall i: nat | k < i < j :: !Found(h[i])
    ensures h[k].adjust == 0
    ensures h[j].start - h[j].adjust == FrameStart(c, h[k]) + (j - k) * c.FrameSamples()
    ensures j > k + 1 ==> h[j].adjust == 0
  {
    CursorFollowsLastResync(c, h, k, j);
    PendingIff(c, h, k);
    PendingIff(c, h, j);
    if k > 0 {
      NoConsecutiveFinds(c, h, k - 1);
    }
  }

  /** The period the client computes from the frame length, 10^9 / (100 * frame samples), is long enough exactly for
      frames of up to 98039 samples. */
  lemma PeriodLongEnoughIff(frameSamples: nat)
    requires 0 < frameSamples
    ensures 1_000_000_000 / (100 * frameSamples) > RESYNC_RETRY_MAX + 1 <==> frameSamples <= 98039
  {
    QuotientAtLeast(1_000_000_000, 100 * frameSamples, RESYNC_RETRY_MAX + 2);
  }

  /** Turn `i` of a run whose cursor is a sample late: nothing is found before frame `k`, then in frames `k` and
      `k + 1` the beacon is found, a sample early. */
  function LateTurn(c: Config, k: nat, i: nat): Turn
    requires c.Valid() && k <= RESYNC_RETRY_MAX
  {
    var adjust := if i <= k then 0 else 1;
    Turn(i * c.FrameSamples() + (if i <= k + 1 then 1 else 0), adjust, i <= k, if i <= k + 1 then 0 else k + 1,
         if i <= k then i else 0, if k <= i <= k + 1 then c.BeaconEnd() - 1 else -1,
         c.Samples() - adjust, c.RestSamples())
  }

  lemma LateTurnFollows(c: Config, k: nat, i: nat)
    requires c.Valid() && k <= RESYNC_RETRY_MAX && c.resyncEnable && c.period <= k + 1 && i <= k + 1
    requires k > 0 ==> c.period == k + 1
    ensures Follows(c, LateTurn(c, k, i), LateTurn(c, k, i + 1), i)
    ensures TurnOk(c, LateTurn(c, k, i), i)
  {
    FrameIsSlots(c);
    hide Config.FrameSamples, Config.RestSamples;
    assert LateTurn(c, k, i + 1).start - LateTurn(c, k, i).start == c.FrameSamples() - (if i <= k then 0 else 1) by {
      assert (i + 1) * c.FrameSamples() == i * c.FrameSamples() + c.FrameSamples();
    }
  }

  function LateRun(c: Config, k: nat): seq<Turn>
    requires c.Valid() && k <= RESYNC_RETRY_MAX
  {
    seq(k + 3, i requires 0 <= i < k + 3 => LateTurn(c, k, i))
  }

  lemma LateRunIsRun(c: Config, k: nat)
    requires c.Valid() && CanRepeat(c) && k == FirstRepeat(c) && (c.maxFrame == 0 || k + 3 <= c.maxFrame)
    ensures IsRun(c, LateRun(c, k))
    ensures forall i: nat | i < k + 3 ::
      Full(c, LateTurn(c, k, i)) && LateTurn(c, k, i).index >= -1 && !OutOfRetries(c, LateTurn(c, k, i), i)
  {
    hide Config.FrameSamples, Config.RestSamples, Follows;
    var h := LateRun(c, k);
    forall i: nat | i + 1 < |h| ensures Follows(c, h[i], h[i + 1], i) && TurnOk(c, h[i], i) {
      LateTurnFollows(c, k, i);
    }
    assert TurnOk(c, h[k + 2], k + 2);
  }

  /** With a shorter period a run can find the beacon twice in a row: one sample early, in frame `k`, and again
      before that is corrected.  A frame later slot 0 ends a sample early although nothing has drifted. */
  lemma OverCorrects(c: Config) returns (h: seq<Turn>, k: nat)
    requires c.Valid() && CanRepeat(c) && (c.maxFrame == 0 || FirstRepeat(c) + 3 <= c.maxFrame)
    ensures IsRun(c, h) && k == FirstRepeat(c) && k + 3 == |h|
    ensures forall i: nat | i < |h| :: Full(c, h[i]) && h[i].index >= -1 && !OutOfRetries(c, h[i], i)
    ensures Found(h[k]) && Found(h[k + 1])
    ensures FrameStart(c, h[k + 1]) == FrameStart(c, h[k]) + c.FrameSamples()
    ensures EndOfSlot0(c, h[k + 2]) == FrameStart(c, h[k + 1]) + c.FrameSamples() + c.Samples() - 1
  {
    hide Config.FrameSamples, Config.RestSamples, IsRun, OutOfRetries;
    k := FirstRepeat(c);
    h := LateRun(c, k);
    LateRunIsRun(c, k);
    assert (k + 1) * c.FrameSamples() == k * c.FrameSamples() + c.FrameSamples();
    assert (k + 2) * c.FrameSamples() == (k + 1) * c.FrameSamples() + c.FrameSamples();
  }
}
