/** Which histories really happen: for every history in which all reads are answered in full there are answers of the
    radio and the detector from which the client's loops produce it. */
module ClientExecutions {
  import opened Common
  import opened ClientAlignment
  import opened ClientFacts
  import opened ClientTurns

  // ----- full answers -----

  function InFull(request: nat): Reply { Reply(request, false) }

  function FullSlots(c: Config, n: nat): seq<Reply> { seq(n, _ => InFull(c.Samples())) }

  /** The replies that make turn `t`. */
  function Replies(c: Config, t: Turn): seq<Reply>
    requires 0 < c.slots && t.adjust <= c.Samples()
  {
    [InFull(c.Samples() - t.adjust)] + (if Discard(c, t) > 0 then [InFull(Discard(c, t))] else []) +
    FullSlots(c, c.slots - 1)
  }

  function ScriptOf(c: Config, h: seq<Turn>): seq<Reply>
    requires 0 < c.slots && forall t | t in h :: t.adjust <= c.Samples()
  {
    if h == [] then [] else Replies(c, h[0]) + ScriptOf(c, h[1..])
  }

  /** What the detector reports for the turns from frame `k` on. */
  function DetectionsOf(c: Config, h: seq<Turn>, k: nat): seq<int> {
    if h == [] then [] else Reported(c, h[0], k, DetectionsOf(c, h[1..], k + 1))
  }

  /** The turns from frame `k` on are full, follow each other, and do not use up the retries. */
  ghost predicate Goes(c: Config, h: seq<Turn>, k: nat)
    requires c.Valid()
  {
    && (forall i: nat | i < |h| ::
          TurnOk(c, h[i], k + i) && Full(c, h[i]) && h[i].index >= -1 && !OutOfRetries(c, h[i], k + i))
    && (forall i: nat | i + 1 < |h| :: Follows(c, h[i], h[i + 1], k + i))
    && (c.maxFrame > 0 ==> k + |h| <= c.maxFrame)
  }

  lemma {:induction false} RestedInFull(c: Config, n: nat, rest: seq<Reply>, d: seq<int>, running: bool, position: int)
    ensures Rested(c, Radio(FullSlots(c, n) + rest, d, running, position), n) ==
            (Radio(rest, d, running, position + c.SlotsSamples(n)), c.SlotsSamples(n))
    decreases n
  {
    var script := FullSlots(c, n) + rest;
    if n == 0 {
      assert script == rest;
    } else {
      assert script[1..] == FullSlots(c, n - 1) + rest;
      RestedInFull(c, n - 1, rest, d, running, position + c.Samples());
      SlotMore(c, n);
    }
  }

  lemma AdjustedInFull(left: nat, rest: seq<Reply>, d: seq<int>, position: int)
    requires left > 0
    ensures Adjusted(Radio([InFull(left)] + rest, d, true, position), left) == Radio(rest, d, true, position + left)
  {
    var r := Radio([InFull(left)] + rest, d, true, position);
    assert r.script[1..] == rest;
    assert Rx(r, left) == (Radio(rest, d, true, position + left), left);
  }

  lemma RxInFull(request: nat, rest: seq<Reply>, d: seq<int>, position: int)
    ensures Rx(Radio([InFull(request)] + rest, d, true, position), request) ==
            (Radio(rest, d, true, position + request), request)
  {
    assert ([InFull(request)] + rest)[1..] == rest;
  }

  /** What is left of a turn's replies once slot 0 is read. */
  function AfterSlot0(c: Config, t: Turn, rest: seq<Reply>): seq<Reply>
    requires 0 < c.slots
  {
    (if Discard(c, t) > 0 then [InFull(Discard(c, t))] else []) + (FullSlots(c, c.slots - 1) + rest)
  }

  lemma RepliesSplit(c: Config, t: Turn, rest: seq<Reply>)
    requires 0 < c.slots && t.adjust <= c.Samples()
    ensures Replies(c, t) + rest == [InFull(c.Samples() - t.adjust)] + AfterSlot0(c, t, rest)
  {
  }

  lemma DiscardInFull(c: Config, t: Turn, rest: seq<Reply>, d: seq<int>, position: int, retries: nat)
    requires c.Valid() && retries <= RESYNC_RETRY_MAX
    ensures Corrected(c, Radio(AfterSlot0(c, t, rest), d, true, position), t.index, retries) ==
            Radio(FullSlots(c, c.slots - 1) + rest, d, true, position + Discard(c, t))
  {
    hide Adjusted, FullSlots;
    if Discard(c, t) > 0 {
      AdjustedInFull(Discard(c, t), FullSlots(c, c.slots - 1) + rest, d, position);
    } else {
      assert AfterSlot0(c, t, rest) == FullSlots(c, c.slots - 1) + rest;
    }
  }

  lemma SearchedInFull(script: seq<Reply>, index: int, dets: seq<int>, position: int)
    requires index >= -1
    ensures Searched(Radio(script, [index] + dets, true, position)) == (Radio(script, dets, true, position), index)
  {
    assert ([index] + dets)[1..] == dets;
  }

  /** What the detector reports in a turn, before what it reports later. */
  function Reported(c: Config, t: Turn, k: nat, later: seq<int>): seq<int> {
    if Tried(c, t, k) then [t.index] + later else later
  }

  /** The replies of a turn make it, and leave the rest of the script. */
  lemma TurnPlays(c: Config, k: nat, t: Turn, top: Turn, rest: seq<Reply>, dets: seq<int>)
    requires c.Valid() && TurnOk(c, t, k) && Full(c, t) && t.index >= -1 && !OutOfRetries(c, t, k)
    requires SameStart(top, t)
    ensures Played(c, k, top, Radio(Replies(c, t) + rest, Reported(c, t, k, dets), true, t.start)) ==
            (Radio(rest, dets, true, AfterTurn(c, t, k).start), Some(t))
  {
    hide Config.SlotsSamples, Rested, Adjusted, Rx, Searched, Corrected, Replies, AfterSlot0, FullSlots;
    RepliesSplit(c, t, rest);
    RxInFull(c.Samples() - t.adjust, AfterSlot0(c, t, rest), Reported(c, t, k, dets), t.start);
    var position := t.start + t.beaconRead;
    if Tried(c, t, k) {
      var retries := if t.index >= 0 then 0 else t.retry + 1;
      SearchedInFull(AfterSlot0(c, t, rest), t.index, dets, position);
      DiscardInFull(c, t, rest, dets, position, retries);
      RestedInFull(c, c.slots - 1, rest, dets, true, position + Discard(c, t));
    } else {
      NoDiscard(c, t, rest);
      RestedInFull(c, c.slots - 1, rest, dets, true, position);
    }
  }

  lemma NoDiscard(c: Config, t: Turn, rest: seq<Reply>)
    requires 0 < c.slots && !Found(t)
    ensures AfterSlot0(c, t, rest) == FullSlots(c, c.slots - 1) + rest
  {
  }

  lemma {:induction false} HistoryRuns(c: Config, h: seq<Turn>, k: nat, top: Turn)
    requires c.Valid() && Goes(c, h, k) && top.adjust <= c.BeaconEnd()
    requires h != [] ==> SameStart(top, h[0])
    requires forall t | t in h :: t.adjust <= c.Samples()
    ensures Runs(c, k, top, Radio(ScriptOf(c, h), DetectionsOf(c, h, k), true, top.start)).1 == h
    decreases |h|
  {
    hide Played, Follows, TurnOk, Full;
    var r := Radio(ScriptOf(c, h), DetectionsOf(c, h, k), true, top.start);
    if h == [] {
      EmptyScriptPlays(c, k, top, r);
    } else {
      var t, more := h[0], h[1..];
      assert TurnOk(c, t, k + 0) && Full(c, t);
      TurnPlays(c, k, t, top, ScriptOf(c, more), DetectionsOf(c, more, k + 1));
      GoesOn(c, h, k);
      HistoryRuns(c, more, k + 1, AfterTurn(c, t, k));
    }
  }

  lemma EmptyScriptPlays(c: Config, k: nat, top: Turn, r: Radio)
    requires c.Valid() && top.adjust <= c.BeaconEnd() && r.script == []
    ensures Played(c, k, top, r).1.None?
  {
  }

  lemma GoesOn(c: Config, h: seq<Turn>, k: nat)
    requires c.Valid() && Goes(c, h, k) && h != [] && h[0].adjust <= c.BeaconEnd()
    ensures Goes(c, h[1..], k + 1)
    ensures |h| > 1 ==> SameStart(AfterTurn(c, h[0], k), h[1])
  {
    hide TurnOk, Full, OutOfRetries;
    var more := h[1..];
    forall i: nat | i < |more|
      ensures TurnOk(c, more[i], k + 1 + i) && Full(c, more[i])
      ensures more[i].index >= -1 && !OutOfRetries(c, more[i], k + 1 + i)
    {
      assert more[i] == h[i + 1] && TurnOk(c, h[i + 1], k + (i + 1));
    }
    forall i: nat | i + 1 < |more| ensures Follows(c, more[i], more[i + 1], k + 1 + i) {
      assert Follows(c, h[i + 1], h[i + 1 + 1], k + (i + 1));
    }
    if |h| > 1 {
      assert Follows(c, h[0], h[0 + 1], k + 0);
    }
  }

  /** Every run of full turns that does not use up the retries is what the main loop does on some answers. */
  lemma FullRunsHappen(c: Config, h: seq<Turn>) returns (r: Radio)
    requires c.Valid() && IsRun(c, h) && h != []
    requires forall k: nat | k < |h| :: Full(c, h[k]) && h[k].index >= -1 && !OutOfRetries(c, h[k], k)
    ensures r.running && r.position == h[0].start && Runs(c, 0, FirstTop(r.position), r).1 == h
  {
    hide TurnOk, Full, OutOfRetries, Follows;
    forall t | t in h ensures t.adjust <= c.Samples() {
      var k: nat :| k < |h| && h[k] == t;
      TurnAdjust(c, h[k], k);
    }
    assert Goes(c, h, 0) by {
      forall i: nat | i < |h| ensures TurnOk(c, h[i], 0 + i) && !OutOfRetries(c, h[i], 0 + i) {
      }
      forall i: nat | i + 1 < |h| ensures Follows(c, h[i], h[i + 1], 0 + i) {
      }
    }
    r := Radio(ScriptOf(c, h), DetectionsOf(c, h, 0), true, h[0].start);
    HistoryRuns(c, h, 0, FirstTop(h[0].start));
  }

  lemma TurnAdjust(c: Config, t: Turn, k: nat)
    requires c.Valid() && TurnOk(c, t, k)
    ensures t.adjust <= c.Samples()
  {
  }

  // ----- two corrections in a row -----

  ghost predicate RepeatsNever(h: seq<Turn>) {
    forall k: nat | k + 1 < |h| :: !(Found(h[k]) && Found(h[k + 1]))
  }

  /** The main loop never finds the beacon in two frames in a row, whatever the radio and the detector answer, if and
      only if resynchronisation is off, its period exceeds the retries by more than one, or the run is too short. */
  lemma NeverRepeatsIff(c: Config)
    requires c.Valid()
    ensures (forall r: Radio :: RepeatsNever(Runs(c, 0, FirstTop(r.position), r).1)) <==> !CanRepeat(c)
  {
    if CanRepeat(c) {
      var r := RepeatHappens(c);
      assert !RepeatsNever(Runs(c, 0, FirstTop(r.position), r).1);
    } else {
      forall r: Radio ensures RepeatsNever(Runs(c, 0, FirstTop(r.position), r).1) {
        var h := Runs(c, 0, FirstTop(r.position), r).1;
        NoTurns(c, FirstTop(r.position));
        RunsFacts(c, [], FirstTop(r.position), r);
        assert [] + h == h;
        forall k: nat | k + 1 < |h| ensures !(Found(h[k]) && Found(h[k + 1])) {
          NoConsecutiveFinds(c, h, k);
        }
      }
    }
  }

  lemma RepeatHappens(c: Config) returns (r: Radio)
    requires c.Valid() && CanRepeat(c)
    ensures !RepeatsNever(Runs(c, 0, FirstTop(r.position), r).1)
  {
    var longer := c.(maxFrame := 0);
    var long, k := OverCorrects(longer);
    var h := long[..k + 2];
    RunPrefix(longer, c, long, k + 2);
    r := FullRunsHappen(c, h);
    assert h[k] == long[k] && h[k + 1] == long[k + 1];
    assert !RepeatsNever(h);
  }

  lemma RunPrefix(a: Config, b: Config, h: seq<Turn>, n: nat)
    requires a.Valid() && b == a.(maxFrame := b.maxFrame) && IsRun(a, h)
    requires n <= |h| && (b.maxFrame > 0 ==> n <= b.maxFrame)
    ensures IsRun(b, h[..n])
    ensures forall k: nat | k < |h| && Full(a, h[k]) && !OutOfRetries(a, h[k], k) ::
              Full(b, h[k]) && !OutOfRetries(b, h[k], k)
  {
  }

  /** The over-correction really happens: on the answers found, the third frame from the first find ends its slot 0 a
      sample early. */
  lemma OverCorrectionHappens(c: Config) returns (r: Radio, k: nat)
    requires c.Valid() && CanRepeat(c) && (c.maxFrame == 0 || FirstRepeat(c) + 3 <= c.maxFrame)
    ensures var h := Runs(c, 0, FirstTop(r.position), r).1;
      && k + 3 == |h| && Found(h[k]) && Found(h[k + 1])
      && FrameStart(c, h[k + 1]) == FrameStart(c, h[k]) + c.FrameSamples()
      && EndOfSlot0(c, h[k + 2]) == FrameStart(c, h[k + 1]) + c.FrameSamples() + c.Samples() - 1
  {
    var h;
    h, k := OverCorrects(c);
    r := FullRunsHappen(c, h);
  }

  // ----- the initial synchronisation -----

  predicate Throws(c: Config, r: Radio)
    requires c.Valid()
  {
    InitiallySynced(c, r, []).1
  }

  /** The initial synchronisation can throw if and only if a beacon that ends at the start of its window cannot be
      aligned to: the detection window leaves less of the frame than the prefix and the beacon take. */
  lemma InitialSyncCanThrowIff(c: Config)
    requires c.Valid()
    ensures (exists r: Radio :: Throws(c, r)) <==> c.FrameSamples() - c.window < c.BeaconEnd()
  {
    if c.FrameSamples() - c.window < c.BeaconEnd() {
      var r := Radio([InFull(c.window)], [0], true, 0);
      assert r.script[1..] == [] && r.detections[1..] == [];
      assert Rx(r, c.window) == (Radio([], [0], true, c.window), c.window);
      assert BeaconSynced(c, r) == (Radio([], [], true, c.window), 0, 0);
      assert Throws(c, r);
    } else {
      forall r: Radio ensures !Throws(c, r) {
        NothingDetected(r.detections);
        InitiallySyncedFacts(c, r, [], r.detections);
      }
    }
  }
}
