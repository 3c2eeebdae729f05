/** How a client keeps its read cursor on the base station's frames.  Positions count samples of the radio stream.
    What the radio and the beacon detector answer is an arbitrary, finite script; given it, what the client does is
    determined, and the functions below say what it is. */
module ClientTurns {
  import opened Common

  const RESYNC_RETRY_MAX: nat := 100
  const TARGET_SYNC_COUNT: nat := 2

  datatype Config = Config(slots: nat, slotSamples: nat, prefix: nat, postfix: nat, beacon: nat, window: nat,
                           period: nat, resyncEnable: bool, maxFrame: nat)
  {
    function Samples(): nat { slotSamples + prefix + postfix }

    function FrameSamples(): nat { slots * Samples() }

    /** The slots of a frame after the first. */
    function RestSamples(): nat requires 0 < slots { SlotsSamples(slots - 1) }

    function SlotsSamples(n: nat): nat { n * Samples() }

    /** From the start of a frame to the end of its beacon. */
    function BeaconEnd(): nat { beacon + prefix }

    /** The checks of the configuration: the beacon fits its slot, the detection window fits a frame. */
    predicate Valid() { 0 < slots && 0 < beacon <= slotSamples && window <= FrameSamples() }
  }

  /** An answer of the radio; `stop` tells that the program is told to stop meanwhile. */
  datatype Reply = Reply(status: int, stop: bool)

  /** Samples delivered for a request: a negative status is an error, and a radio cannot deliver more than asked. */
  function Delivered(status: int, request: nat): nat {
    if 0 <= status <= request then status else 0
  }

  /** One turn of the main loop: the loop's variables at its top, then what happened in it. */
  datatype Turn = Turn(start: int, adjust: nat, resync: bool, last: nat, retry: nat,
                       index: int, beaconRead: nat, rest: nat)

  /** Resynchronisation falls due in frame `k`. */
  predicate Due(c: Config, t: Turn, k: nat) { k - t.last >= c.period }

  predicate Tried(c: Config, t: Turn, k: nat) { if Due(c, t, k) then c.resyncEnable else t.resync }

  predicate Found(t: Turn) { t.index >= 0 }

  /** How far the beacon says the frame starts after the cursor. */
  function Offset(c: Config, t: Turn): int { t.index - c.BeaconEnd() }

  function Discard(c: Config, t: Turn): nat { if Found(t) && Offset(c, t) > 0 then Offset(c, t) else 0 }

  predicate TurnOk(c: Config, t: Turn, k: nat)
    requires 0 < c.slots
  {
    && (Found(t) ==> Tried(c, t, k))
    && t.adjust <= c.BeaconEnd()
    && t.adjust + t.beaconRead <= c.Samples()
    && t.rest <= c.RestSamples()
    && t.retry <= RESYNC_RETRY_MAX
  }

  /** Frame `k` ran as `t`, and `n` is the next turn. */
  predicate Follows(c: Config, t: Turn, n: Turn, k: nat) {
    && n.start == t.start + t.beaconRead + Discard(c, t) + t.rest
    && n.adjust == (if Found(t) && Offset(c, t) < 0 then -Offset(c, t) else 0)
    && n.last == (if Due(c, t, k) then k else t.last)
    && n.resync == (Tried(c, t, k) && !Found(t))
    && n.retry == (if Found(t) then 0 else if Tried(c, t, k) then t.retry + 1 else t.retry)
  }

  predicate IsRun(c: Config, h: seq<Turn>)
    requires 0 < c.slots
  {
    && (h != [] ==> h[0].adjust == 0 && h[0].resync && h[0].last == 0 && h[0].retry == 0)
    && (forall k: nat | k < |h| :: TurnOk(c, h[k], k))
    && (forall k: nat | k + 1 < |h| :: Follows(c, h[k], h[k + 1], k))
    && (c.maxFrame > 0 ==> |h| <= c.maxFrame)
  }

  /** Turn `next` can be the one after `h`. */
  predicate Continues(c: Config, h: seq<Turn>, next: Turn)
    requires 0 < c.slots
  {
    && IsRun(c, h)
    && (h == [] ==> next.adjust == 0 && next.resync && next.last == 0 && next.retry == 0)
    && (h != [] ==> Follows(c, h[|h| - 1], next, |h| - 1))
  }

  lemma RunExtends(c: Config, h: seq<Turn>, t: Turn, next: Turn)
    requires 0 < c.slots && Continues(c, h, t) && TurnOk(c, t, |h|) && Follows(c, t, next, |h|)
    requires c.maxFrame > 0 ==> |h| < c.maxFrame
    ensures Continues(c, h + [t], next)
  {
    hide TurnOk, Follows;
    var h' := h + [t];
    forall k: nat | k + 1 < |h'| ensures Follows(c, h'[k], h'[k + 1], k) {
      if k + 1 == |h| {
        assert h'[k] == h[|h| - 1];
      }
    }
  }

  /** Where the frame after the one found starts, for a window read from found.0 with the beacon ending at found.1. */
  function NextFrame(c: Config, found: (int, int)): int { found.0 + found.1 - c.BeaconEnd() + c.FrameSamples() }

  /** From the end of the window the cursor has to move on to get there. */
  predicate CanAlign(c: Config, index: int) { c.window <= c.FrameSamples() + index - c.BeaconEnd() }

  // ----- the script -----

  /** `after` is what is left of the script `before`. */
  predicate Consumed(before: seq<Reply>, after: seq<Reply>) {
    |after| <= |before| && after == before[|before| - |after|..]
  }

  /** The replies consumed give reason to stop: they end the script, or one is an error or tells to stop. */
  ghost predicate Halting(before: seq<Reply>, after: seq<Reply>) {
    after == [] || exists k: nat :: k < |before| - |after| && Ends(before[k])
  }

  predicate Ends(r: Reply) { r.stop || r.status < 0 }

  predicate Within(a: seq<int>, b: seq<int>) { forall d | d in a :: d in b }

  /** Each index found is one the detector reported. */
  predicate AreDetected(found: seq<(int, int)>, detections: seq<int>) {
    forall k: nat | k < |found| :: found[k].1 >= 0 && found[k].1 in detections
  }

  lemma NothingDetected(detections: seq<int>)
    ensures AreDetected([], detections) && Within(detections, detections)
  {
  }

  lemma DetectedOn(found: seq<(int, int)>, all: seq<int>, left: seq<int>, rest: seq<int>, start: int, index: int)
    requires AreDetected(found, all) && Within(left, all) && Within(rest, left) && index in left && index >= 0
    ensures AreDetected(found + [(start, index)], all) && Within(rest, all)
  {
  }

  lemma NothingConsumed(replies: seq<Reply>)
    ensures Consumed(replies, replies)
  {
  }

  lemma ConsumedOn(a: seq<Reply>, b: seq<Reply>, c: seq<Reply>)
    requires Consumed(a, b) && Consumed(b, c)
    ensures Consumed(a, c)
    ensures Halting(a, b) || Halting(b, c) ==> Halting(a, c)
  {
    if Halting(b, c) && c != [] {
      var k: nat :| k < |b| - |c| && Ends(b[k]);
      assert a[|a| - |b| + k] == b[k];
    } else if Halting(a, b) && b != [] {
      var k: nat :| k < |a| - |b| && Ends(a[k]);
      assert k < |a| - |c|;
    }
  }

  /** Samples delivered for as many requests of the same size. */
  function TotalDelivered(replies: seq<Reply>, request: nat): nat
    decreases |replies|
  {
    if replies == [] then 0
    else TotalDelivered(replies[..|replies| - 1], request) + Delivered(replies[|replies| - 1].status, request)
  }

  function Head(detections: seq<int>): int {
    if detections == [] || detections[0] < 0 then -1 else detections[0]
  }

  /** The last retry allowed has failed. */
  predicate OutOfRetries(c: Config, t: Turn, k: nat) { Tried(c, t, k) && !Found(t) && t.retry == RESYNC_RETRY_MAX }

  /** The loop's variables are the same at the top of both turns. */
  predicate SameStart(a: Turn, b: Turn) {
    a.start == b.start && a.adjust == b.adjust && a.resync == b.resync && a.last == b.last && a.retry == b.retry
  }

  /** The time a frame's transmissions are counted from: where the beacon says the frame starts, if it was found. */
  function Base(c: Config, t: Turn): int {
    t.start + if Found(t) then Offset(c, t) else 0
  }

  lemma RunSoFar(c: Config, h: seq<Turn>, next: Turn)
    requires 0 < c.slots && Continues(c, h, next)
    ensures IsRun(c, h)
  {
  }

  /** The turn after `t`, were the program not stopped. */
  function AfterTurn(c: Config, t: Turn, k: nat): (n: Turn)
    requires t.adjust <= c.BeaconEnd()
    ensures Follows(c, t, n, k) && n.adjust <= c.BeaconEnd()
  {
    Turn(t.start + t.beaconRead + Discard(c, t) + t.rest,
         if Found(t) && Offset(c, t) < 0 then -Offset(c, t) else 0,
         Tried(c, t, k) && !Found(t), if Due(c, t, k) then k else t.last,
         if Found(t) then 0 else if Tried(c, t, k) then t.retry + 1 else t.retry, -1, 0, 0)
  }

  lemma SameTop(c: Config, h: seq<Turn>, a: Turn, b: Turn)
    requires 0 < c.slots && Continues(c, h, a)
    requires SameStart(a, b)
    ensures Continues(c, h, b)
  {
  }

  lemma NoTurns(c: Config, first: Turn)
    requires 0 < c.slots && first.adjust == 0 && first.resync && first.last == 0 && first.retry == 0
    ensures Continues(c, [], first)
  {
  }

  // ----- what the client does -----

  datatype Radio = Radio(script: seq<Reply>, detections: seq<int>, running: bool, position: int)

  /** One request to the radio. */
  function Rx(r: Radio, request: nat): (Radio, int) {
    if r.script == [] then (r.(running := false), -1)
    else
      var reply := r.script[0];
      (r.(script := r.script[1..], running := r.running && !reply.stop,
          position := r.position + Delivered(reply.status, request)),
       reply.status)
  }

  /** One search by the detector. */
  function Searched(r: Radio): (Radio, int) {
    (r.(detections := if r.detections == [] then [] else r.detections[1..]), Head(r.detections))
  }

  /** After asking for `left` samples to throw away until all have come. */
  function Adjusted(r: Radio, left: nat): (s: Radio)
    ensures |s.script| <= |r.script|
    decreases |r.script|, r.running
  {
    if !r.running || left == 0 then r
    else
      var (s, status) := Rx(r, left);
      Adjusted(s, left - Delivered(status, left))
  }

  /** After `n` slots, or fewer if one fails, and what they delivered. */
  function Rested(c: Config, r: Radio, n: nat): (result: (Radio, nat))
    ensures |result.0.script| <= |r.script|
    decreases n
  {
    if n == 0 then (r, 0)
    else
      var (s, status) := Rx(r, c.Samples());
      if status < 0 then (s.(running := false), 0)
      else
        var (t, rest) := Rested(c, s, n - 1);
        (t, Delivered(status, c.Samples()) + rest)
  }

  /** Windows until one holds a beacon: what is found, and where its window began. */
  function BeaconSynced(c: Config, r: Radio): (result: (Radio, int, int))
    ensures |result.0.script| <= |r.script|
    decreases |r.script|, r.running
  {
    if !r.running then (r, -1, r.position)
    else
      var (s, status) := Rx(r, c.window);
      if status != c.window then BeaconSynced(c, s)
      else
        var (t, index) := Searched(s);
        if index >= 0 then (t, index, r.position) else BeaconSynced(c, t)
  }

  /** The initial synchronisation from the beacons `found` so far: whether it throws, and all beacons found. */
  function InitiallySynced(c: Config, r: Radio, found: seq<(int, int)>): (Radio, bool, seq<(int, int)>)
    requires c.Valid()
    decreases TARGET_SYNC_COUNT - |found|
  {
    if |found| >= TARGET_SYNC_COUNT || !r.running then (r, false, found)
    else
      var (s, index, start) := BeaconSynced(c, r);
      if index < 0 then (s, false, found)
      else if !CanAlign(c, index) then (s, true, found + [(start, index)])
      else InitiallySynced(c, Adjusted(s, c.FrameSamples() + index - c.BeaconEnd() - c.window), found + [(start, index)])
  }

  /** One frame of the main loop with the loop's variables of `top`: the turn it makes, unless slot 0 fails. */
  function Played(c: Config, k: nat, top: Turn, r: Radio): (result: (Radio, Option<Turn>))
    requires c.Valid() && top.adjust <= c.BeaconEnd()
    ensures result.1.Some? ==> |result.0.script| < |r.script| && SameStart(result.1.value, top.(start := r.position))
  {
    var (s, status) := Rx(r, c.Samples() - top.adjust);
    if status < 0 then (s.(running := false), None)
    else
      var turn := top.(start := r.position, beaconRead := Delivered(status, c.Samples() - top.adjust),
                       index := -1, rest := 0);
      if !Tried(c, top, k) then
        var (t, rest) := Rested(c, s, c.slots - 1);
        (t, Some(turn.(rest := rest)))
      else
        var (t, index) := Searched(s);
        var retries := if index >= 0 then 0 else top.retry + 1;
        var u := Corrected(c, t, index, retries);
        if retries > RESYNC_RETRY_MAX then (u, Some(turn))
        else
          var (v, rest) := Rested(c, u, c.slots - 1);
          (v, Some(turn.(index := index, rest := rest)))
  }

  /** After a search: late samples are thrown away, and used up retries stop the client. */
  function Corrected(c: Config, r: Radio, index: int, retries: nat): (s: Radio)
    ensures |s.script| <= |r.script|
  {
    if retries > RESYNC_RETRY_MAX then r.(running := false)
    else if index > c.BeaconEnd() then Adjusted(r, index - c.BeaconEnd())
    else r
  }

  /** The main loop from frame `k` on: the turns it makes. */
  function Runs(c: Config, k: nat, top: Turn, r: Radio): (Radio, seq<Turn>)
    requires c.Valid() && top.adjust <= c.BeaconEnd()
    decreases |r.script|
  {
    if !r.running then (r, [])
    else if c.maxFrame > 0 && k >= c.maxFrame then (r.(running := false), [])
    else
      match Played(c, k, top, r)
      case (s, None) => (s, [])
      case (s, Some(turn)) =>
        var (t, h) := Runs(c, k + 1, AfterTurn(c, turn, k), s);
        (t, [turn] + h)
  }

  /** The loop's variables before the first frame. */
  function FirstTop(position: int): Turn { Turn(position, 0, true, 0, 0, -1, 0, 0) }
}
