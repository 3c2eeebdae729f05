/** What the client's loops do, whatever the radio and the detector answer. */
module ClientFacts {
  import opened Common
  import opened ClientTurns

  /** A step that takes replies from the script, and stops the client only for a reason. */
  ghost predicate TakesReplies(r: Radio, s: Radio) {
    && Consumed(r.script, s.script) && (s.running ==> r.running)
    && (r.running && !s.running ==> Halting(r.script, s.script))
  }

  lemma TakesOn(r: Radio, s: Radio, t: Radio)
    requires TakesReplies(r, s) && TakesReplies(s, t)
    ensures TakesReplies(r, t)
  {
    hide Consumed, Halting;
    ConsumedOn(r.script, s.script, t.script);
  }

  lemma RxFacts(r: Radio, request: nat)
    ensures TakesReplies(r, Rx(r, request).0)
    ensures Rx(r, request).1 < 0 ==> Halting(r.script, Rx(r, request).0.script)
    ensures var (s, status) := Rx(r, request);
      s.position == r.position + (if 0 <= status <= request then status else 0) && s.detections == r.detections
  {
    if r.script != [] && Ends(r.script[0]) {
      var s := Rx(r, request).0;
      assert 0 < |r.script| - |s.script| && Ends(r.script[0]);
    }
  }

  /** Exactly what was asked is thrown away, unless the client is stopped, and never more. */
  lemma {:induction false} AdjustedFacts(r: Radio, left: nat)
    ensures var s := Adjusted(r, left);
      && TakesReplies(r, s) && s.detections == r.detections
      && (s.running ==> s.position == r.position + left)
      && r.position <= s.position <= r.position + left
    decreases |r.script|, r.running
  {
    hide Consumed, Halting;
    if !r.running || left == 0 {
      NothingConsumed(r.script);
    } else {
      var (s, status) := Rx(r, left);
      RxFacts(r, left);
      AdjustedFacts(s, left - Delivered(status, left));
      TakesOn(r, s, Adjusted(s, left - Delivered(status, left)));
    }
  }

  /** Every slot is asked for once, a slot's samples each, unless one fails. */
  lemma {:induction false} RestedFacts(c: Config, r: Radio, n: nat)
    ensures var (s, rest) := Rested(c, r, n);
      && TakesReplies(r, s) && s.detections == r.detections
      && s.position == r.position + rest && rest <= c.SlotsSamples(n)
      && (s.running ==> |s.script| == |r.script| - n && rest == TotalDelivered(r.script[..n], c.Samples()))
    decreases n
  {
    hide Consumed, Halting, TotalDelivered, Config.Samples;
    NothingAsked(c, r.script);
    if n == 0 {
      NothingConsumed(r.script);
    } else {
      var (s, status) := Rx(r, c.Samples());
      RxFacts(r, c.Samples());
      SlotMore(c, n);
      if status >= 0 {
        var (t, _) := Rested(c, s, n - 1);
        RestedFacts(c, s, n - 1);
        TakesOn(r, s, t);
        if t.running {
          DeliveredFirst(r.script, n, c.Samples());
        }
      }
    }
  }

  lemma NothingAsked(c: Config, replies: seq<Reply>)
    ensures TotalDelivered(replies[..0], c.Samples()) == 0 && c.SlotsSamples(0) == 0
  {
  }

  lemma SlotMore(c: Config, n: nat)
    requires 0 < n
    ensures c.SlotsSamples(n) == c.SlotsSamples(n - 1) + c.Samples()
  {
    assert n * c.Samples() == (n - 1) * c.Samples() + c.Samples();
  }

  lemma {:induction false} DeliveredFirst(replies: seq<Reply>, n: nat, request: nat)
    requires 0 < n <= |replies|
    ensures TotalDelivered(replies[..n], request) ==
            Delivered(replies[0].status, request) + TotalDelivered(replies[1..][..n - 1], request)
    decreases n
  {
    assert replies[..n][..n - 1] == replies[..n - 1];
    if n > 1 {
      assert replies[1..][..n - 1][..n - 2] == replies[1..][..n - 2];
      DeliveredFirst(replies, n - 1, request);
    }
  }

  /** A found index is one the detector reported for a fully read window that ends at the cursor. */
  lemma {:induction false} BeaconSyncedFacts(c: Config, r: Radio)
    ensures var (s, index, start) := BeaconSynced(c, r);
      && TakesReplies(r, s) && Within(s.detections, r.detections)
      && (index < 0 ==> index == -1 && !s.running)
      && (index >= 0 ==> index in r.detections && r.position <= start && s.position == start + c.window)
    decreases |r.script|, r.running
  {
    hide Consumed, Halting;
    if !r.running {
      NothingConsumed(r.script);
    } else {
      var (s, status) := Rx(r, c.window);
      RxFacts(r, c.window);
      if status != c.window {
        BeaconSyncedFacts(c, s);
        TakesOn(r, s, BeaconSynced(c, s).0);
      } else {
        var (t, index) := Searched(s);
        if index < 0 {
          BeaconSyncedFacts(c, t);
          TakesOn(r, t, BeaconSynced(c, t).0);
        }
      }
    }
  }

  /** Two synchronisations, each on a window read after moving the cursor a frame on from the start of the frame found;
      it throws exactly when that would mean going back. */
  lemma {:induction false} InitiallySyncedFacts(c: Config, r: Radio, found: seq<(int, int)>, all: seq<int>)
    requires c.Valid() && |found| <= TARGET_SYNC_COUNT && AreDetected(found, all) && Within(r.detections, all)
    requires found != [] ==> CanAlign(c, found[|found| - 1].1)
    requires found != [] && r.running ==> r.position == NextFrame(c, found[|found| - 1])
    requires |found| == 2 && r.running ==> NextFrame(c, found[0]) <= found[1].0
    ensures var (s, thrown, found') := InitiallySynced(c, r, found);
      && TakesReplies(r, s) && AreDetected(found', all)
      && (!thrown && s.running ==> |found'| == TARGET_SYNC_COUNT && s.position == NextFrame(c, found'[1]))
      && (!thrown && s.running ==> NextFrame(c, found'[0]) <= found'[1].0)
      && (thrown <==> found' != [] && !CanAlign(c, found'[|found'| - 1].1))
    decreases TARGET_SYNC_COUNT - |found|
  {
    hide Consumed, Halting, Config.FrameSamples, AreDetected, Within;
    if |found| >= TARGET_SYNC_COUNT || !r.running {
      NothingConsumed(r.script);
    } else {
      var (s, index, start) := BeaconSynced(c, r);
      BeaconSyncedFacts(c, r);
      if index >= 0 {
        DetectedOn(found, all, r.detections, s.detections, start, index);
        if CanAlign(c, index) {
          var left := c.FrameSamples() + index - c.BeaconEnd() - c.window;
          AdjustedFacts(s, left);
          TakesOn(r, s, Adjusted(s, left));
          InitiallySyncedFacts(c, Adjusted(s, left), found + [(start, index)], all);
          TakesOn(r, Adjusted(s, left), InitiallySynced(c, Adjusted(s, left), found + [(start, index)]).0);
        }
      }
    }
  }

  /** What a search leads to: late samples are thrown away, and only used up retries or the radio stop the client. */
  lemma CorrectedFacts(c: Config, r: Radio, index: int, retries: nat)
    ensures var s := Corrected(c, r, index, retries);
      && Consumed(r.script, s.script) && (s.running ==> r.running && retries <= RESYNC_RETRY_MAX)
      && s.detections == r.detections
      && (r.running && !s.running ==> Halting(r.script, s.script) || retries > RESYNC_RETRY_MAX)
      && (s.running ==> s.position == r.position + if index > c.BeaconEnd() then index - c.BeaconEnd() else 0)
      && (retries > RESYNC_RETRY_MAX ==> s.position == r.position)
  {
    hide Halting;
    if retries <= RESYNC_RETRY_MAX && index > c.BeaconEnd() {
      hide Consumed;
      AdjustedFacts(r, index - c.BeaconEnd());
    }
  }

  /** A turn keeps to the loop's rules, moves the cursor as they say, and the client stops only for a reason. */
  ghost predicate PlaysWell(c: Config, k: nat, r: Radio, s: Radio, turn: Option<Turn>)
    requires c.Valid()
  {
    && Consumed(r.script, s.script)
    && (s.running ==> turn.Some?)
    && (turn.Some? ==> TurnOk(c, turn.value, k) && turn.value.adjust <= c.BeaconEnd())
    && (s.running ==> AfterTurn(c, turn.value, k).start == s.position)
    && (s.running ==> AfterTurn(c, turn.value, k).retry <= RESYNC_RETRY_MAX)
    && (!s.running ==> Halting(r.script, s.script) || (turn.Some? && OutOfRetries(c, turn.value, k)))
  }

  lemma PlayedUntried(c: Config, k: nat, turn: Turn, r: Radio, s: Radio)
    requires c.Valid() && turn.adjust <= c.BeaconEnd() && turn.retry <= RESYNC_RETRY_MAX && TakesReplies(r, s) && r.running
    requires turn.adjust + turn.beaconRead <= c.Samples() && turn.start + turn.beaconRead == s.position
    requires turn.index == -1 && !Tried(c, turn, k)
    ensures var (t, rest) := Rested(c, s, c.slots - 1);
      PlaysWell(c, k, r, t, Some(turn.(rest := rest)))
  {
    hide Consumed, Halting, TotalDelivered, Config.SlotsSamples, Rested;
    RestedFacts(c, s, c.slots - 1);
    TakesOn(r, s, Rested(c, s, c.slots - 1).0);
  }

  lemma PlayedTried(c: Config, k: nat, turn: Turn, r: Radio, t: Radio, index: int, retries: nat)
    requires c.Valid() && turn.adjust <= c.BeaconEnd() && turn.retry <= RESYNC_RETRY_MAX && TakesReplies(r, t) && r.running
    requires turn.adjust + turn.beaconRead <= c.Samples() && turn.start + turn.beaconRead == t.position
    requires Tried(c, turn, k) && index >= -1 && retries == (if index >= 0 then 0 else turn.retry + 1) <= RESYNC_RETRY_MAX
    ensures var (v, rest) := Rested(c, Corrected(c, t, index, retries), c.slots - 1);
      PlaysWell(c, k, r, v, Some(turn.(index := index, rest := rest)))
  {
    hide Consumed, Halting, TotalDelivered, Config.SlotsSamples, Rested, Corrected;
    var u := Corrected(c, t, index, retries);
    CorrectedFacts(c, t, index, retries);
    RestedFacts(c, u, c.slots - 1);
    TakesOn(r, t, u);
    TakesOn(r, u, Rested(c, u, c.slots - 1).0);
  }

  lemma PlayedFacts(c: Config, k: nat, top: Turn, r: Radio)
    requires c.Valid() && top.adjust <= c.BeaconEnd() && top.retry <= RESYNC_RETRY_MAX && r.running
    ensures PlaysWell(c, k, r, Played(c, k, top, r).0, Played(c, k, top, r).1)
  {
    hide Consumed, Halting, TotalDelivered, Config.SlotsSamples, Corrected, Rested, AfterTurn;
    var (s, status) := Rx(r, c.Samples() - top.adjust);
    RxFacts(r, c.Samples() - top.adjust);
    if status >= 0 {
      var turn := top.(start := r.position, beaconRead := Delivered(status, c.Samples() - top.adjust),
                       index := -1, rest := 0);
      if !Tried(c, top, k) {
        hide PlaysWell;
        PlayedUntried(c, k, turn, r, s);
      } else {
        var (t, index) := Searched(s);
        var retries := if index >= 0 then 0 else top.retry + 1;
        if retries > RESYNC_RETRY_MAX {
          OutOfRetriesStops(c, t, index, retries);
        } else {
          hide PlaysWell;
          PlayedTried(c, k, turn, r, t, index, retries);
        }
      }
    }
  }

  lemma OutOfRetriesStops(c: Config, r: Radio, index: int, retries: nat)
    requires retries > RESYNC_RETRY_MAX
    ensures Corrected(c, r, index, retries) == r.(running := false)
  {
  }

  /** Every execution of the main loop is a run of turns that follow each other by its rules, and ends only at the last
      frame asked for, when the radio or the user ends it, or when the retries are used up. */
  lemma {:induction false} RunsFacts(c: Config, h: seq<Turn>, top: Turn, r: Radio)
    requires c.Valid() && top.adjust <= c.BeaconEnd() && (c.maxFrame > 0 ==> |h| <= c.maxFrame)
    requires r.running ==> top.start == r.position && top.retry <= RESYNC_RETRY_MAX
    requires Continues(c, h, top)
    ensures var (s, more) := Runs(c, |h|, top, r);
      && IsRun(c, h + more) && !s.running && Consumed(r.script, s.script)
      && (more != [] ==> more[0].start == r.position)
      && (r.running ==> (c.maxFrame > 0 && |h + more| == c.maxFrame) || Halting(r.script, s.script) ||
                        (more != [] && OutOfRetries(c, more[|more| - 1], |h + more| - 1)))
    decreases |r.script|
  {
    hide Consumed, Halting, IsRun, Continues, Follows, TurnOk, OutOfRetries, Played;
    NothingConsumed(r.script);
    RunSoFar(c, h, top);
    assert h + [] == h;
    if r.running && !(c.maxFrame > 0 && |h| >= c.maxFrame) {
      var (s, turn) := Played(c, |h|, top, r);
      PlayedFacts(c, |h|, top, r);
      if turn.Some? {
        var t := turn.value;
        SameTop(c, h, top, t);
        RunExtends(c, h, t, AfterTurn(c, t, |h|));
        RunsFacts(c, h + [t], AfterTurn(c, t, |h|), s);
        var (u, more) := Runs(c, |h| + 1, AfterTurn(c, t, |h|), s);
        ConsumedOn(r.script, s.script, u.script);
        assert h + [t] + more == h + ([t] + more);
      }
    }
  }

  // ----- errors of the radio -----

  /** The script has ended, or the program was told to stop. */
  ghost predicate Interrupted(before: seq<Reply>, after: seq<Reply>) {
    after == [] || exists k: nat :: k < |before| - |after| && Stops(before[k])
  }

  predicate Stops(r: Reply) { r.stop }

  /** A step that an error of the radio does not end. */
  ghost predicate OnlyInterrupted(r: Radio, s: Radio) {
    && Consumed(r.script, s.script) && (s.running ==> r.running)
    && (r.running && !s.running ==> Interrupted(r.script, s.script))
  }

  lemma OnlyInterruptedOn(r: Radio, s: Radio, t: Radio)
    requires OnlyInterrupted(r, s) && OnlyInterrupted(s, t)
    ensures OnlyInterrupted(r, t)
  {
    ConsumedOn(r.script, s.script, t.script);
    var a, b, c := r.script, s.script, t.script;
    if Interrupted(b, c) && c != [] {
      var k: nat :| k < |b| - |c| && Stops(b[k]);
      assert a[|a| - |b| + k] == b[k];
    } else if Interrupted(a, b) && b != [] {
      var k: nat :| k < |a| - |b| && Stops(a[k]);
      assert k < |a| - |c|;
    }
  }

  lemma RxInterrupts(r: Radio, request: nat)
    ensures OnlyInterrupted(r, Rx(r, request).0) && OnlyInterrupted(r, r)
  {
    if r.script != [] && Stops(r.script[0]) {
      assert 0 < |r.script| - |Rx(r, request).0.script|;
    }
  }

  /** Throwing samples away goes on after an error of the radio: only an interruption ends it early. */
  lemma {:induction false} AdjustedSurvivesErrors(r: Radio, left: nat)
    ensures OnlyInterrupted(r, Adjusted(r, left))
    decreases |r.script|, r.running
  {
    hide OnlyInterrupted;
    RxInterrupts(r, left);
    if r.running && left > 0 {
      var (s, status) := Rx(r, left);
      AdjustedSurvivesErrors(s, left - Delivered(status, left));
      OnlyInterruptedOn(r, s, Adjusted(s, left - Delivered(status, left)));
    }
  }

  /** And so does the search for a beacon, after errors and after windows that came short. */
  lemma {:induction false} BeaconSyncedSurvivesErrors(c: Config, r: Radio)
    ensures OnlyInterrupted(r, BeaconSynced(c, r).0)
    decreases |r.script|, r.running
  {
    hide OnlyInterrupted;
    RxInterrupts(r, c.window);
    if r.running {
      var (s, status) := Rx(r, c.window);
      var (t, index) := if status != c.window then (s, -1) else Searched(s);
      SearchTakesNothing(r, s);
      if index < 0 {
        BeaconSyncedSurvivesErrors(c, t);
        OnlyInterruptedOn(r, t, BeaconSynced(c, t).0);
      }
    }
  }

  lemma SearchTakesNothing(r: Radio, s: Radio)
    requires OnlyInterrupted(r, s)
    ensures OnlyInterrupted(r, Searched(s).0)
  {
  }

  predicate Failed(r: Reply) { r.status < 0 }

  /** A failed slot 0 ends the client without a turn. */
  lemma PlayedStopsAtError(c: Config, k: nat, top: Turn, r: Radio)
    requires c.Valid() && top.adjust <= c.BeaconEnd() && r.script != []
    ensures Played(c, k, top, r).1.None? <==> Failed(r.script[0])
    ensures Failed(r.script[0]) ==> Played(c, k, top, r).0 == Radio(r.script[1..], r.detections, false, r.position)
  {
    hide Rested, Corrected;
  }

  /** A failed slot ends the client, whichever it is; a failed slot is not asked for again. */
  lemma {:induction false} RestedStopsAtError(c: Config, r: Radio, n: nat)
    ensures var s := Rested(c, r, n).0;
      (exists k: nat :: k < |r.script| && k < n && Failed(r.script[k])) ==>
        !s.running && |s.script| < |r.script| && Failed(r.script[|r.script| - |s.script| - 1])
    decreases n
  {
    if n > 0 && r.script != [] && !Failed(r.script[0]) {
      var s := Rx(r, c.Samples()).0;
      RestedStopsAtError(c, s, n - 1);
      forall k: nat | k < |r.script| && k < n && Failed(r.script[k])
        ensures k - 1 < |s.script| && k - 1 < n - 1 && Failed(s.script[k - 1])
      {
      }
    }
  }
}
