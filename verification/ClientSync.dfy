/** The client's synchronisation loops, as they change its state step by step. */
module ClientSync {
  import opened Common
  import opened ClientFacts
  import opened ClientTurns

  class Client {
    const c: Config
    var script: seq<Reply>
    var detections: seq<int>
    var running: bool
    var position: int

    ghost function View(): Radio
      reads this
    {
      Radio(script, detections, running, position)
    }

    constructor (c: Config, script: seq<Reply>, detections: seq<int>)
      ensures this.c == c && View() == Radio(script, detections, true, 0)
    {
      this.c, this.script, this.detections, running, position := c, script, detections, true, 0;
    }

    method RadioRx(request: nat) returns (status: int)
      modifies this`script, this`running, this`position
      ensures (View(), status) == Rx(old(View()), request)
    {
      if script == [] {
        running := false;
        return -1;
      }
      status := script[0].status;
      running := running && !script[0].stop;
      position := position + Delivered(status, request);
      script := script[1..];
    }

    method SyncSearch() returns (index: int)
      modifies this`detections
      ensures (View(), index) == Searched(old(View()))
    {
      if detections == [] {
        return -1;
      }
      index := if detections[0] < 0 then -1 else detections[0];
      detections := detections[1..];
    }

    /** Throws away samples: exactly as many as asked, unless the program is stopped. */
    method AdjustRx(discard: nat)
      modifies this`script, this`running, this`position
      ensures View() == Adjusted(old(View()), discard)
      ensures running ==> old(running) && position == old(position) + discard
      ensures old(position) <= position <= old(position) + discard
      ensures Consumed(old(script), script) && (old(running) && !running ==> Halting(old(script), script))
    {
      hide Consumed, Halting;
      AdjustedFacts(View(), discard);
      var left: nat := discard;
      while running && left > 0
        invariant Adjusted(View(), left) == Adjusted(old(View()), discard)
        decreases |script|, running
      {
        var status := RadioRx(left);
        if 0 <= status <= left {
          left := left - status;
        }
      }
    }

    /** Reads windows until one holds a beacon. */
    method SyncBeacon() returns (index: int, start: int)
      modifies this`script, this`detections, this`running, this`position
      ensures (View(), index) == (BeaconSynced(c, old(View())).0, BeaconSynced(c, old(View())).1)
      ensures index >= 0 ==> start == BeaconSynced(c, old(View())).2
      ensures index < 0 ==> !running
      ensures running ==> old(running)
      ensures index >= 0 ==> index in old(detections) && old(position) <= start && position == start + c.window
      ensures Consumed(old(script), script) && (old(running) && !running ==> Halting(old(script), script))
    {
      hide Consumed, Halting;
      BeaconSyncedFacts(c, View());
      index, start := -1, position;
      while running && index < 0
        invariant -1 <= index
        invariant BeaconSynced(c, old(View())) == if index < 0 then BeaconSynced(c, View()) else (View(), index, start)
        decreases |script|, running, -index
      {
        start := position;
        var status := RadioRx(c.window);
        if status == c.window {
          index := SyncSearch();
        }
      }
    }

    /** The initial synchronisation; `found` lists the start of each window that held a beacon, and the index found
        in it.  When it succeeds it has synchronised twice, each time on a window read after moving the cursor to a
        frame after the start of the frame found; it throws when that would mean going back. */
    method InitialSync() returns (thrown: bool, found: seq<(int, int)>)
      requires c.Valid()
      modifies this`script, this`detections, this`running, this`position
      ensures (View(), thrown, found) == InitiallySynced(c, old(View()), [])
      ensures AreDetected(found, old(detections))
      ensures !thrown && running ==> |found| == TARGET_SYNC_COUNT && position == NextFrame(c, found[1])
      ensures !thrown && running ==> NextFrame(c, found[0]) <= found[1].0
      ensures thrown <==> found != [] && !CanAlign(c, found[|found| - 1].1)
      ensures Consumed(old(script), script) && (old(running) && !running ==> Halting(old(script), script))
    {
      hide Halting, Consumed, Config.FrameSamples, AreDetected, Within, BeaconSynced, Adjusted;
      NothingDetected(detections);
      InitiallySyncedFacts(c, View(), [], detections);
      var syncCount := 0;
      thrown, found := false, [];
      while syncCount < TARGET_SYNC_COUNT && running
        invariant |found| == syncCount <= TARGET_SYNC_COUNT
        invariant InitiallySynced(c, old(View()), []) == InitiallySynced(c, View(), found)
        decreases TARGET_SYNC_COUNT - syncCount
      {
        var syncIndex, start := SyncBeacon();
        if syncIndex < 0 {
          break;
        }
        found := found + [(start, syncIndex)];
        var adjust := syncIndex - c.BeaconEnd();
        var alignment := c.FrameSamples() - c.window;
        if alignment + adjust < 0 {
          return true, found;
        }
        AdjustRx(alignment + adjust);
        syncCount := syncCount + 1;
      }
    }

    /** The slots of a frame after the first: read or thrown away, a slot's worth each.  `rest` is what is delivered. */
    method RestOfFrame() returns (ghost rest: nat)
      requires 0 < c.slots
      modifies this`script, this`running, this`position
      ensures (View(), rest) == Rested(c, old(View()), c.slots - 1)
      ensures rest <= c.RestSamples() && position == old(position) + rest
      ensures running ==> old(running) && |script| == |old(script)| - (c.slots - 1)
      ensures running ==> rest == TotalDelivered(old(script)[..c.slots - 1], c.Samples())
      ensures Consumed(old(script), script) && (old(running) && !running ==> Halting(old(script), script))
    {
      hide Halting, Consumed, TotalDelivered, Config.Samples, Config.SlotsSamples;
      RestedFacts(c, View(), c.slots - 1);
      rest := 0;
      var slot := 1;
      while slot < c.slots
        invariant 1 <= slot <= c.slots
        invariant AddRest(Rested(c, View(), c.slots - slot), rest) == Rested(c, old(View()), c.slots - 1)
      {
        var status := RadioRx(c.Samples());
        rest := rest + Delivered(status, c.Samples());
        if status < 0 {
          running := false;
          break;
        }
        slot := slot + 1;
      }
    }

    /** Looks for the beacon in slot 0 and corrects the cursor by what it finds: samples are thrown away at once,
        or `adjust` fewer are to be read in the next frame.  Stops when the retries are used up. */
    method Resync(retry: nat) returns (index: int, retries: nat, adjust: nat)
      requires c.Valid() && retry <= RESYNC_RETRY_MAX
      modifies this`script, this`detections, this`running, this`position
      ensures index == Searched(old(View())).1 >= -1
      ensures View() == Corrected(c, Searched(old(View())).0, index, retries)
      ensures retries == if index >= 0 then 0 else retry + 1
      ensures adjust == if 0 <= index < c.BeaconEnd() then c.BeaconEnd() - index else 0
      ensures running ==> position == old(position) + if index > c.BeaconEnd() then index - c.BeaconEnd() else 0
      ensures running ==> old(running) && retries <= RESYNC_RETRY_MAX
      ensures retries > RESYNC_RETRY_MAX ==> position == old(position)
      ensures Consumed(old(script), script)
      ensures old(running) && !running ==> Halting(old(script), script) || retries > RESYNC_RETRY_MAX
    {
      hide Halting, Consumed, Adjusted;
      index := SyncSearch();
      CorrectedFacts(c, View(), index, if index >= 0 then 0 else retry + 1);
      adjust, retries := 0, retry;
      if index >= 0 {
        var offset := index - c.BeaconEnd();
        retries := 0;
        if offset < 0 {
          adjust := -offset;
        } else if offset > 0 {
          AdjustRx(offset);
        }
      } else {
        retries := retries + 1;
        if retries > RESYNC_RETRY_MAX {
          running := false;
        }
      }
    }

    /** The body of the main loop, for frame `k`; `done` if slot 0 could be read.  `top` holds the loop's variables
        before it, and `base` is the time the frame's transmissions are counted from. */
    method Frame(k: nat, adjust: nat, resync: bool, last: nat, retry: nat, ghost top: Turn)
      returns (done: bool, ghost turn: Turn, adjust': nat, resync': bool, last': nat, retry': nat, base: int)
      requires c.Valid() && adjust <= c.BeaconEnd() && retry <= RESYNC_RETRY_MAX && running
      requires top == Turn(position, adjust, resync, last, retry, -1, 0, 0)
      modifies this`script, this`detections, this`running, this`position
      ensures (View(), if done then Some(turn) else None) == Played(c, k, top, old(View()))
      ensures running ==> done && retry' <= RESYNC_RETRY_MAX
      ensures done ==> TurnOk(c, turn, k) && base == Base(c, turn)
      ensures running ==> AfterTurn(c, turn, k) == Turn(position, adjust', resync', last', retry', -1, 0, 0)
    {
      hide Config.SlotsSamples, Halting, Consumed, TotalDelivered, Rested, Adjusted, Corrected;
      PlayedFacts(c, k, top, View());
      turn := top;
      adjust', resync', last', retry', base := 0, resync, last, retry, position;
      var request := c.Samples() - adjust;
      var status := RadioRx(request);
      if status < 0 {
        running := false;
        return false, turn, adjust', resync', last', retry', base;
      }
      turn := turn.(beaconRead := Delivered(status, request));
      if k - last >= c.period {
        resync', last' := c.resyncEnable, k;
      }
      if resync' {
        var index;
        index, retry', adjust' := Resync(retry);
        turn := turn.(index := index);
        if index >= 0 {
          base, resync' := base + (index - c.BeaconEnd()), false;
        }
      }
      if retry' <= RESYNC_RETRY_MAX {
        ghost var rest := RestOfFrame();
        turn := turn.(rest := rest);
      }
      done := true;
    }

    /** The main loop.  `bases` are the times the transmissions of each frame are counted from.  It ends only at the
        last frame asked for, when the radio or the user ends it, or when the retries are used up. */
    method MainLoop() returns (ghost h: seq<Turn>, bases: seq<int>)
      requires c.Valid() && running
      modifies this`script, this`detections, this`running, this`position
      ensures (View(), h) == Runs(c, 0, FirstTop(old(position)), old(View()))
      ensures IsRun(c, h) && !running
      ensures h != [] ==> h[0].start == old(position)
      ensures |bases| == |h| && forall k: nat | k < |h| :: bases[k] == Base(c, h[k])
      ensures (c.maxFrame > 0 && |h| == c.maxFrame) || Halting(old(script), script) ||
              (h != [] && OutOfRetries(c, h[|h| - 1], |h| - 1))
    {
      hide IsRun, Continues, Follows, TurnOk, OutOfRetries, Base, Halting, Consumed, Config.SlotsSamples, Played, AfterTurn,
        Runs, AddTurns, PlaysWell;
      NoTurns(c, FirstTop(position));
      RunsFacts(c, [], FirstTop(position), View());
      assert forall more: seq<Turn> :: [] + more == more;
      var adjust: nat, retry: nat, frameId: nat, last: nat, resync := 0, 0, 0, 0, true;
      h, bases := [], [];
      ghost var top := FirstTop(position);
      NoTurnPlayed(Runs(c, 0, top, View()));
      while running
        invariant |h| == frameId == |bases| && top.adjust <= c.BeaconEnd()
        invariant running ==> top == Turn(position, adjust, resync, last, retry, -1, 0, 0) && retry <= RESYNC_RETRY_MAX
        invariant AddTurns(h, Runs(c, frameId, top, View())) == Runs(c, 0, FirstTop(old(position)), old(View()))
        invariant forall k: nat | k < |h| :: bases[k] == Base(c, h[k])
        decreases |script|, running
      {
        RunsUnfolds(c, frameId, top, View());
        if c.maxFrame > 0 && frameId >= c.maxFrame {
          running := false;
          break;
        }
        ghost var turn;
        var done, base;
        done, turn, adjust, resync, last, retry, base := Frame(frameId, adjust, resync, last, retry, top);
        if !done {
          break;
        }
        TurnPlayed(h, turn, Runs(c, frameId + 1, AfterTurn(c, turn, frameId), View()));
        top := AfterTurn(c, turn, frameId);
        h, bases := h + [turn], bases + [base];
        frameId := frameId + 1;
      }
      LastTurnPlayed(c, frameId, top, h, View());
    }
  }

  ghost function AddRest(rested: (Radio, nat), rest: nat): (Radio, nat) { (rested.0, rest + rested.1) }

  ghost function AddTurns(h: seq<Turn>, runs: (Radio, seq<Turn>)): (Radio, seq<Turn>) { (runs.0, h + runs.1) }

  lemma TurnPlayed(h: seq<Turn>, t: Turn, runs: (Radio, seq<Turn>))
    ensures AddTurns(h + [t], runs) == AddTurns(h, (runs.0, [t] + runs.1))
  {
    assert h + [t] + runs.1 == h + ([t] + runs.1);
  }

  lemma NoTurnPlayed(runs: (Radio, seq<Turn>))
    ensures AddTurns([], runs) == runs
  {
    assert [] + runs.1 == runs.1;
  }

  lemma LastTurnPlayed(c: Config, k: nat, top: Turn, h: seq<Turn>, r: Radio)
    requires c.Valid() && top.adjust <= c.BeaconEnd() && !r.running
    ensures Runs(c, k, top, r) == (r, []) && AddTurns(h, (r, [])) == (r, h)
  {
    assert h + [] == h;
  }

  lemma RunsUnfolds(c: Config, k: nat, top: Turn, r: Radio)
    requires c.Valid() && top.adjust <= c.BeaconEnd() && r.running
    ensures if c.maxFrame > 0 && k >= c.maxFrame then Runs(c, k, top, r) == (r.(running := false), [])
            else
              var (s, turn) := Played(c, k, top, r);
              Runs(c, k, top, r) ==
              if turn.None? then (s, [])
              else
                var (t, h) := Runs(c, k + 1, AfterTurn(c, turn.value, k), s);
                (t, [turn.value] + h)
  {
    hide Played, AfterTurn;
  }
}
