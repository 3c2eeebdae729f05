/** The datasets of a recorder grow while frames are written to them.  Only their first dimension, the number of
    frames they hold, and whether they are open is modelled. */
module DatasetGrowth {

  const MAX_FRAME_INC: nat := 2000
  const DS_EXTEND_STEP: nat := 400

  /** `max` is the largest frame to record, 0 for no limit. */
  datatype Store = Store(extents: seq<nat>, target: nat, max: nat, open: bool)

  datatype Record = Record(dataset: nat, frame: nat)

  /** The extent after a request for more than `size` frames. */
  function Grown(extent: nat, size: nat, max: nat): nat {
    if extent > size then extent
    else if max != 0 && max + 1 < extent + DS_EXTEND_STEP then max + 1
    else extent + DS_EXTEND_STEP
  }

  function Closed(s: Store): Store {
    s.(extents := seq(|s.extents|, i requires 0 <= i < |s.extents| => Grown(s.extents[i], s.target, s.max)), open := false)
  }

  /** Past the target the file is closed and opened again before the write, which can grow the dataset twice. */
  function Ready(s: Store, frame: nat): Store {
    if frame >= s.target then Closed(s).(open := true, target := s.target + MAX_FRAME_INC) else s
  }

  function Recorded(s: Store, r: Record): Store
    requires r.dataset < |s.extents|
  {
    if s.max != 0 && r.frame > s.max then Closed(s)
    else
      var ready := Ready(s, r.frame);
      ready.(extents := ready.extents[r.dataset := Grown(ready.extents[r.dataset], r.frame, s.max)])
  }

  predicate Allowed(s: Store, r: Record) { s.max == 0 || r.frame <= s.max }

  /** The write reaches an open dataset, inside its extent. */
  predicate Hits(s: Store, r: Record)
    requires r.dataset < |s.extents|
  {
    Recorded(s, r).open && r.frame < Recorded(s, r).extents[r.dataset]
  }

  /** The recorder goes on with a store, or a failed write has ended the program: the library's exception is passed on
      and nothing catches it. */
  datatype Recorder = Recording(store: Store) | Stopped

  /** One record.  Past the limit the file is closed for good, and there is no dataset left for another record. */
  function Step(s: Store, r: Record): Recorder
    requires r.dataset < |s.extents|
  {
    if s.open && (Hits(s, r) || !Allowed(s, r)) then Recording(Recorded(s, r)) else Stopped
  }

  datatype Outcome = Written | LimitPassed | Thrown

  class Hdf5Lib {
    var extents: seq<nat>
    var target: nat
    var max: nat
    var open: bool

    ghost function State(): Store
      reads this
    {
      Store(extents, target, max, open)
    }

    /** Creates `datasets` datasets, sets the target and the limit and opens the file. */
    constructor (datasets: nat, max: nat)
      ensures State() == Store(seq(datasets, _ => MAX_FRAME_INC), MAX_FRAME_INC, max, true)
    {
      extents := seq(datasets, _ => MAX_FRAME_INC);
      this.max, target, open := max, MAX_FRAME_INC, true;
    }

    method ExtendDataset(ds: nat, size: nat) returns (extended: bool)
      requires ds < |extents|
      modifies this`extents
      ensures extents == old(extents)[ds := Grown(old(extents[ds]), size, max)]
      ensures extended <==> old(extents[ds]) <= size
    {
      if extents[ds] <= size {
        var newSize := extents[ds] + DS_EXTEND_STEP;
        if max != 0 {
          newSize := if newSize < max + 1 then newSize else max + 1;
        }
        extents := extents[ds := newSize];
        return true;
      }
      return false;
    }

    /** Extends every dataset to the target and closes it; the file has to be open. */
    method CloseDataset()
      requires open
      modifies this`extents, this`open
      ensures State() == Closed(old(State()))
    {
      var i := 0;
      while i < |extents|
        invariant i <= |extents| == |old(extents)|
        invariant forall k | 0 <= k < i :: extents[k] == Grown(old(extents[k]), target, max)
        invariant forall k | i <= k < |extents| :: extents[k] == old(extents[k])
      {
        var _ := ExtendDataset(i, target);
        i := i + 1;
      }
      open := false;
      assert extents == Closed(old(State())).extents;
    }

    method OpenDataset()
      modifies this`open
      ensures open
    {
      open := true;
    }

    /** Records a packet of `frame`: its write reaches an open dataset inside its extent, or the limit is passed, or
        the program ends. */
    method RecordPacket(ds: nat, frame: nat) returns (outcome: Outcome)
      requires ds < |extents|
      modifies this
      ensures old(open) ==> State() == Recorded(old(State()), Record(ds, frame))
      ensures outcome.Written? <==> old(open) && Hits(old(State()), Record(ds, frame))
      ensures outcome.LimitPassed? <==> old(open) && !Allowed(old(State()), Record(ds, frame))
      ensures if outcome.Thrown? then Step(old(State()), Record(ds, frame)) == Stopped
              else Step(old(State()), Record(ds, frame)) == Recording(State())
    {
      if !open {
        return Thrown;
      }
      if max != 0 && frame > max {
        CloseDataset();
        return LimitPassed;
      }
      var maxFrameNumber := target;
      if frame >= maxFrameNumber {
        CloseDataset();
        OpenDataset();
        target := maxFrameNumber + MAX_FRAME_INC;
      }
      var _ := ExtendDataset(ds, frame);
      outcome := if frame < extents[ds] then Written else Thrown;
    }
  }

  // ----- one write -----

  /** A write inside the limit succeeds exactly when the frame is less than one extension step past the extent its
      dataset has once the file has been reopened, if it is. */
  lemma HitsIff(s: Store, r: Record)
    requires s.open && r.dataset < |s.extents|
    ensures Hits(s, r) <==>
      (s.max == 0 || r.frame <= s.max) && r.frame < Ready(s, r.frame).extents[r.dataset] + DS_EXTEND_STEP
  {
  }

  /** A first frame 2800 ends the program, although the dataset is extended twice for it. */
  lemma FarFirstFrameMisses()
    ensures !Hits(Start(1, 0), Record(0, 2800)) && Step(Start(1, 0), Record(0, 2800)) == Stopped
    ensures Hits(Start(1, 0), Record(0, 2799)) && Step(Start(1, 0), Record(0, 2799)).Recording?
  {
  }

  // ----- runs -----

  predicate Fits(s: Store, run: seq<Record>) { forall k: nat | k < |run| :: run[k].dataset < |s.extents| }

  /** The store after a run of records, if the program gets that far. */
  function After(s: Store, run: seq<Record>): (s': Store)
    requires Fits(s, run)
    ensures |s'.extents| == |s.extents| && s'.max == s.max
    decreases |run|
  {
    if run == [] then s else Recorded(After(s, run[..|run| - 1]), run[|run| - 1])
  }

  /** What a run of records really leads to. */
  function Run(s: Store, run: seq<Record>): (r: Recorder)
    requires Fits(s, run)
    ensures r in {Recording(After(s, run)), Stopped}
    decreases |run|
  {
    if run == [] then Recording(s)
    else if Run(s, run[..|run| - 1]).Stopped? then Stopped
    else Step(After(s, run[..|run| - 1]), run[|run| - 1])
  }

  ghost predicate AllHit(s: Store, run: seq<Record>)
    requires Fits(s, run)
  {
    forall k: nat | k < |run| :: Hits(After(s, run[..k]), run[k])
  }

  /** The program survives a run of records exactly when every write of it hits, but that the last record may be the
      first one past the limit; it can go on recording exactly when all hit. */
  lemma {:induction false} RunGoesOnIff(s: Store, run: seq<Record>)
    requires s.open && Fits(s, run)
    ensures Run(s, run).Recording? && Run(s, run).store.open <==> AllHit(s, run)
    ensures Run(s, run).Recording? <==>
      AllHit(s, run) || (run != [] && AllHit(s, run[..|run| - 1]) && !Allowed(s, run[|run| - 1]))
    decreases |run|
  {
    hide Hits, AllHit, Recorded, Allowed, After;
    if run == [] {
      NoneToHit(s);
    } else {
      var init, r := run[..|run| - 1], run[|run| - 1];
      RunGoesOnIff(s, init);
      AllHitStep(s, run);
      HitIsAllowed(After(s, init), r);
    }
  }

  lemma NoneToHit(s: Store)
    ensures AllHit(s, []) && After(s, []) == s
  {
  }

  lemma AllHitStep(s: Store, run: seq<Record>)
    requires Fits(s, run) && run != []
    ensures AllHit(s, run) <==> AllHit(s, run[..|run| - 1]) && Hits(After(s, run[..|run| - 1]), run[|run| - 1])
    ensures After(s, run) == Recorded(After(s, run[..|run| - 1]), run[|run| - 1])
    ensures Allowed(After(s, run[..|run| - 1]), run[|run| - 1]) <==> Allowed(s, run[|run| - 1])
  {
    hide Hits, Recorded;
    var init := run[..|run| - 1];
    assert forall k: nat | k < |init| :: init[..k] == run[..k];
  }

  lemma HitIsAllowed(s: Store, r: Record)
    requires r.dataset < |s.extents|
    ensures Hits(s, r) ==> Allowed(s, r)
    ensures s.open ==> (Recorded(s, r).open <==> Allowed(s, r))
  {
  }

  /** The record is inside the limit and less than an extension step past the current extent of its dataset. */
  predicate InReach(s: Store, r: Record)
    requires r.dataset < |s.extents|
  {
    Allowed(s, r) && r.frame < s.extents[r.dataset] + DS_EXTEND_STEP
  }

  ghost predicate WithinReach(s: Store, run: seq<Record>)
    requires Fits(s, run)
  {
    forall k: nat | k < |run| :: InReach(After(s, run[..k]), run[k])
  }

  /** Every recorded frame is inside its dataset, and inside the limit. */
  ghost predicate Holds(s: Store, run: seq<Record>)
    requires Fits(s, run)
  {
    forall k: nat | k < |run| :: run[k].frame < s.extents[run[k].dataset] && Allowed(s, run[k])
  }

  /** Neither growing for the target nor for another frame loses a frame inside the limit. */
  lemma GrownKeeps(extent: nat, size: nat, max: nat, frame: nat)
    requires frame < extent && (max == 0 || frame <= max)
    ensures frame < Grown(extent, size, max)
  {
  }

  lemma ReadyKeepsExtent(s: Store, frame: nat, ds: nat)
    requires ds < |s.extents| && (s.max == 0 || frame <= s.max)
    ensures s.extents[ds] <= Ready(s, frame).extents[ds]
  {
  }

  lemma HoldsAfterStep(s: Store, run: seq<Record>, r: Record)
    requires s.open && Fits(s, run) && r.dataset < |s.extents| && Holds(s, run)
    requires InReach(s, r)
    ensures Hits(s, r) && Recorded(s, r).open && Holds(Recorded(s, r), run + [r])
  {
    ReadyKeepsExtent(s, r.frame, r.dataset);
    var s', run' := Recorded(s, r), run + [r];
    forall k: nat | k < |run'| ensures run'[k].frame < s'.extents[run'[k].dataset] && Allowed(s', run'[k]) {
      if k < |run| {
        ReadyKeepsExtent(s, r.frame, run[k].dataset);
        GrownKeeps(Ready(s, r.frame).extents[run[k].dataset], r.frame, s.max, run[k].frame);
      }
    }
  }

  lemma {:induction false} RunHolds(s: Store, run: seq<Record>)
    requires s.open && Fits(s, run) && WithinReach(s, run)
    ensures After(s, run).open && Holds(After(s, run), run)
    ensures run != [] ==> Hits(After(s, run[..|run| - 1]), run[|run| - 1])
    decreases |run|
  {
    hide Recorded, Hits, Holds, InReach, Fits;
    if run == [] {
      NothingHeld(s);
    } else {
      var init, r := run[..|run| - 1], run[|run| - 1];
      ReachPrefix(s, run, |init|);
      RunHolds(s, init);
      LastFits(s, run);
      HoldsAfterStep(After(s, init), init, r);
      assert init + [r] == run;
    }
  }

  lemma LastFits(s: Store, run: seq<Record>)
    requires Fits(s, run) && run != []
    ensures run[|run| - 1].dataset < |s.extents|
    ensures Fits(s, run[..|run| - 1]) && Fits(After(s, run[..|run| - 1]), run[..|run| - 1])
  {
  }

  lemma NothingHeld(s: Store)
    ensures Fits(s, []) && Holds(s, [])
  {
  }

  lemma ReachPrefix(s: Store, run: seq<Record>, k: nat)
    requires Fits(s, run) && WithinReach(s, run) && k <= |run|
    ensures Fits(s, run[..k]) && WithinReach(s, run[..k])
  {
    var pre := run[..k];
    forall i: nat | i < |pre|
      ensures InReach(After(s, pre[..i]), pre[i])
    {
      assert pre[..i] == run[..i];
    }
  }

  /** Frames may come in any order: as long as each is within reach, every write succeeds, and from then on its frame
      is inside its dataset, after any number of further records and after the file is closed in between or at last. */
  lemma EveryWriteHitsAndStays(s: Store, run: seq<Record>, k: nat, later: nat)
    requires s.open && Fits(s, run) && WithinReach(s, run) && k < later <= |run|
    ensures Hits(After(s, run[..k]), run[k]) && Run(s, run[..later]) == Recording(After(s, run[..later]))
    ensures run[k].frame < After(s, run[..later]).extents[run[k].dataset]
    ensures run[k].frame < Closed(After(s, run[..later])).extents[run[k].dataset]
  {
    hide Recorded, Hits, Closed, WithinReach, Holds, Run, AllHit;
    ReachPrefix(s, run, later);
    ReachedAllHit(s, run[..later]);
    AllHitAt(s, run[..later], k);
    RunGoesOnIff(s, run[..later]);
    assert run[..later][..k] == run[..k];
    RunHeld(s, run[..later], k);
    RunHolds(s, run[..later]);
    assert run[..later][k] == run[k];
    ClosedKeeps(After(s, run[..later]), run[k].dataset, run[k].frame);
  }

  lemma AllHitAt(s: Store, run: seq<Record>, k: nat)
    requires Fits(s, run) && AllHit(s, run) && k < |run|
    ensures Hits(After(s, run[..k]), run[k])
  {
  }

  lemma RunHeld(s: Store, run: seq<Record>, k: nat)
    requires s.open && Fits(s, run) && WithinReach(s, run) && k < |run|
    ensures run[k].frame < After(s, run).extents[run[k].dataset] && Allowed(After(s, run), run[k])
  {
    RunHolds(s, run);
  }

  lemma {:induction false} ReachedAllHit(s: Store, run: seq<Record>)
    requires s.open && Fits(s, run) && WithinReach(s, run)
    ensures AllHit(s, run)
    decreases |run|
  {
    hide Recorded, Hits, Holds, InReach;
    forall k: nat | k < |run| ensures Hits(After(s, run[..k]), run[k]) {
      ReachPrefix(s, run, k + 1);
      RunHolds(s, run[..k + 1]);
      assert run[..k + 1][..k] == run[..k];
    }
  }

  lemma ClosedKeeps(s: Store, ds: nat, frame: nat)
    requires ds < |s.extents| && frame < s.extents[ds] && (s.max == 0 || frame <= s.max)
    ensures frame < Closed(s).extents[ds]
  {
  }

  // ----- a condition on the frames alone -----

  /** The largest frame number recorded in a dataset so far; a new dataset counts as filled. */
  function Highest(run: seq<Record>, ds: nat): nat
    decreases |run|
  {
    if run == [] then MAX_FRAME_INC - 1
    else
      var before, r := Highest(run[..|run| - 1], ds), run[|run| - 1];
      if r.dataset == ds && r.frame > before then r.frame else before
  }

  /** No record is more than an extension step past the largest frame its own dataset has seen. */
  ghost predicate SmallGaps(run: seq<Record>) {
    forall k: nat | k < |run| :: run[k].frame <= Highest(run[..k], run[k].dataset) + DS_EXTEND_STEP
  }

  function Start(datasets: nat, max: nat): Store {
    Store(seq(datasets, _ => MAX_FRAME_INC), MAX_FRAME_INC, max, true)
  }

  lemma {:induction false} HighestInside(s: Store, run: seq<Record>, ds: nat)
    requires s.open && Fits(s, run) && WithinReach(s, run) && ds < |s.extents| && s.extents[ds] == MAX_FRAME_INC
    ensures Highest(run, ds) < After(s, run).extents[ds]
    decreases |run|
  {
    hide Recorded, Hits, WithinReach;
    if run != [] {
      var init, r := run[..|run| - 1], run[|run| - 1];
      ReachPrefix(s, run, |init|);
      HighestInside(s, init, ds);
      RunHolds(s, run);
      LatestHeld(After(s, run), run);
      ExtentNeverShrinks(After(s, init), r, ds);
    }
  }

  lemma LatestHeld(s: Store, run: seq<Record>)
    requires Fits(s, run) && Holds(s, run) && run != []
    ensures run[|run| - 1].frame < s.extents[run[|run| - 1].dataset] && Allowed(s, run[|run| - 1])
  {
  }

  lemma ExtentNeverShrinks(s: Store, r: Record, ds: nat)
    requires ds < |s.extents| && r.dataset < |s.extents| && (s.max == 0 || r.frame <= s.max)
    ensures s.extents[ds] <= Recorded(s, r).extents[ds]
  {
    ReadyKeepsExtent(s, r.frame, ds);
  }

  /** In a new file, records without large gaps in any dataset are all within reach. */
  lemma {:induction false} SmallGapsAreWithinReach(datasets: nat, max: nat, run: seq<Record>)
    requires Fits(Start(datasets, max), run) && SmallGaps(run)
    requires forall k: nat | k < |run| :: Allowed(Start(datasets, max), run[k])
    ensures WithinReach(Start(datasets, max), run)
    decreases |run|
  {
    hide Recorded, Highest;
    var s := Start(datasets, max);
    if run != [] {
      var n := |run| - 1;
      var init := run[..n];
      assert forall k: nat | k < n :: init[..k] == run[..k];
      SmallGapsAreWithinReach(datasets, max, init);
      HighestInside(s, init, run[n].dataset);
      forall k: nat | k < |run| ensures InReach(After(s, run[..k]), run[k]) {
        if k < n {
          assert InReach(After(s, init[..k]), init[k]);
        }
      }
    }
  }

  /** Frames 0, 1, 2, ... of dataset 0. */
  function InOrder(n: nat): seq<Record> { seq(n, i requires 0 <= i < n => Record(0, i)) }

  lemma {:induction false} InOrderGrows(n: nat)
    requires n <= 6000
    ensures Fits(Start(2, 0), InOrder(n))
    ensures var s := After(Start(2, 0), InOrder(n));
      s.open && s.target == (if n <= 2000 then 2000 else if n <= 4000 then 4000 else 6000) &&
      s.extents[1] == (if n <= 2000 then 2000 else if n <= 4000 then 2400 else 2800)
    decreases n
  {
    if n > 0 {
      assert InOrder(n)[..n - 1] == InOrder(n - 1);
      InOrderGrows(n - 1);
    }
  }

  /** A dataset that is written seldom is left behind: though the frames come in order and none is missing, the first
      record of dataset 1 ends the program when it is frame 4500. */
  lemma SeldomWrittenDatasetMisses()
    ensures Fits(Start(2, 0), InOrder(4501)) && After(Start(2, 0), InOrder(4501)).open
    ensures !Hits(After(Start(2, 0), InOrder(4501)), Record(1, 4500))
    ensures Run(Start(2, 0), InOrder(4501)).Recording? && Run(Start(2, 0), InOrder(4501) + [Record(1, 4500)]) == Stopped
  {
    hide SmallGaps;
    InOrderGrows(4501);
    InOrderSmallGaps(4501);
    var s, run, r := Start(2, 0), InOrder(4501), Record(1, 4500);
    SmallGapsAreWithinReach(2, 0, run);
    ReachedAllHit(s, run);
    RunGoesOnIff(s, run);
    assert (run + [r])[..|run|] == run;
  }

  lemma {:induction false} InOrderHighest(n: nat)
    ensures Highest(InOrder(n), 0) == if n < MAX_FRAME_INC then MAX_FRAME_INC - 1 else n - 1
    decreases n
  {
    if n > 0 {
      assert InOrder(n)[..n - 1] == InOrder(n - 1);
      InOrderHighest(n - 1);
    }
  }

  lemma InOrderSmallGaps(n: nat)
    ensures SmallGaps(InOrder(n))
  {
    hide Highest;
    forall k: nat | k < n ensures k <= Highest(InOrder(n)[..k], 0) + DS_EXTEND_STEP {
      assert InOrder(n)[..k] == InOrder(k);
      InOrderHighest(k);
    }
  }

  // ----- the limit -----

  predicate ExtentsWithin(s: Store, bound: nat) { forall d: nat | d < |s.extents| :: s.extents[d] <= bound }

  /** In a file with a limit no dataset ever grows past one frame more than the limit, or past the size it was created
      with. */
  lemma {:induction false} ExtentsStayInLimit(datasets: nat, max: nat, run: seq<Record>, bound: nat)
    requires 0 < max && Fits(Start(datasets, max), run) && bound == if max + 1 < 2000 then 2000 else max + 1
    ensures ExtentsWithin(After(Start(datasets, max), run), bound)
    ensures ExtentsWithin(Closed(After(Start(datasets, max), run)), bound)
    decreases |run|
  {
    hide Recorded, Closed;
    if run != [] {
      ExtentsStayInLimit(datasets, max, run[..|run| - 1], bound);
      RecordedWithin(After(Start(datasets, max), run[..|run| - 1]), run[|run| - 1], bound);
    }
    ClosedWithin(After(Start(datasets, max), run), bound);
  }

  lemma RecordedWithin(s: Store, r: Record, bound: nat)
    requires 0 < s.max < bound && r.dataset < |s.extents| && ExtentsWithin(s, bound)
    ensures ExtentsWithin(Recorded(s, r), bound)
  {
  }

  lemma ClosedWithin(s: Store, bound: nat)
    requires 0 < s.max < bound && ExtentsWithin(s, bound)
    ensures ExtentsWithin(Closed(s), bound)
  {
  }
}
