/** The fully connected calibration schedule: every radio of a cell sounds every other. */
module FullMatrix {
  import opened Arithmetic
  import opened Slots

  datatype Cell = Cell(radios: nat, channels: nat, guard: nat) {
    predicate Valid() { 0 < radios && 0 < channels && 0 < guard }

    function Antennas(): nat { radios * channels }

    /** Slots to a radio's turn, with the guard slots after it. */
    function Turn(): nat { guard * channels }

    function Length(): nat { channels * radios * guard }

    /** The slot of channel `ch` in the turn of radio `i`. */
    function Slot(i: nat, ch: nat): nat { guard * i * channels + ch }

    function TurnOf(t: nat): nat requires Valid() { t / Turn() }

    function WithinTurn(t: nat): nat requires Valid() { t % Turn() }

    /** What radio `r` does in slot `t`. */
    function Role(r: nat, t: nat): char
      requires Valid()
    {
      if WithinTurn(t) >= channels then 'G' else if TurnOf(t) == r then 'P' else 'R'
    }
  }

  ghost predicate IsFullMatrix(cell: Cell, frames: seq<string>)
    requires cell.Valid()
  {
    && Shape(frames, cell.radios, cell.Length())
    && forall r: nat, t: nat | r < cell.radios && t < cell.Length() :: frames[r][t] == cell.Role(r, t)
  }

  lemma SlotDecodes(cell: Cell, i: nat, ch: nat)
    requires cell.Valid() && i < cell.radios && ch < cell.channels
    ensures cell.Slot(i, ch) < cell.Length()
    ensures cell.TurnOf(cell.Slot(i, ch)) == i && cell.WithinTurn(cell.Slot(i, ch)) == ch
  {
    MulMonotone(1, cell.guard, cell.channels);
    assert cell.Slot(i, ch) == ch + i * cell.Turn();
    DivModUnique(cell.Slot(i, ch), cell.Turn(), i, ch);
    MulMonotone(i + 1, cell.radios, cell.Turn());
    assert cell.Length() == cell.radios * cell.Turn();
  }

  lemma SlotEncodes(cell: Cell, t: nat)
    requires cell.Valid() && t < cell.Length()
    ensures t == cell.Slot(cell.TurnOf(t), cell.WithinTurn(t)) && cell.TurnOf(t) < cell.radios
  {
    DivMod(t, cell.Turn());
    assert cell.Length() == cell.radios * cell.Turn();
    assert cell.TurnOf(t) * cell.Turn() == cell.guard * cell.TurnOf(t) * cell.channels;
    if cell.TurnOf(t) >= cell.radios {
      MulMonotone(cell.radios, cell.TurnOf(t), cell.Turn());
    }
  }

  /** The generator has written slot `t` of radio `r` once it has served the turns before `i`, `own` channels
      of radio `i`'s pilots, and the listeners before (k, ch). */
  predicate Written(cell: Cell, i: nat, own: nat, k: nat, ch: nat, r: nat, t: nat)
    requires cell.Valid()
  {
    || cell.TurnOf(t) < i
    || (cell.TurnOf(t) == i && if r == i then cell.WithinTurn(t) < own else r < k || (r == k && cell.WithinTurn(t) < ch))
  }

  ghost predicate Progress(cell: Cell, frames: seq<string>, i: nat, own: nat, k: nat, ch: nat)
    requires cell.Valid()
  {
    && Shape(frames, cell.radios, cell.Length())
    && forall r: nat, t: nat | r < cell.radios && t < cell.Length() ::
         frames[r][t] == if Written(cell, i, own, k, ch, r, t) then cell.Role(r, t) else 'G'
  }

  lemma OwnPilot(cell: Cell, frames: seq<string>, i: nat, ch: nat)
    requires cell.Valid() && i < cell.radios && ch < cell.channels && Progress(cell, frames, i, ch, 0, 0)
    ensures cell.Slot(i, ch) < cell.Length()
    ensures Progress(cell, Put(frames, i, cell.Slot(i, ch), 'P'), i, ch + 1, 0, 0)
  {
    SlotDecodes(cell, i, ch);
    var frames' := Put(frames, i, cell.Slot(i, ch), 'P');
    forall r: nat, t: nat | r < cell.radios && t < cell.Length()
      ensures frames'[r][t] == if Written(cell, i, ch + 1, 0, 0, r, t) then cell.Role(r, t) else 'G'
    {
      SlotEncodes(cell, t);
    }
  }

  lemma ListenerSlot(cell: Cell, frames: seq<string>, i: nat, k: nat, ch: nat)
    requires cell.Valid() && i < cell.radios && k < cell.radios && k != i && ch < cell.channels
    requires Progress(cell, frames, i, cell.channels, k, ch)
    ensures cell.Slot(i, ch) < cell.Length()
    ensures Progress(cell, Put(frames, k, cell.Slot(i, ch), 'R'), i, cell.channels, k, ch + 1)
  {
    SlotDecodes(cell, i, ch);
    var frames' := Put(frames, k, cell.Slot(i, ch), 'R');
    forall r: nat, t: nat | r < cell.radios && t < cell.Length()
      ensures frames'[r][t] == if Written(cell, i, cell.channels, k, ch + 1, r, t) then cell.Role(r, t) else 'G'
    {
      SlotEncodes(cell, t);
    }
  }

  method GenSchedule(cell: Cell) returns (frames: seq<string>)
    requires cell.Valid()
    ensures IsFullMatrix(cell, frames)
  {
    frames := [];
    for i := 0 to cell.radios
      invariant |frames| == i
      invariant forall r: nat, t: nat | r < i && t < cell.Length() :: |frames[r]| == cell.Length() && frames[r][t] == 'G'
      invariant forall r: nat | r < i :: |frames[r]| == cell.Length()
    {
      frames := frames + [seq(cell.Length(), _ => 'G')];
    }
    for i := 0 to cell.radios
      invariant Progress(cell, frames, i, 0, 0, 0)
    {
      for ch := 0 to cell.channels
        invariant Progress(cell, frames, i, ch, 0, 0)
      {
        OwnPilot(cell, frames, i, ch);
        frames := Put(frames, i, cell.guard * i * cell.channels + ch, 'P');
      }
      for k := 0 to cell.radios
        invariant Progress(cell, frames, i, cell.channels, k, 0)
      {
        if i != k {
          for ch := 0 to cell.channels
            invariant Progress(cell, frames, i, cell.channels, k, ch)
          {
            ListenerSlot(cell, frames, i, k, ch);
            frames := Put(frames, k, cell.guard * i * cell.channels + ch, 'R');
          }
        }
      }
    }
    forall t: nat | t < cell.Length() ensures cell.TurnOf(t) < cell.radios {
      SlotEncodes(cell, t);
    }
  }

  // ----- what the schedule is for -----

  /** In slot `t`, radio `i` sends its pilot and all the others listen. */
  ghost predicate OneSender(frames: seq<string>, t: nat, i: nat)
    requires forall r: nat | r < |frames| :: t < |frames[r]|
  {
    i < |frames| && forall r: nat | r < |frames| :: frames[r][t] == if r == i then 'P' else 'R'
  }

  /** A slot is silent for every radio, or one radio sends its pilot and all the others listen. */
  lemma OneSenderOrSilence(cell: Cell, frames: seq<string>, t: nat)
    requires cell.Valid() && IsFullMatrix(cell, frames) && t < cell.Length()
    ensures (forall r: nat | r < cell.radios :: frames[r][t] == 'G') || exists i: nat :: OneSender(frames, t, i)
  {
    SlotEncodes(cell, t);
    if cell.WithinTurn(t) < cell.channels {
      assert OneSender(frames, t, cell.TurnOf(t));
    }
  }

  /** Every ordered pair of radios meets once on each channel of the sender. */
  lemma EveryPairMeets(cell: Cell, frames: seq<string>, i: nat, k: nat, ch: nat)
    requires cell.Valid() && IsFullMatrix(cell, frames) && i < cell.radios && k < cell.radios && i != k
    requires ch < cell.channels
    ensures exists t: nat :: t < cell.Length() && cell.WithinTurn(t) == ch && frames[i][t] == 'P' && frames[k][t] == 'R' &&
              forall u: nat | u < cell.Length() && frames[i][u] == 'P' && cell.WithinTurn(u) == ch :: u == t
  {
    SlotDecodes(cell, i, ch);
    var t := cell.Slot(i, ch);
    forall u: nat | u < cell.Length() && frames[i][u] == 'P' && cell.WithinTurn(u) == ch
      ensures u == t
    {
      SlotEncodes(cell, u);
    }
    assert frames[i][t] == 'P';
  }

  /** The receiver's renumbering of slots, which drops the guard slots. */
  function Compress(cell: Cell, t: nat): int
    requires cell.Valid()
  {
    var adv := t / (cell.guard * cell.channels);
    t - (cell.guard - 1) * cell.channels * adv
  }

  /** The slot that is renumbered to `u`. */
  function Expand(cell: Cell, u: nat): nat
    requires cell.Valid()
  {
    cell.Slot(u / cell.channels, u % cell.channels)
  }

  lemma CompressSlot(cell: Cell, i: nat, ch: nat)
    requires cell.Valid() && i < cell.radios && ch < cell.channels
    ensures Compress(cell, cell.Slot(i, ch)) == i * cell.channels + ch < cell.Antennas()
  {
    SlotDecodes(cell, i, ch);
    assert (cell.guard - 1) * cell.channels * i == cell.guard * i * cell.channels - i * cell.channels;
    MulMonotone(i + 1, cell.radios, cell.channels);
  }

  /** Renumbering is a bijection from the slots in use onto the dataset's rows. */
  lemma CompressIsBijection(cell: Cell, t: nat, u: nat)
    requires cell.Valid()
    ensures t < cell.Length() && cell.WithinTurn(t) < cell.channels ==>
              0 <= Compress(cell, t) < cell.Antennas() && Expand(cell, Compress(cell, t)) == t
    ensures u < cell.Antennas() ==>
              Expand(cell, u) < cell.Length() && cell.WithinTurn(Expand(cell, u)) < cell.channels &&
              Compress(cell, Expand(cell, u)) == u
  {
    hide Cell.WithinTurn, Cell.TurnOf, Compress, Expand, Cell.Slot, Cell.Antennas, Cell.Length;
    if t < cell.Length() && cell.WithinTurn(t) < cell.channels {
      SlotEncodes(cell, t);
      CompressSlot(cell, cell.TurnOf(t), cell.WithinTurn(t));
      ExpandIsSlot(cell, Compress(cell, t), cell.TurnOf(t), cell.WithinTurn(t));
    }
    if u < cell.Antennas() {
      DivMod(u, cell.channels);
      RowOfRadio(cell, u, u / cell.channels, u % cell.channels);
    }
  }

  lemma RowOfRadio(cell: Cell, u: nat, i: nat, ch: nat)
    requires cell.Valid() && ch < cell.channels && u == ch + i * cell.channels < cell.Antennas()
    ensures i < cell.radios && Expand(cell, u) == cell.Slot(i, ch) < cell.Length()
    ensures cell.WithinTurn(Expand(cell, u)) == ch && Compress(cell, Expand(cell, u)) == u
  {
    hide Cell.WithinTurn, Cell.TurnOf, Compress, Expand, Cell.Slot, Cell.Length;
    if i >= cell.radios {
      MulMonotone(cell.radios, i, cell.channels);
    }
    ExpandIsSlot(cell, u, i, ch);
    SlotDecodes(cell, i, ch);
    CompressSlot(cell, i, ch);
  }

  lemma ExpandIsSlot(cell: Cell, u: nat, i: nat, ch: nat)
    requires cell.Valid() && ch < cell.channels && u == ch + i * cell.channels
    ensures Expand(cell, u) == cell.Slot(i, ch)
  {
    hide Cell.Slot;
    DivModUnique(u, cell.channels, i, ch);
  }

  /** A dataset cell: (symbol, antenna) of what radio `r` receives in slot `t` on its channel `ch`. */
  function DatasetCell(cell: Cell, r: nat, t: nat, ch: nat): (int, nat)
    requires cell.Valid()
  {
    (Compress(cell, t), r * cell.channels + ch)
  }

  lemma ListenerInUse(cell: Cell, frames: seq<string>, r: nat, t: nat)
    requires cell.Valid() && IsFullMatrix(cell, frames) && r < cell.radios && t < cell.Length() && frames[r][t] == 'R'
    ensures cell.WithinTurn(t) < cell.channels
  {
    hide Cell.WithinTurn, Cell.TurnOf;
    assert frames[r][t] == cell.Role(r, t);
  }

  lemma CellDetermines(cell: Cell, frames: seq<string>, r: nat, t: nat, ch: nat)
    requires cell.Valid() && IsFullMatrix(cell, frames)
    requires r < cell.radios && t < cell.Length() && ch < cell.channels && frames[r][t] == 'R'
    ensures 0 <= DatasetCell(cell, r, t, ch).0 < cell.Antennas() && DatasetCell(cell, r, t, ch).1 < cell.Antennas()
    ensures Expand(cell, DatasetCell(cell, r, t, ch).0) == t
    ensures DatasetCell(cell, r, t, ch).1 / cell.channels == r && DatasetCell(cell, r, t, ch).1 % cell.channels == ch
  {
    hide Compress, Expand, Cell.WithinTurn, Cell.TurnOf;
    ListenerInUse(cell, frames, r, t);
    CompressIsBijection(cell, t, 0);
    DivModUnique(r * cell.channels + ch, cell.channels, r, ch);
    MulMonotone(r + 1, cell.radios, cell.channels);
  }

  /** Every packet of a frame has a dataset cell of its own, inside the dataset. */
  lemma CellsAreDistinct(cell: Cell, frames: seq<string>, r: nat, t: nat, ch: nat, r': nat, t': nat, ch': nat)
    requires cell.Valid() && IsFullMatrix(cell, frames)
    requires r < cell.radios && t < cell.Length() && ch < cell.channels && frames[r][t] == 'R'
    requires r' < cell.radios && t' < cell.Length() && ch' < cell.channels && frames[r'][t'] == 'R'
    ensures 0 <= DatasetCell(cell, r, t, ch).0 < cell.Antennas() && DatasetCell(cell, r, t, ch).1 < cell.Antennas()
    ensures DatasetCell(cell, r, t, ch) == DatasetCell(cell, r', t', ch') ==> r == r' && t == t' && ch == ch'
  {
    hide Compress, Expand, DatasetCell, IsFullMatrix;
    CellDetermines(cell, frames, r, t, ch);
    CellDetermines(cell, frames, r', t', ch');
  }
}
