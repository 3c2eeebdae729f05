/** What a radio transmits, and the file it is generated into.  A block is the samples of one slot on one channel. */
module TransmitFile {
  import opened Arithmetic

  type Block = seq<int>

  /** What the radio transmits: `slots` are its uplink slot numbers, `channels` its channels, and
      `generated(f, u, h)` the block generated for frame f, slot index u, channel h. */
  datatype Plan = Plan(radio: nat, slots: seq<nat>, channels: nat, frames: nat, generated: (nat, nat, nat) -> Block)
  {
    ghost predicate Valid() { 0 < channels && 0 < frames }
  }

  /** Blocks to a frame. */
  function PerFrame(p: Plan): nat { |p.slots| * p.channels }

  /** Position of slot index s, channel h among the blocks of a frame. */
  function Position(p: Plan, s: nat, h: nat): nat { s * p.channels + h }

  lemma SlotOfPosition(p: Plan, k: nat)
    requires 0 < p.channels && k < PerFrame(p)
    ensures k / p.channels < |p.slots|
  {
    if k / p.channels >= |p.slots| {
      MulMonotone(|p.slots|, k / p.channels, p.channels);
    }
  }

  lemma PositionDecodes(p: Plan, s: nat, h: nat)
    requires s < |p.slots| && h < p.channels
    ensures Position(p, s, h) < PerFrame(p)
    ensures Position(p, s, h) / p.channels == s && Position(p, s, h) % p.channels == h
  {
    DivModUnique(Position(p, s, h), p.channels, s, h);
    MulMonotone(s + 1, |p.slots|, p.channels);
  }

  /** Positions advance by one, over slot boundaries too, from 0 to the whole frame. */
  lemma PositionSteps(p: Plan, s: nat, h: nat)
    ensures Position(p, s, h + 1) == Position(p, s, h) + 1
    ensures Position(p, s, p.channels) == Position(p, s + 1, 0)
    ensures Position(p, 0, 0) == 0 && Position(p, |p.slots|, 0) == PerFrame(p)
    ensures s <= |p.slots| ==> Position(p, s, 0) <= PerFrame(p)
  {
    if s <= |p.slots| {
      MulMonotone(s, |p.slots|, p.channels);
    }
  }

  // ----- the generated file -----

  function FrameBlocks(p: Plan, f: nat): (blocks: seq<Block>)
    requires 0 < p.channels && 0 < p.frames
    ensures |blocks| == PerFrame(p)
  {
    seq(PerFrame(p), k requires 0 <= k < PerFrame(p) => p.generated(f, k / p.channels, k % p.channels))
  }

  function FileUpTo(p: Plan, n: nat): (file: seq<Block>)
    requires 0 < p.channels && 0 < p.frames
    ensures |file| == n * PerFrame(p)
  {
    if n == 0 then [] else FileUpTo(p, n - 1) + FrameBlocks(p, n - 1)
  }

  lemma BlockAt(p: Plan, f: nat, s: nat, h: nat)
    requires p.Valid() && s < |p.slots| && h < p.channels
    ensures Position(p, s, h) < PerFrame(p)
    ensures FrameBlocks(p, f)[Position(p, s, h)] == p.generated(f, s, h)
  {
    PositionDecodes(p, s, h);
  }

  /** The generator's nested loops: frame by frame, slot by slot, channel by channel. */
  method GenerateData(p: Plan) returns (file: seq<Block>)
    requires p.Valid()
    ensures file == FileUpTo(p, p.frames)
  {
    hide PerFrame, Position, FrameBlocks;
    file := [];
    for f := 0 to p.frames
      invariant file == FileUpTo(p, f)
    {
      ghost var done, blocks := file, FrameBlocks(p, f);
      PositionSteps(p, 0, 0);
      for u := 0 to |p.slots|
        invariant Position(p, u, 0) <= PerFrame(p) && file == done + blocks[..Position(p, u, 0)]
      {
        PositionSteps(p, u + 1, 0);
        for h := 0 to p.channels
          invariant Position(p, u, h) <= PerFrame(p) && file == done + blocks[..Position(p, u, h)]
        {
          BlockAt(p, f, u, h);
          PositionSteps(p, u, h);
          file := file + [p.generated(f, u, h)];
        }
        PositionSteps(p, u, 0);
      }
      PositionSteps(p, 0, 0);
    }
  }

  lemma FileEnds(p: Plan, n: nat)
    requires p.Valid() && 0 < n
    ensures FileUpTo(p, n) == FileUpTo(p, n - 1) + FrameBlocks(p, n - 1)
  {
  }

  lemma SliceOfConcat(a: seq<Block>, b: seq<Block>, lo: nat, hi: nat)
    requires lo <= hi
    ensures hi <= |a| ==> (a + b)[lo..hi] == a[lo..hi]
    ensures lo == |a| && hi == |a| + |b| ==> (a + b)[lo..hi] == b
  {
  }

  lemma {:induction false} FileSlice(p: Plan, n: nat, f: nat)
    requires p.Valid() && f < n
    ensures (f + 1) * PerFrame(p) <= |FileUpTo(p, n)|
    ensures FileUpTo(p, n)[f * PerFrame(p)..(f + 1) * PerFrame(p)] == FrameBlocks(p, f)
    decreases n
  {
    hide PerFrame, FileUpTo, FrameBlocks;
    var per := PerFrame(p);
    MulMonotone(f, f + 1, per);
    MulMonotone(f + 1, n, per);
    FileEnds(p, n);
    SliceOfConcat(FileUpTo(p, n - 1), FrameBlocks(p, n - 1), f * per, (f + 1) * per);
    if f + 1 < n {
      FileSlice(p, n - 1, f);
    }
  }

  lemma Layout(p: Plan, f: nat, s: nat, h: nat)
    ensures f * PerFrame(p) + Position(p, s, h) == (f * |p.slots| + s) * p.channels + h
  {
    assert f * (|p.slots| * p.channels) == f * |p.slots| * p.channels;
    assert (f * |p.slots| + s) * p.channels == f * |p.slots| * p.channels + s * p.channels;
  }

  /** Where a generated block is in the file: frames, slots and channels count like the digits of a number. */
  lemma FileBlock(p: Plan, n: nat, f: nat, s: nat, h: nat)
    requires p.Valid() && f < n && s < |p.slots| && h < p.channels
    ensures Position(p, s, h) < PerFrame(p)
    ensures f * PerFrame(p) + Position(p, s, h) < |FileUpTo(p, n)|
    ensures FileUpTo(p, n)[f * PerFrame(p) + Position(p, s, h)] == p.generated(f, s, h)
    ensures f * PerFrame(p) + Position(p, s, h) == (f * |p.slots| + s) * p.channels + h
  {
    Layout(p, f, s, h);
    hide PerFrame, Position, FileUpTo, FrameBlocks;
    var from, to, k := f * PerFrame(p), (f + 1) * PerFrame(p), Position(p, s, h);
    FileSlice(p, n, f);
    BlockAt(p, f, s, h);
    assert to == from + PerFrame(p);
    assert FileUpTo(p, n)[from + k] == FileUpTo(p, n)[from..to][k];
  }

  // ----- serial numbers -----

  /** Serial number of the `k`th block of frame `e` among all blocks ever read. */
  function Serial(p: Plan, e: nat, k: nat): nat { e * PerFrame(p) + k }

  lemma SerialNext(p: Plan, e: nat, k: nat)
    ensures Serial(p, e, k + 1) == Serial(p, e, k) + 1
    ensures Serial(p, e, PerFrame(p)) == Serial(p, e + 1, 0) == (e + 1) * PerFrame(p)
  {
  }

  lemma SerialGrows(p: Plan, e: nat, e': nat)
    requires e <= e'
    ensures Serial(p, e, 0) <= Serial(p, e', 0)
    ensures Serial(p, e', 0) - Serial(p, e, 0) == (e' - e) * PerFrame(p)
  {
    MulMonotone(e, e', PerFrame(p));
  }

  /** Frame number modulo the generated frames, slot index and channel of a serial number. */
  function Generation(p: Plan, n: nat): (nat, nat, nat)
    requires p.channels > 0 && p.frames > 0 && PerFrame(p) > 0
  {
    var k := n % PerFrame(p);
    (n / PerFrame(p) % p.frames, k / p.channels, k % p.channels)
  }

  lemma SerialDecodes(p: Plan, e: nat, s: nat, h: nat)
    requires p.Valid() && s < |p.slots| && h < p.channels
    ensures PerFrame(p) > 0
    ensures var n := Serial(p, e, Position(p, s, h));
      n / PerFrame(p) == e && n % PerFrame(p) == Position(p, s, h) && Generation(p, n) == (e % p.frames, s, h)
  {
    PositionDecodes(p, s, h);
    DivModUnique(Serial(p, e, Position(p, s, h)), PerFrame(p), e, Position(p, s, h));
  }

  /** The header the reader gives to the packet of serial number `n`. */
  datatype Header = Header(frame: nat, slot: nat, ant: nat)

  function HeaderOf(p: Plan, n: nat): Header
    requires 0 < p.channels && 0 < p.frames
  {
    if PerFrame(p) == 0 then Header(0, 0, 0)
    else
      SlotOfPosition(p, n % PerFrame(p));
      var (_, s, h) := Generation(p, n);
      Header(n / PerFrame(p), p.slots[s], p.radio * p.channels + h)
  }

  function DataOf(p: Plan, n: nat): Block
    requires 0 < p.channels && 0 < p.frames
  {
    if PerFrame(p) == 0 then []
    else
      var (f, s, h) := Generation(p, n);
      p.generated(f, s, h)
  }

  lemma PacketAt(p: Plan, e: nat, s: nat, h: nat)
    requires p.Valid() && s < |p.slots| && h < p.channels
    ensures HeaderOf(p, Serial(p, e, Position(p, s, h))) == Header(e, p.slots[s], p.radio * p.channels + h)
    ensures DataOf(p, Serial(p, e, Position(p, s, h))) == p.generated(e % p.frames, s, h)
  {
    hide Generation, Serial, Position, PerFrame;
    SerialDecodes(p, e, s, h);
    GenerationParts(p, Serial(p, e, Position(p, s, h)));
  }

  lemma GenerationParts(p: Plan, n: nat)
    requires p.Valid() && PerFrame(p) > 0
    ensures Generation(p, n).1 < |p.slots|
  {
    SlotOfPosition(p, n % PerFrame(p));
  }

  // ----- the file cursor -----

  /** Where the file cursor is after `read` frames: at the end of the latest frame's blocks. */
  function CursorAfter(p: Plan, read: nat): nat
    requires 0 < p.frames
  {
    if read == 0 then 0 else ((read - 1) % p.frames + 1) * PerFrame(p)
  }

  /** Seeking back on a multiple of the frame count leaves the cursor at the blocks of the frame to read. */
  lemma CursorAtFrame(p: Plan, e: nat)
    requires 0 < p.frames
    ensures e % p.frames == 0 || CursorAfter(p, e) == e % p.frames * PerFrame(p)
    ensures CursorAfter(p, e + 1) == (e % p.frames + 1) * PerFrame(p) == e % p.frames * PerFrame(p) + PerFrame(p)
    ensures CursorAfter(p, 0) == 0 * PerFrame(p) == 0
  {
    if e > 0 {
      NextInGroup(p.frames, e - 1, (e - 1) % p.frames);
    }
  }
}
