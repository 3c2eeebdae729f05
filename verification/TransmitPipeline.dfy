/** The transmit pipeline of one radio: a reader thread and a transmitting thread share a ring of packets without any
    lock.  Every method below marked as a step is one atomic action of one thread, so a sequence of steps is one
    interleaving; whatever holds of every `Valid` object holds in every interleaving. */
module TransmitPipeline {
  import opened Arithmetic
  import opened Common
  import opened TransmitFile
  import opened TransmitRing

  const SAMPLE_BUFFER_FRAME_NUM: nat := 80

  datatype Event = Event(frame: nat, offset: nat)

  /** The reader's place in its loops: between a block and its header, `cell` is the packet being written. */
  datatype Reader = Idle | Reading(frame: nat, first: nat, s: nat, ch: nat, cell: Option<nat>)

  /** The transmitter's place in its loops: `cells` are the packets of the slot whose headers it has looked at. */
  datatype Sender = Waiting | Sending(frame: nat, offset: nat, s: nat, ch: nat, cells: seq<nat>)

  /** A header looked at, with the number of headers ever written at that moment. */
  datatype Check = Check(header: Header, written: nat, asserts: bool)

  /** A block transmitted, with the number of blocks ever read and of frames begun at that moment. */
  datatype Sent = Sent(data: Block, written: nat, begun: nat)

  // ----- what the threads' variables say -----

  /** Frames whose completion event has been queued. */
  function Completed(reader: Reader, begun: nat): nat
    requires reader.Reading? ==> 0 < begun
  {
    if reader.Idle? then begun else begun - 1
  }

  ghost predicate ReaderOk(p: Plan, size: nat, reader: Reader, begun: nat, position: nat, offset: nat,
                           headers: nat, blocks: nat)
    requires p.Valid() && 0 < size
  {
    && offset == blocks % size
    && match reader
       case Idle => headers == blocks == Serial(p, begun, 0) && position == CursorAfter(p, begun)
       case Reading(f, first, s, ch, cell) =>
         && f + 1 == begun && first == Serial(p, f, 0) % size
         && s <= |p.slots| && ch < p.channels && (s == |p.slots| ==> ch == 0 && cell.None?)
         && headers == Serial(p, f, Position(p, s, ch))
         && blocks == headers + (if cell.Some? then 1 else 0)
         && (cell.Some? ==> cell.value == headers % size)
         && position == f % p.frames * PerFrame(p) + Position(p, s, ch) + if cell.Some? then 1 else 0
  }

  function EventOf(p: Plan, size: nat, e: nat): Event
    requires 0 < size
  {
    Event(e, Serial(p, e, 0) % size)
  }

  /** The queue holds the completion events of frames `first`, `first + 1`, ... */
  ghost predicate QueueOk(p: Plan, size: nat, queue: seq<Event>, first: nat)
    requires 0 < size
  {
    forall i: nat | i < |queue| :: queue[i] == EventOf(p, size, first + i)
  }

  lemma QueueMoves(p: Plan, size: nat, queue: seq<Event>, first: nat)
    requires 0 < size && QueueOk(p, size, queue, first)
    ensures QueueOk(p, size, queue + [EventOf(p, size, first + |queue|)], first)
    ensures queue != [] ==> queue[0] == EventOf(p, size, first) && QueueOk(p, size, queue[1..], first + 1)
  {
    if queue != [] {
      var rest := queue[1..];
      forall i: nat | i < |rest| ensures rest[i] == EventOf(p, size, first + 1 + i) {
        assert rest[i] == queue[i + 1];
      }
    }
  }

  ghost predicate SenderOk(p: Plan, size: nat, sender: Sender, taken: nat, checks: nat, sent: nat)
    requires p.Valid() && 0 < size
  {
    match sender
    case Waiting => checks == sent == Serial(p, taken, 0)
    case Sending(f, offset, s, ch, cells) =>
      && f + 1 == taken && s <= |p.slots| && ch <= p.channels && (s == |p.slots| ==> ch == 0)
      && sent == Serial(p, f, Position(p, s, 0)) && checks == sent + ch && offset == checks % size
      && |cells| == ch && forall j: nat | j < ch :: cells[j] == (sent + j) % size
  }

  /** The code's assertions about the packet it takes for serial number `n`. */
  predicate AssertsHold(p: Plan, header: Header, n: nat)
    requires 0 < p.channels && 0 < p.frames
  {
    header.slot == HeaderOf(p, n).slot && header.ant == HeaderOf(p, n).ant
  }

  /** The `n`th header looked at is the last one written to its cell by then. */
  ghost predicate CheckOk(p: Plan, size: nat, c: Check, n: nat, headers: nat)
    requires p.Valid() && 0 < size
  {
    && n < c.written <= headers && c.header == HeaderOf(p, Latest(n, c.written, size))
    && (c.asserts <==> AssertsHold(p, c.header, n))
  }

  /** The `n`th block transmitted is the last one read into its cell by then. */
  ghost predicate SentOk(p: Plan, size: nat, s: Sent, n: nat, blocks: nat)
    requires p.Valid() && 0 < size
  {
    n < s.written <= blocks && s.written <= Serial(p, s.begun, 0) && s.data == DataOf(p, Latest(n, s.written, size))
  }

  ghost predicate HistoryOk(p: Plan, size: nat, checks: seq<Check>, sent: seq<Sent>, headers: nat, blocks: nat)
    requires p.Valid() && 0 < size
  {
    && (forall n: nat | n < |checks| :: CheckOk(p, size, checks[n], n, headers))
    && (forall n: nat | n < |sent| :: SentOk(p, size, sent[n], n, blocks))
  }

  lemma HistoryGrows(p: Plan, size: nat, checks: seq<Check>, sent: seq<Sent>, headers: nat, blocks: nat,
                     headers': nat, blocks': nat)
    requires p.Valid() && 0 < size && HistoryOk(p, size, checks, sent, headers, blocks)
    requires headers <= headers' && blocks <= blocks'
    ensures HistoryOk(p, size, checks, sent, headers', blocks')
  {
  }

  function Headers(p: Plan): nat -> Header
    requires p.Valid()
  {
    (n: nat) => HeaderOf(p, n)
  }

  function Blocks(p: Plan): nat -> Block
    requires p.Valid()
  {
    (n: nat) => DataOf(p, n)
  }

  /** What was sent since `before` was sent while `written` blocks were read and `begun` frames begun. */
  ghost predicate SentNow(before: seq<Sent>, after: seq<Sent>, written: nat, begun: nat) {
    && |before| <= |after| && after[..|before|] == before
    && forall n: nat | |before| <= n < |after| :: after[n].written == written && after[n].begun == begun
  }

  lemma NothingSentNow(sent: seq<Sent>, written: nat, begun: nat)
    ensures SentNow(sent, sent, written, begun)
  {
  }

  lemma SentNowOn(a: seq<Sent>, b: seq<Sent>, c: seq<Sent>, written: nat, begun: nat)
    requires SentNow(a, b, written, begun) && SentNow(b, c, written, begun)
    ensures SentNow(a, c, written, begun)
  {
    assert c[..|a|] == c[..|b|][..|a|];
    forall n: nat | |a| <= n < |c| ensures c[n].written == written && c[n].begun == begun {
      if n < |b| {
        assert c[n] == c[..|b|][n];
      }
    }
  }

  // ----- the reader's steps, on values -----

  lemma ReaderStarts(p: Plan, size: nat, begun: nat, position: nat, offset: nat, n: nat)
    requires p.Valid() && 0 < size && ReaderOk(p, size, Idle, begun, position, offset, n, n)
    ensures ReaderOk(p, size, Reading(begun, offset, 0, 0, None), begun + 1,
                     if begun > 0 && begun % p.frames == 0 then 0 else position, offset, n, n)
  {
    CursorAtFrame(p, begun);
    PositionSteps(p, 0, 0);
  }

  /** Reading a block: the cell it goes to, and where its data is in the file. */
  lemma ReaderLoads(p: Plan, size: nat, f: nat, first: nat, s: nat, ch: nat, position: nat, offset: nat, n: nat)
    requires p.Valid() && 0 < size && s < |p.slots|
    requires ReaderOk(p, size, Reading(f, first, s, ch, None), f + 1, position, offset, n, n)
    ensures position < |FileUpTo(p, p.frames)| && FileUpTo(p, p.frames)[position] == DataOf(p, n)
    ensures offset == n % size
    ensures ReaderOk(p, size, Reading(f, first, s, ch, Some(offset)), f + 1, position + 1, (offset + 1) % size,
                     n, n + 1)
  {
    hide PerFrame, Position, Serial, FileUpTo, DataOf;
    FileBlock(p, p.frames, f % p.frames, s, ch);
    PacketAt(p, f, s, ch);
    NextMod(n, size);
  }

  /** Stamping its header, and going on to the next channel or slot. */
  lemma ReaderStamps(p: Plan, size: nat, f: nat, first: nat, s: nat, ch: nat, cell: nat, position: nat, offset: nat, n: nat)
    requires p.Valid() && 0 < size
    requires ReaderOk(p, size, Reading(f, first, s, ch, Some(cell)), f + 1, position, offset, n, n + 1)
    ensures s < |p.slots| && cell == n % size
    ensures HeaderOf(p, n) == Header(f, p.slots[s], p.radio * p.channels + ch)
    ensures ReaderOk(p, size, NextPacket(p, f, first, s, ch), f + 1, position, offset, n + 1, n + 1)
  {
    hide PerFrame, Position, Serial, HeaderOf;
    PacketAt(p, f, s, ch);
    PositionSteps(p, s, ch);
    PositionSteps(p, s, p.channels);
    SerialNext(p, f, Position(p, s, ch));
  }

  /** The reader's loop counters after a packet. */
  function NextPacket(p: Plan, f: nat, first: nat, s: nat, ch: nat): Reader {
    if ch + 1 < p.channels then Reading(f, first, s, ch + 1, None) else Reading(f, first, s + 1, 0, None)
  }

  lemma ReaderFinishes(p: Plan, size: nat, f: nat, first: nat, position: nat, offset: nat, n: nat)
    requires p.Valid() && 0 < size
    requires ReaderOk(p, size, Reading(f, first, |p.slots|, 0, None), f + 1, position, offset, n, n)
    ensures ReaderOk(p, size, Idle, f + 1, position, offset, n, n)
    ensures Event(f, first) == EventOf(p, size, f)
  {
    PositionSteps(p, 0, 0);
    SerialNext(p, f, 0);
    CursorAtFrame(p, f);
  }

  /** Everything of the completed frames is written, and nothing of frames not begun. */
  lemma WrittenBounds(p: Plan, size: nat, reader: Reader, begun: nat, position: nat, offset: nat, headers: nat, blocks: nat,
                      taken: nat)
    requires p.Valid() && 0 < size && ReaderOk(p, size, reader, begun, position, offset, headers, blocks)
    requires taken <= Completed(reader, begun)
    ensures Serial(p, taken, 0) <= headers <= blocks <= Serial(p, begun, 0)
  {
    SerialGrows(p, taken, Completed(reader, begun));
    if reader.Reading? {
      PositionSteps(p, reader.s, 0);
      PositionSteps(p, reader.s + 1, 0);
      SerialNext(p, reader.frame, 0);
    }
  }

  // ----- the transmitter's steps, on values -----

  lemma SenderTakes(p: Plan, size: nat, taken: nat, n: nat)
    requires p.Valid() && 0 < size && SenderOk(p, size, Waiting, taken, n, n)
    ensures SenderOk(p, size, Sending(taken, EventOf(p, size, taken).offset, 0, 0, []), taken + 1, n, n)
  {
    PositionSteps(p, 0, 0);
  }

  lemma SenderLooks(p: Plan, size: nat, f: nat, offset: nat, s: nat, ch: nat, cells: seq<nat>, checks: nat, sent: nat)
    requires p.Valid() && 0 < size && s < |p.slots| && ch < p.channels
    requires SenderOk(p, size, Sending(f, offset, s, ch, cells), f + 1, checks, sent)
    ensures offset == checks % size && checks < Serial(p, f + 1, 0)
    ensures checks == Serial(p, f, Position(p, s, ch))
    ensures HeaderOf(p, checks) == Header(f, p.slots[s], p.radio * p.channels + ch)
    ensures SenderOk(p, size, Sending(f, (offset + 1) % size, s, ch + 1, cells + [offset]), f + 1, checks + 1, sent)
  {
    hide HeaderOf;
    SlotSerials(p, f, s, ch);
    PacketAt(p, f, s, ch);
    NextMod(checks, size);
  }

  /** The packets of a slot have consecutive serial numbers, inside their frame. */
  lemma SlotSerials(p: Plan, f: nat, s: nat, ch: nat)
    requires p.Valid() && s < |p.slots| && ch <= p.channels
    ensures Serial(p, f, Position(p, s, ch)) == Serial(p, f, Position(p, s, 0)) + ch <= Serial(p, f + 1, 0)
    ensures ch < p.channels ==> Serial(p, f, Position(p, s, ch)) < Serial(p, f + 1, 0)
    ensures ch == p.channels ==> Serial(p, f, Position(p, s, ch)) == Serial(p, f, Position(p, s + 1, 0))
  {
    PositionSteps(p, s, 0);
    PositionSteps(p, s + 1, 0);
    SerialNext(p, f, 0);
  }

  lemma SenderTransmits(p: Plan, size: nat, f: nat, offset: nat, s: nat, cells: seq<nat>, checks: nat, sent: nat)
    requires p.Valid() && 0 < size && s < |p.slots|
    requires SenderOk(p, size, Sending(f, offset, s, p.channels, cells), f + 1, checks, sent)
    ensures |cells| == p.channels && sent + p.channels == checks <= Serial(p, f + 1, 0)
    ensures forall j: nat | j < p.channels :: cells[j] == (sent + j) % size
    ensures SenderOk(p, size, Sending(f, offset, s + 1, 0, []), f + 1, checks, checks)
  {
    hide Serial, Position;
    SlotSerials(p, f, s, p.channels);
  }

  lemma SenderFinishes(p: Plan, size: nat, f: nat, offset: nat, cells: seq<nat>, checks: nat, sent: nat)
    requires p.Valid() && 0 < size
    requires SenderOk(p, size, Sending(f, offset, |p.slots|, 0, cells), f + 1, checks, sent)
    ensures SenderOk(p, size, Waiting, f + 1, checks, sent)
  {
    PositionSteps(p, 0, 0);
    SerialNext(p, f, 0);
  }

  lemma CheckAdded(p: Plan, size: nat, checks: seq<Check>, sent: seq<Sent>, headers: nat, blocks: nat, c: Check)
    requires p.Valid() && 0 < size && HistoryOk(p, size, checks, sent, headers, blocks)
    requires CheckOk(p, size, c, |checks|, headers)
    ensures HistoryOk(p, size, checks + [c], sent, headers, blocks)
  {
    hide CheckOk, SentOk;
  }

  lemma SentAdded(p: Plan, size: nat, checks: seq<Check>, sent: seq<Sent>, headers: nat, blocks: nat, s: Sent)
    requires p.Valid() && 0 < size && HistoryOk(p, size, checks, sent, headers, blocks)
    requires SentOk(p, size, s, |sent|, blocks)
    ensures HistoryOk(p, size, checks, sent + [s], headers, blocks)
  {
    hide CheckOk, SentOk;
  }

  class TxRadio {
    const plan: Plan
    const file: seq<Block>
    const size: nat
    const headers: array<Header>
    const blocks: array<Block>
    var position: nat
    var offset: nat
    var begun: nat
    var reader: Reader
    var headersWritten: nat
    var blocksRead: nat
    var queue: seq<Event>
    var taken: nat
    var sender: Sender
    var checks: seq<Check>
    var sent: seq<Sent>

    ghost predicate Shaped() {
      plan.Valid() && 0 < size == headers.Length == blocks.Length && file == FileUpTo(plan, plan.frames)
    }

    ghost predicate Valid()
      reads this, headers, blocks
    {
      && Shaped()
      && ReaderOk(plan, size, reader, begun, position, offset, headersWritten, blocksRead)
      && |queue| + taken == Completed(reader, begun) && QueueOk(plan, size, queue, taken)
      && SenderOk(plan, size, sender, taken, |checks|, |sent|)
      && Holds(headers[..], headersWritten, Headers(plan))
      && Holds(blocks[..], blocksRead, Blocks(plan))
      && HistoryOk(plan, size, checks, sent, headersWritten, blocksRead)
    }

    /** `size` is the number of packets the transmit buffer holds. */
    constructor (plan: Plan, file: seq<Block>, size: nat)
      requires plan.Valid() && 0 < size && file == FileUpTo(plan, plan.frames)
      ensures Valid() && fresh(headers) && fresh(blocks) && this.plan == plan && this.size == size
      ensures reader == Idle && sender == Waiting && begun == taken == 0
      ensures queue == [] && checks == [] && sent == []
    {
      this.plan, this.file, this.size := plan, file, size;
      headers := new Header[size](_ => Header(0, 0, 0));
      blocks := new Block[size](_ => []);
      position, offset, begun, headersWritten, blocksRead, taken := 0, 0, 0, 0, 0, 0;
      reader, sender, queue, checks, sent := Idle, Waiting, [], [], [];
      new;
      DivModUnique(0, size, 0, 0);
      CursorAtFrame(plan, 0);
    }

    // ----- the reader thread -----

    /** Step: begins the next frame, seeking back in the file if it is time to. */
    method BeginFrame()
      requires Valid() && reader.Idle?
      modifies this`reader, this`begun, this`position
      ensures Valid() && reader == Reading(old(begun), offset, 0, 0, None) && begun == old(begun) + 1
    {
      hide Holds, HistoryOk, QueueOk, SenderOk, FileUpTo, ReaderOk, Headers, Blocks;
      IdleCounts(plan, size, begun, position, offset, headersWritten, blocksRead);
      ReaderStarts(plan, size, begun, position, offset, blocksRead);
      if begun > 0 && begun % plan.frames == 0 {
        position := 0;
      }
      reader, begun := Reading(begun, offset, 0, 0, None), begun + 1;
    }

    /** Step: reads the next block of the file into the next cell of the ring. */
    method LoadBlock()
      requires Valid() && reader.Reading? && reader.s < |plan.slots| && reader.cell.None?
      modifies this`reader, this`position, this`offset, this`blocksRead, blocks
      ensures Valid() && reader == old(reader.(cell := Some(offset))) && blocksRead == old(blocksRead) + 1
    {
      hide Holds, HistoryOk, QueueOk, SenderOk, FileUpTo, ReaderOk, Headers, Blocks, DataOf;
      var Reading(f, first, s, ch, _) := reader;
      ReadingCounts(plan, size, reader, begun, position, offset, headersWritten, blocksRead);
      ReaderLoads(plan, size, f, first, s, ch, position, offset, blocksRead);
      BlockOf(plan, blocksRead);
      HoldsOn(blocks[..], blocksRead, Blocks(plan));
      HistoryGrows(plan, size, checks, sent, headersWritten, blocksRead, headersWritten, blocksRead + 1);
      reader := Reading(f, first, s, ch, Some(offset));
      blocks[offset] := file[position];
      offset, position, blocksRead := (offset + 1) % size, position + 1, blocksRead + 1;
    }

    /** Step: writes the header of the block just read. */
    method StampHeader()
      requires Valid() && reader.Reading? && reader.cell.Some?
      modifies this`reader, this`headersWritten, headers
      ensures Valid() && reader == old(NextPacket(plan, reader.frame, reader.first, reader.s, reader.ch))
      ensures headersWritten == old(headersWritten) + 1
    {
      hide Holds, HistoryOk, QueueOk, SenderOk, FileUpTo, ReaderOk, Headers, Blocks, HeaderOf;
      var Reading(f, first, s, ch, cell) := reader;
      ReadingCounts(plan, size, reader, begun, position, offset, headersWritten, blocksRead);
      ReaderStamps(plan, size, f, first, s, ch, cell.value, position, offset, headersWritten);
      HeaderOfSerial(plan, headersWritten);
      HoldsOn(headers[..], headersWritten, Headers(plan));
      HistoryGrows(plan, size, checks, sent, headersWritten, blocksRead, headersWritten + 1, blocksRead);
      headers[cell.value] := Header(f, plan.slots[s], plan.radio * plan.channels + ch);
      reader, headersWritten := NextPacket(plan, f, first, s, ch), headersWritten + 1;
    }

    /** Step: queues the completion event of the frame. */
    method FinishFrame()
      requires Valid() && reader.Reading? && reader.s == |plan.slots|
      modifies this`reader, this`queue
      ensures Valid() && reader == Idle && queue == old(queue) + [EventOf(plan, size, begun - 1)]
    {
      hide Holds, HistoryOk, QueueOk, SenderOk, FileUpTo, ReaderOk, Headers, Blocks;
      ReadingCounts(plan, size, reader, begun, position, offset, headersWritten, blocksRead);
      ReaderFinishes(plan, size, reader.frame, reader.first, position, offset, blocksRead);
      QueueMoves(plan, size, queue, taken);
      queue := queue + [Event(reader.frame, reader.first)];
      reader := Idle;
    }

    /** The reader's loops over the slots and channels of a frame, when nothing comes between their steps. */
    method ReadFrame()
      requires Valid() && reader.Idle?
      modifies this`reader, this`begun, this`position, this`offset, this`blocksRead, this`headersWritten, this`queue,
        headers, blocks
      ensures Valid() && reader == Idle && begun == old(begun) + 1
      ensures queue == old(queue) + [EventOf(plan, size, old(begun))]
    {
      hide Valid;
      BeginFrame();
      ghost var f, first := begun - 1, offset;
      for s := 0 to |plan.slots|
        invariant Valid() && reader == Reading(f, first, s, 0, None)
        invariant begun == f + 1 && queue == old(queue)
      {
        PlanValid();
        for ch := 0 to plan.channels
          invariant Valid() && begun == f + 1 && queue == old(queue)
          invariant reader == if ch < plan.channels then Reading(f, first, s, ch, None)
                              else Reading(f, first, s + 1, 0, None)
        {
          LoadBlock();
          StampHeader();
        }
      }
      FinishFrame();
    }

    // ----- the transmitting thread -----

    /** Step: takes the next completion event, if there is one. */
    method TakeEvent() returns (ok: bool)
      requires Valid() && sender.Waiting?
      modifies this`queue, this`taken, this`sender
      ensures Valid() && (ok <==> old(queue) != [])
      ensures !ok ==> queue == old(queue) && taken == old(taken) && sender == Waiting
      ensures ok ==> queue == old(queue)[1..] && taken == old(taken) + 1
      ensures ok ==> sender == Sending(old(taken), EventOf(plan, size, old(taken)).offset, 0, 0, [])
    {
      hide Holds, HistoryOk, QueueOk, SenderOk, FileUpTo, ReaderOk, Headers, Blocks;
      if queue == [] {
        return false;
      }
      WaitingCounts(plan, size, taken, |checks|, |sent|);
      SenderTakes(plan, size, taken, |sent|);
      QueueMoves(plan, size, queue, taken);
      sender := Sending(queue[0].frame, queue[0].offset, 0, 0, []);
      queue, taken := queue[1..], taken + 1;
      return true;
    }

    /** Step: looks at the header of the slot's next channel and keeps a pointer to its block. */
    method LookAtHeader()
      requires Valid() && sender.Sending? && sender.s < |plan.slots| && sender.ch < plan.channels
      modifies this`sender, this`checks
      ensures Valid() && |checks| == |old(checks)| + 1 && checks[..|old(checks)|] == old(checks)
      ensures checks[|old(checks)|].written == headersWritten
      ensures sender == old(sender.(offset := (sender.offset + 1) % size, ch := sender.ch + 1,
                                    cells := sender.cells + [sender.offset]))
    {
      hide Holds, HistoryOk, QueueOk, SenderOk, FileUpTo, ReaderOk, Headers, Blocks, HeaderOf;
      var Sending(f, at, s, ch, cells) := sender;
      SendingFrame(plan, size, sender, taken, |checks|, |sent|);
      SenderLooks(plan, size, f, at, s, ch, cells, |checks|, |sent|);
      WrittenBounds(plan, size, reader, begun, position, offset, headersWritten, blocksRead, taken);
      CellHoldsLatest(headers[..], headersWritten, Headers(plan), |checks|);
      HeaderOfSerial(plan, Latest(|checks|, headersWritten, size));
      var header := headers[at];
      var check := Check(header, headersWritten,
                         header.slot == plan.slots[s] && header.ant == plan.channels * plan.radio + ch);
      CheckAdded(plan, size, checks, sent, headersWritten, blocksRead, check);
      sender, checks := Sending(f, (at + 1) % size, s, ch + 1, cells + [at]), checks + [check];
    }

    /** Step: hands the blocks of a slot to the radio, which reads them where they are. */
    method Transmit()
      requires Valid() && sender.Sending? && sender.s < |plan.slots| && sender.ch == plan.channels
      modifies this`sender, this`sent
      ensures Valid() && |sent| == |old(sent)| + plan.channels && SentNow(old(sent), sent, blocksRead, begun)
      ensures sender == old(sender.(s := sender.s + 1, ch := 0, cells := []))
    {
      hide Holds, HistoryOk, QueueOk, SenderOk, FileUpTo, ReaderOk, Headers, Blocks, DataOf, HeaderOf;
      var Sending(f, at, s, _, cells) := sender;
      SendingFrame(plan, size, sender, taken, |checks|, |sent|);
      SenderTransmits(plan, size, f, at, s, cells, |checks|, |sent|);
      WrittenBounds(plan, size, reader, begun, position, offset, headersWritten, blocksRead, taken);
      ghost var before := sent;
      for ch := 0 to plan.channels
        invariant |sent| == |before| + ch && SentNow(before, sent, blocksRead, begun)
        invariant HistoryOk(plan, size, checks, sent, headersWritten, blocksRead)
      {
        CellHoldsLatest(blocks[..], blocksRead, Blocks(plan), |sent|);
        BlockOf(plan, Latest(|sent|, blocksRead, size));
        var s := Sent(blocks[cells[ch]], blocksRead, begun);
        SentAdded(plan, size, checks, sent, headersWritten, blocksRead, s);
        sent := sent + [s];
      }
      sender := Sending(f, at, s + 1, 0, []);
    }

    /** Step: goes back to the queue after the last slot. */
    method FinishSending()
      requires Valid() && sender.Sending? && sender.s == |plan.slots|
      modifies this`sender
      ensures Valid() && sender == Waiting
    {
      hide Holds, HistoryOk, QueueOk, SenderOk, FileUpTo, ReaderOk, Headers, Blocks;
      SendingFrame(plan, size, sender, taken, |checks|, |sent|);
      SenderFinishes(plan, size, sender.frame, sender.offset, sender.cells, |checks|, |sent|);
      sender := Waiting;
    }

    /** The transmitter's loops over the slots and channels of a frame, when nothing comes between their steps. */
    method SendFrame() returns (ok: bool)
      requires Valid() && sender.Waiting?
      modifies this`queue, this`taken, this`sender, this`checks, this`sent
      ensures Valid() && sender == Waiting && (ok <==> old(queue) != [])
      ensures !ok ==> queue == old(queue) && checks == old(checks) && sent == old(sent)
      ensures ok ==> queue == old(queue)[1..] && taken == old(taken) + 1
      ensures |sent| == Serial(plan, taken, 0) && SentNow(old(sent), sent, blocksRead, begun)
    {
      hide Valid, Serial, SentNow;
      NothingSentNow(sent, blocksRead, begun);
      AllSent();
      ok := TakeEvent();
      if !ok {
        return;
      }
      PlanValid();
      for s := 0 to |plan.slots|
        invariant Valid() && sender.Sending? && sender.s == s && sender.ch == 0
        invariant SentNow(old(sent), sent, blocksRead, begun)
        invariant queue == old(queue)[1..] && taken == old(taken) + 1
      {
        ghost var before := sent;
        for ch := 0 to plan.channels
          invariant Valid() && sender.Sending? && sender.s == s && sender.ch == ch && sent == before
          invariant queue == old(queue)[1..] && taken == old(taken) + 1
        {
          LookAtHeader();
        }
        Transmit();
        SentNowOn(old(sent), before, sent, blocksRead, begun);
      }
      FinishSending();
      AllSent();
    }

    lemma PlanValid()
      requires Valid()
      ensures plan.Valid()
    {
    }

    lemma AllSent()
      requires Valid() && sender.Waiting?
      ensures |sent| == Serial(plan, taken, 0)
    {
      hide Holds, HistoryOk, QueueOk, FileUpTo, ReaderOk;
    }
  }

  // ----- what is sent -----

  /** End to end, in every interleaving: what is sent for frame `e`, slot index `s`, channel `h` is the block of that
      very packet, as generated for frame e modulo the generated frames, if and only if the blocks read by then are at
      most the ring's size past it.  Otherwise it is the block that took its place last, of a later frame when a frame
      fits the ring. */
  lemma SentBlockIsGeneratedIff(radio: TxRadio, e: nat, s: nat, h: nat)
    requires radio.Valid() && s < |radio.plan.slots| && h < radio.plan.channels
    requires Serial(radio.plan, e, Position(radio.plan, s, h)) < |radio.sent|
    ensures PerFrame(radio.plan) > 0
    ensures var n := Serial(radio.plan, e, Position(radio.plan, s, h));
      var sent := radio.sent[n];
      var m := Latest(n, sent.written, radio.size);
      && sent.data == DataOf(radio.plan, m)
      && (m == n <==> sent.written <= n + radio.size)
      && (m == n ==> sent.data == radio.plan.generated(e % radio.plan.frames, s, h))
      && (m != n && PerFrame(radio.plan) <= radio.size ==> e < m / PerFrame(radio.plan))
  {
    hide ReaderOk, SenderOk, QueueOk, Holds, FileUpTo, HeaderOf, DataOf, Generation;
    var p, n := radio.plan, Serial(radio.plan, e, Position(radio.plan, s, h));
    PacketAt(p, e, s, h);
    SerialDecodes(p, e, s, h);
    assert SentOk(p, radio.size, radio.sent[n], n, radio.blocksRead);
    LaterFrame(p, n, Latest(n, radio.sent[n].written, radio.size), radio.size);
  }

  /** No two blocks of the generated frames are the same. */
  ghost predicate BlocksDistinct(p: Plan) {
    forall f: nat, s: nat, h: nat, f': nat, s': nat, h': nat |
      f < p.frames && s < |p.slots| && h < p.channels && f' < p.frames && s' < |p.slots| && h' < p.channels &&
      p.generated(f, s, h) == p.generated(f', s', h') :: (f, s, h) == (f', s', h')
  }

  /** When the generated blocks all differ, an overwritten packet is noticed on the air exactly when the block that took
      its place is not another copy of the one meant. */
  lemma SentBlockIsCopyIff(radio: TxRadio, e: nat, s: nat, h: nat)
    requires radio.Valid() && s < |radio.plan.slots| && h < radio.plan.channels && BlocksDistinct(radio.plan)
    requires Serial(radio.plan, e, Position(radio.plan, s, h)) < |radio.sent|
    ensures PerFrame(radio.plan) > 0
    ensures var n := Serial(radio.plan, e, Position(radio.plan, s, h));
      var m := Latest(n, radio.sent[n].written, radio.size);
      radio.sent[n].data == radio.plan.generated(e % radio.plan.frames, s, h) <==>
      Generation(radio.plan, m) == (e % radio.plan.frames, s, h)
  {
    hide ReaderOk, SenderOk, QueueOk, Holds, FileUpTo, HeaderOf, Latest, Generation;
    var p, n := radio.plan, Serial(radio.plan, e, Position(radio.plan, s, h));
    SentBlockIsGeneratedIff(radio, e, s, h);
    GenerationInRange(p, Latest(n, radio.sent[n].written, radio.size));
  }

  lemma GenerationInRange(p: Plan, n: nat)
    requires p.Valid() && PerFrame(p) > 0
    ensures var (f, s, h) := Generation(p, n);
      f < p.frames && s < |p.slots| && h < p.channels && DataOf(p, n) == p.generated(f, s, h)
  {
    GenerationParts(p, n);
  }

  lemma LaterFrame(p: Plan, n: nat, m: nat, size: nat)
    requires PerFrame(p) > 0
    ensures n + size <= m && PerFrame(p) <= size ==> n / PerFrame(p) < m / PerFrame(p)
  {
    hide PerFrame;
    if n + size <= m && PerFrame(p) <= size {
      DivMod(n, PerFrame(p));
      assert (n / PerFrame(p) + 1) * PerFrame(p) == n / PerFrame(p) * PerFrame(p) + PerFrame(p);
      QuotientAtLeast(m, PerFrame(p), n / PerFrame(p) + 1);
    }
  }

  /** Looking at the header tells: it is the header of the packet meant if and only if the packet was still there, when
      a frame fits the ring.  The code's two assertions compare less, and hold of any packet of the same slot and
      antenna. */
  lemma HeaderIsMeantIff(radio: TxRadio, e: nat, s: nat, h: nat)
    requires radio.Valid() && s < |radio.plan.slots| && h < radio.plan.channels && PerFrame(radio.plan) <= radio.size
    requires Serial(radio.plan, e, Position(radio.plan, s, h)) < |radio.checks|
    ensures var n := Serial(radio.plan, e, Position(radio.plan, s, h));
      var check := radio.checks[n];
      && (check.header == HeaderOf(radio.plan, n) <==> check.written <= n + radio.size)
      && (check.header == HeaderOf(radio.plan, n) ==> check.asserts)
  {
    hide ReaderOk, SenderOk, QueueOk, Holds, FileUpTo, DataOf, Generation;
    var p, n := radio.plan, Serial(radio.plan, e, Position(radio.plan, s, h));
    SerialDecodes(p, e, s, h);
    assert CheckOk(p, radio.size, radio.checks[n], n, radio.headersWritten);
    LaterFrame(p, n, Latest(n, radio.checks[n].written, radio.size), radio.size);
  }

  ghost predicate SlotsDistinct(p: Plan) {
    forall a: nat, b: nat | a < |p.slots| && b < |p.slots| && p.slots[a] == p.slots[b] :: a == b
  }

  /** The code's assertions about a packet hold if and only if the packet in its place has the same position in its
      frame: one that the reader has overwritten once passes them exactly when the ring is a whole number of frames. */
  lemma AssertsHoldIff(radio: TxRadio, e: nat, s: nat, h: nat)
    requires radio.Valid() && s < |radio.plan.slots| && h < radio.plan.channels && SlotsDistinct(radio.plan)
    requires Serial(radio.plan, e, Position(radio.plan, s, h)) < |radio.checks|
    ensures PerFrame(radio.plan) > 0
    ensures var n := Serial(radio.plan, e, Position(radio.plan, s, h));
      var check := radio.checks[n];
      && (check.asserts <==>
           Latest(n, check.written, radio.size) % PerFrame(radio.plan) == n % PerFrame(radio.plan))
      && (check.written <= n + radio.size ==> check.asserts)
      && (n + radio.size < check.written <= n + 2 * radio.size ==>
            (check.asserts <==> radio.size % PerFrame(radio.plan) == 0))
  {
    hide ReaderOk, SenderOk, QueueOk, Holds, FileUpTo, DataOf, Generation, HeaderOf, PerFrame, AssertsHold, SlotsDistinct;
    var p, n := radio.plan, Serial(radio.plan, e, Position(radio.plan, s, h));
    SerialDecodes(p, e, s, h);
    assert CheckOk(p, radio.size, radio.checks[n], n, radio.headersWritten);
    var m := Latest(n, radio.checks[n].written, radio.size);
    SameHeaderIff(p, m, n);
    if n + radio.size < radio.checks[n].written <= n + 2 * radio.size {
      ModPeriod(n, radio.size);
      LatestUnique(n, n + radio.size, radio.checks[n].written, radio.size);
      SameRemainderIff(n, radio.size, PerFrame(p));
    }
  }

  lemma SameHeaderIff(p: Plan, m: nat, n: nat)
    requires p.Valid() && PerFrame(p) > 0 && SlotsDistinct(p)
    ensures AssertsHold(p, HeaderOf(p, m), n) <==> m % PerFrame(p) == n % PerFrame(p)
  {
    hide PerFrame;
    GenerationParts(p, m);
    GenerationParts(p, n);
    DivMod(m % PerFrame(p), p.channels);
    DivMod(n % PerFrame(p), p.channels);
  }

  lemma SameRemainderIff(n: nat, d: nat, k: nat)
    requires 0 < k
    ensures (n + d) % k == n % k <==> d % k == 0
  {
    DivMod(n, k);
    DivMod(d, k);
    RemainderOfSum(n, d, k, n / k, n % k, d / k, d % k);
  }

  lemma RemainderOfSum(n: nat, d: nat, k: nat, q: nat, r: nat, q': nat, r': nat)
    requires r < k && r' < k && n == r + q * k && d == r' + q' * k
    ensures (n + d) % k == r <==> r' == 0
  {
    assert (q + q') * k == q * k + q' * k;
    if r + r' < k {
      DivModUnique(n + d, k, q + q', r + r');
    } else {
      assert (q + q' + 1) * k == (q + q') * k + k;
      DivModUnique(n + d, k, q + q' + 1, r + r' - k);
    }
  }

  /** In frames, the one being read counts: if the frames from `e` to the last one begun when the block is sent fit the
      ring, the block is the one meant. */
  lemma FramesBegunFit(radio: TxRadio, e: nat, s: nat, h: nat)
    requires radio.Valid() && s < |radio.plan.slots| && h < radio.plan.channels
    requires Serial(radio.plan, e, Position(radio.plan, s, h)) < |radio.sent|
    requires var sent := radio.sent[Serial(radio.plan, e, Position(radio.plan, s, h))];
      (sent.begun - e) * PerFrame(radio.plan) <= radio.size
    ensures radio.sent[Serial(radio.plan, e, Position(radio.plan, s, h))].data ==
            radio.plan.generated(e % radio.plan.frames, s, h)
  {
    hide ReaderOk, SenderOk, QueueOk, Holds, FileUpTo, HeaderOf, DataOf, Generation;
    var p, n := radio.plan, Serial(radio.plan, e, Position(radio.plan, s, h));
    SentBlockIsGeneratedIff(radio, e, s, h);
    assert SentOk(p, radio.size, radio.sent[n], n, radio.blocksRead);
    BegunBound(p, e, radio.sent[n].begun, radio.size);
  }

  lemma BegunBound(p: Plan, e: nat, begun: nat, size: nat)
    requires (begun - e) * PerFrame(p) <= size
    ensures Serial(p, begun, 0) <= Serial(p, e, 0) + size
  {
    assert (begun - e) * PerFrame(p) == Serial(p, begun, 0) - Serial(p, e, 0);
  }

  /** Counting only frames completely read is not enough: with a ring of exactly `frames` frames, all of them read and
      none sent, the reader begins the next frame and the first block sent is that of the new frame, although every
      header that was looked at was right. */
  method Overtaken(plan: Plan, file: seq<Block>, frames: nat) returns (radio: TxRadio)
    requires plan.Valid() && 0 < |plan.slots| && 0 < frames && file == FileUpTo(plan, plan.frames)
    ensures radio.Valid() && fresh(radio) && radio.plan == plan && radio.size == frames * PerFrame(plan)
    ensures radio.begun == frames + 1 && radio.taken == 1 && |radio.checks| == |radio.sent| == plan.channels
    ensures forall n: nat | n < plan.channels :: radio.checks[n].header == HeaderOf(plan, n) && radio.checks[n].asserts
    ensures radio.sent[0].data == plan.generated(frames % plan.frames, 0, 0)
  {
    hide TxRadio.Valid, HeaderOf, PerFrame, FileUpTo;
    FramePositive(plan, frames);
    radio := new TxRadio(plan, file, frames * PerFrame(plan));
    for f := 0 to frames
      invariant radio.Valid() && fresh(radio) && fresh(radio.headers) && fresh(radio.blocks)
      invariant radio.plan == plan && radio.size == frames * PerFrame(plan)
      invariant radio.reader == Idle && radio.sender == Waiting && radio.begun == f && radio.taken == 0
      invariant |radio.queue| == f && radio.checks == [] && radio.sent == []
    {
      radio.ReadFrame();
    }
    AllWritten(radio);
    radio.BeginFrame();
    radio.LoadBlock();
    var ok := radio.TakeEvent();
    for ch := 0 to plan.channels
      invariant radio.Valid() && radio.sender.Sending? && radio.sender.s == 0 && radio.sender.ch == ch
      invariant |radio.checks| == ch && radio.sent == [] && radio.taken == 1 && radio.begun == frames + 1
      invariant radio.headersWritten == radio.size && radio.blocksRead == radio.size + 1
      invariant forall n: nat | n < ch :: radio.checks[n].written == radio.headersWritten
    {
      ghost var before := radio.checks;
      radio.LookAtHeader();
      assert forall n: nat | n < ch :: radio.checks[n] == before[n];
    }
    radio.Transmit();
    OvertakenBlock(radio, frames);
  }

  lemma AllWritten(radio: TxRadio)
    requires radio.Valid() && radio.reader == Idle
    ensures radio.headersWritten == radio.blocksRead == radio.begun * PerFrame(radio.plan)
  {
    hide SenderOk, QueueOk, Holds, HistoryOk, FileUpTo;
  }

  lemma OvertakenBlock(radio: TxRadio, frames: nat)
    requires radio.Valid() && 0 < |radio.plan.slots| && radio.size == frames * PerFrame(radio.plan)
    requires |radio.checks| == |radio.sent| == radio.plan.channels
    requires forall n: nat | n < |radio.checks| :: radio.checks[n].written == radio.size
    requires radio.sent[0].written == radio.size + 1
    ensures forall n: nat | n < |radio.checks| ::
              radio.checks[n].header == HeaderOf(radio.plan, n) && radio.checks[n].asserts
    ensures radio.sent[0].data == radio.plan.generated(frames % radio.plan.frames, 0, 0)
  {
    hide ReaderOk, SenderOk, QueueOk, Holds, FileUpTo, HeaderOf, DataOf, PerFrame;
    var p, size := radio.plan, radio.size;
    forall n: nat | n < |radio.checks| ensures radio.checks[n].header == HeaderOf(p, n) && radio.checks[n].asserts {
      assert CheckOk(p, size, radio.checks[n], n, radio.headersWritten);
    }
    assert SentOk(p, size, radio.sent[0], 0, radio.blocksRead);
    DivModUnique(size, size, 1, 0);
    DivModUnique(0, size, 0, 0);
    LatestUnique(0, size, size + 1, size);
    PositionSteps(p, 0, 0);
    PacketAt(p, frames, 0, 0);
  }

  lemma FramePositive(p: Plan, frames: nat)
    requires p.Valid() && 0 < |p.slots| && 0 < frames
    ensures 0 < PerFrame(p) <= frames * PerFrame(p)
  {
    MulMonotone(1, |p.slots|, p.channels);
    MulMonotone(1, frames, PerFrame(p));
  }

  /** The transmit buffer of the scheduler holds 80 packets for each slot of a frame, whatever the number of
      channels.  One frame always fits; 80 frames do with one channel, 40 with two. */
  lemma BufferHoldsFrames(p: Plan, slotPerFrame: nat, ahead: nat)
    requires p.Valid() && p.channels <= 2 && |p.slots| <= slotPerFrame
    requires ahead * p.channels <= SAMPLE_BUFFER_FRAME_NUM
    ensures ahead * PerFrame(p) <= SAMPLE_BUFFER_FRAME_NUM * slotPerFrame
    ensures PerFrame(p) <= SAMPLE_BUFFER_FRAME_NUM * slotPerFrame
  {
    MulMonotone(ahead * p.channels, SAMPLE_BUFFER_FRAME_NUM, |p.slots|);
    assert ahead * PerFrame(p) == ahead * p.channels * |p.slots|;
    MulMonotone(|p.slots|, slotPerFrame, SAMPLE_BUFFER_FRAME_NUM);
    MulMonotone(p.channels, SAMPLE_BUFFER_FRAME_NUM, |p.slots|);
  }

  /** Eighty frames fit if and only if a frame has no more packets than slots: with two channels, if at most half of
      the slots are uplink slots. */
  lemma EightyFramesFitIff(p: Plan, slotPerFrame: nat)
    ensures SAMPLE_BUFFER_FRAME_NUM * PerFrame(p) <= SAMPLE_BUFFER_FRAME_NUM * slotPerFrame <==>
            PerFrame(p) <= slotPerFrame
    ensures p.channels == 2 ==> (PerFrame(p) <= slotPerFrame <==> 2 * |p.slots| <= slotPerFrame)
  {
  }

  lemma BlockOf(p: Plan, n: nat)
    requires p.Valid()
    ensures Blocks(p)(n) == DataOf(p, n)
  {
  }

  lemma HeaderOfSerial(p: Plan, n: nat)
    requires p.Valid()
    ensures Headers(p)(n) == HeaderOf(p, n)
  {
  }

  lemma ReadingCounts(p: Plan, size: nat, reader: Reader, begun: nat, position: nat, offset: nat, headers: nat, blocks: nat)
    requires p.Valid() && 0 < size && reader.Reading? && ReaderOk(p, size, reader, begun, position, offset, headers, blocks)
    ensures begun == reader.frame + 1 && offset < size && blocks == headers + if reader.cell.Some? then 1 else 0
    ensures reader.cell.Some? ==> reader.cell.value < size
    ensures reader.s == |p.slots| ==> reader.ch == 0 && reader.cell.None?
  {
  }

  lemma WaitingCounts(p: Plan, size: nat, taken: nat, checks: nat, sent: nat)
    requires p.Valid() && 0 < size && SenderOk(p, size, Waiting, taken, checks, sent)
    ensures checks == sent
  {
  }

  lemma SendingFrame(p: Plan, size: nat, sender: Sender, taken: nat, checks: nat, sent: nat)
    requires p.Valid() && 0 < size && sender.Sending? && SenderOk(p, size, sender, taken, checks, sent)
    ensures taken == sender.frame + 1 && (sender.s == |p.slots| ==> sender.ch == 0)
  {
  }

  lemma IdleCounts(p: Plan, size: nat, begun: nat, position: nat, offset: nat, headers: nat, blocks: nat)
    requires p.Valid() && 0 < size && ReaderOk(p, size, Idle, begun, position, offset, headers, blocks)
    ensures headers == blocks == Serial(p, begun, 0)
  {
  }
}
