/** The steps of the receive path that touch a slot's mark, done on the marks as they are stored. */
module InUseSteps {
  import opened Common
  import opened InUseBits
  import opened ReceiveRing
  import opened ReceiveRingInvariant

  /** The receive threads' buffers hold the marks of the state. */
  ghost predicate Stores(c: Config, buffers: seq<SampleBuffer>, s: State)
    requires Shaped(c, s)
    reads buffers, set b | b in buffers :: b.words
  {
    && |buffers| == |c.packets|
    && (forall t: nat, u: nat | t < u < |buffers| :: buffers[t].words != buffers[u].words)
    && forall t: nat | t < |buffers| ::
         buffers[t].Valid() && buffers[t].size == c.ringSize && buffers[t].Marks() == s.inUse[t]
  }

  method NewBuffers(c: Config) returns (buffers: seq<SampleBuffer>)
    requires c.Valid()
    ensures Stores(c, buffers, Initial(c))
    ensures forall b | b in buffers :: fresh(b) && fresh(b.words)
  {
    buffers := [];
    for t := 0 to |c.packets|
      invariant |buffers| == t
      invariant forall b | b in buffers :: fresh(b) && fresh(b.words)
      invariant forall t: nat, u: nat | t < u < |buffers| :: buffers[t].words != buffers[u].words
      invariant forall u: nat | u < t :: buffers[u].Valid() && buffers[u].size == c.ringSize &&
                                         buffers[u].Marks() == seq(c.ringSize, _ => false)
    {
      var b := new SampleBuffer(c.ringSize);
      buffers := buffers + [b];
    }
  }

  /** Reserving a slot: the word's old bit tells whether the step ends the program, and the stored marks are those of
      the state after it. */
  method FetchOrStep(c: Config, buffers: seq<SampleBuffer>, t: nat, i: nat, ghost s: State) returns (wasSet: bool)
    requires Shaped(c, s) && Stores(c, buffers, s) && t < |c.packets| && i < c.ringSize
    requires s.receivers[t].phase.Reserving? && s.receivers[t].phase.taken < c.packets[t]
    requires i == s.receivers[t].cursor + s.receivers[t].phase.taken
    modifies buffers[t].words
    ensures Stores(c, buffers, DoFetchOr(c, s, t))
    ensures DoFetchOr(c, s, t) == if wasSet then Abort(s, BufferFull) else
      SetReceiver(SetBit(s, t, i, true), t, s.receivers[t].(phase := Reserving(s.receivers[t].phase.taken + 1)))
  {
    hide SampleBuffer.Marks, DoFetchOr;
    FetchOrSets(c, s, t, i);
    wasSet := buffers[t].FetchOr(i);
  }

  lemma FetchOrSets(c: Config, s: State, t: nat, i: nat)
    requires Shaped(c, s) && t < |c.packets| && i < c.ringSize
    requires s.receivers[t].phase.Reserving? && s.receivers[t].phase.taken < c.packets[t]
    requires i == s.receivers[t].cursor + s.receivers[t].phase.taken
    ensures DoFetchOr(c, s, t).inUse == s.inUse[t := s.inUse[t][i := true]]
    ensures DoFetchOr(c, s, t) == if s.inUse[t][i] then Abort(s, BufferFull) else
      SetReceiver(SetBit(s, t, i, true), t, s.receivers[t].(phase := Reserving(s.receivers[t].phase.taken + 1)))
  {
    assert s.inUse[t][i] ==> s.inUse[t][i := true] == s.inUse[t];
  }

  /** Giving a slot back unused: the step ends the program exactly when the old bit was not set. */
  method FetchAndStep(c: Config, buffers: seq<SampleBuffer>, t: nat, i: nat, ghost s: State) returns (wasSet: bool)
    requires Shaped(c, s) && Stores(c, buffers, s) && t < |c.packets| && i < c.ringSize
    requires s.receivers[t].phase.Releasing? && i == s.receivers[t].cursor + s.receivers[t].phase.freed
    modifies buffers[t].words
    ensures Stores(c, buffers, DoFetchAnd(c, s, t))
    ensures DoFetchAnd(c, s, t).status == if wasSet then s.status else Aborted(FreedWhenFree)
  {
    hide SampleBuffer.Marks, DoFetchAnd;
    FetchAndClears(c, s, t, i);
    wasSet := buffers[t].FetchAnd(i);
  }

  lemma FetchAndClears(c: Config, s: State, t: nat, i: nat)
    requires Shaped(c, s) && t < |c.packets| && i < c.ringSize
    requires s.receivers[t].phase.Releasing? && i == s.receivers[t].cursor + s.receivers[t].phase.freed
    ensures DoFetchAnd(c, s, t).inUse == s.inUse[t := s.inUse[t][i := false]]
    ensures DoFetchAnd(c, s, t).status == if s.inUse[t][i] then s.status else Aborted(FreedWhenFree)
  {
    assert !s.inUse[t][i] ==> s.inUse[t][i := false] == s.inUse[t];
  }

  lemma FreeClears(c: Config, s: State, r: nat, offset: nat)
    requires Inv(c, s) && r < c.recorders
    requires s.recorders[r].busy.Some? && s.recorders[r].written && offset == s.recorders[r].busy.value.offset
    ensures Shaped(c, s)
    ensures var t, i := BufferId(c, offset), BufferOffset(c, offset);
      t < |c.packets| && i < c.ringSize && DoFree(c, s, r).inUse == s.inUse[t := s.inUse[t][i := false]]
  {
    assert RecorderOk(c, s.cells, r, s.recorders[r]);
    AddressEncodes(c, offset);
  }

  /** A recorder frees the slot of the task it has recorded. */
  method FreeStep(c: Config, buffers: seq<SampleBuffer>, r: nat, offset: nat, ghost s: State)
    requires Inv(c, s) && Stores(c, buffers, s) && r < c.recorders
    requires s.recorders[r].busy.Some? && s.recorders[r].written && offset == s.recorders[r].busy.value.offset
    modifies if BufferId(c, offset) < |buffers| then {buffers[BufferId(c, offset)].words} else {}
    ensures Stores(c, buffers, DoFree(c, s, r))
  {
    hide SampleBuffer.Marks, Inv, DoFree;
    FreeClears(c, s, r, offset);
    var t, i := BufferId(c, offset), BufferOffset(c, offset);
    var _ := buffers[t].FetchAnd(i);
  }
}
