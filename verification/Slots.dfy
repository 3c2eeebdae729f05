/** Frame schedules as strings with one character a slot, and the slot lists read off them. */
module Slots {
  import opened Common

  /** `slots` lists, in increasing order, exactly the positions of `c` in `frame`. */
  ghost predicate IsSlots(frame: string, c: char, slots: seq<nat>) {
    && (forall k: nat | k < |slots| :: slots[k] < |frame| && frame[slots[k]] == c)
    && Increasing(slots)
    && (forall t: nat | t < |frame| && frame[t] == c :: t in slots)
  }

  method LoadSlots(frames: seq<string>, c: char) returns (slots: seq<seq<nat>>)
    ensures |slots| == |frames|
    ensures forall r: nat | r < |frames| :: IsSlots(frames[r], c, slots[r])
  {
    slots := [];
    for r := 0 to |frames|
      invariant |slots| == r
      invariant forall q: nat | q < r :: IsSlots(frames[q], c, slots[q])
    {
      var frame := frames[r];
      var output: seq<nat> := [];
      for slot := 0 to |frame|
        invariant forall k: nat | k < |output| :: output[k] < slot <= |frame| && frame[output[k]] == c
        invariant Increasing(output)
        invariant forall t: nat | t < slot && frame[t] == c :: t in output
      {
        if frame[slot] == c {
          output := output + [slot];
        }
      }
      slots := slots + [output];
    }
  }

  /** The position of `slot` in its list, which is the row its samples are stored in, or -1. */
  method SlotIndex(slots: seq<nat>, slot: nat) returns (index: int)
    ensures index == -1 <==> slot !in slots
    ensures index != -1 ==> 0 <= index < |slots| && slots[index] == slot
  {
    index := 0;
    while index < |slots|
      invariant 0 <= index <= |slots|
      invariant slot !in slots[..index]
    {
      if slots[index] == slot {
        return;
      }
      index := index + 1;
    }
    assert slots[..index] == slots;
    index := -1;
  }

  /** Lists that agree below `k` have the entry at `k` of one not before `k` in the other. */
  lemma FoundFrom(a: seq<nat>, b: seq<nat>, k: nat) returns (i: nat)
    requires Increasing(a) && k < |a| && k <= |b| && a[k] in b
    requires forall j: nat | j < k :: a[j] == b[j]
    ensures k <= i < |b| && b[i] == a[k]
  {
    assert forall j: nat | j < k :: b[j] != a[k] by {
      assert forall j: nat | j < k :: a[j] < a[k];
    }
    i :| i < |b| && b[i] == a[k];
  }

  lemma SlotsPrefix(frame: string, c: char, a: seq<nat>, b: seq<nat>)
    requires IsSlots(frame, c, a) && IsSlots(frame, c, b)
    ensures |a| <= |b| && forall j: nat | j < |a| :: a[j] == b[j]
  {
    var k := 0;
    while k < |a|
      invariant k <= |a| && k <= |b|
      invariant forall j: nat | j < k :: a[j] == b[j]
    {
      var i := FoundFrom(a, b, k);
      var l := FoundFrom(b, a, k);
      assert b[k] <= b[i] && a[k] <= a[l];
      k := k + 1;
    }
  }

  /** A frame determines its slot list. */
  lemma SlotsUnique(frame: string, c: char, a: seq<nat>, b: seq<nat>)
    requires IsSlots(frame, c, a) && IsSlots(frame, c, b)
    ensures a == b
  {
    SlotsPrefix(frame, c, a, b);
    SlotsPrefix(frame, c, b, a);
  }

  ghost predicate Shape(frames: seq<string>, radios: nat, length: nat) {
    |frames| == radios && forall r: nat | r < radios :: |frames[r]| == length
  }

  function Put(frames: seq<string>, r: nat, t: nat, c: char): seq<string>
    requires r < |frames| && t < |frames[r]|
  {
    frames[r := frames[r][t := c]]
  }

  /** Writes `c` at `count` slots from `first` on. */
  method Fill(frame: string, first: nat, count: nat, c: char) returns (filled: string)
    requires first + count <= |frame|
    ensures |filled| == |frame|
    ensures forall t: nat | t < |frame| :: filled[t] == if first <= t < first + count then c else frame[t]
  {
    filled := frame;
    for k := 0 to count
      invariant |filled| == |frame|
      invariant forall t: nat | t < |frame| :: filled[t] == if first <= t < first + k then c else frame[t]
    {
      filled := filled[first + k := c];
    }
  }
}
