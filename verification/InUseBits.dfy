/** The in-use marks of one receive buffer as they are stored: four bits to an atomic int, because the
    code divides slot numbers by the size of an int in bytes. */
module InUseBits {

  const BYTES_PER_INT := 4

  type Word = bv32

  predicate OneBit(m: Word) { m == 1 || m == 2 || m == 4 || m == 8 }

  predicate Hits(w: Word, m: Word) { w & m != 0 }

  function With(w: Word, m: Word): Word { w | m }

  function Without(w: Word, m: Word): Word { w & !m }

  lemma OrMask(w: Word, m: Word, n: Word)
    requires OneBit(m) && OneBit(n)
    ensures Hits(With(w, m), n) <==> m == n || Hits(w, n)
  {
  }

  lemma AndNotMask(w: Word, m: Word, n: Word)
    requires OneBit(m) && OneBit(n)
    ensures Hits(Without(w, m), n) <==> m != n && Hits(w, n)
  {
  }

  /** The bit of slot `i` in its word. */
  function Mask(i: nat): (m: Word)
    ensures OneBit(m) && m == (1 as Word) << (i % BYTES_PER_INT)
  {
    match i % BYTES_PER_INT
    case 0 => 1
    case 1 => 2
    case 2 => 4
    case _ => 8
  }

  predicate IsSet(w: Word, i: nat) { Hits(w, Mask(i)) }

  lemma MasksDiffer(i: nat, j: nat)
    ensures Mask(i) == Mask(j) <==> i % BYTES_PER_INT == j % BYTES_PER_INT
  {
  }

  lemma OrSetsOne(w: Word, i: nat, j: nat)
    ensures IsSet(With(w, Mask(i)), j) <==> i % BYTES_PER_INT == j % BYTES_PER_INT || IsSet(w, j)
  {
    hide Mask, Hits, With, OneBit;
    MasksDiffer(i, j);
    OrMask(w, Mask(i), Mask(j));
  }

  lemma AndClearsOne(w: Word, i: nat, j: nat)
    ensures IsSet(Without(w, Mask(i)), j) <==> i % BYTES_PER_INT != j % BYTES_PER_INT && IsSet(w, j)
  {
    hide Mask, Hits, Without, OneBit;
    MasksDiffer(i, j);
    AndNotMask(w, Mask(i), Mask(j));
  }

  class SampleBuffer {
    const size: nat
    const words: array<Word>

    ghost predicate Valid()
      reads this
    {
      words.Length == (size + BYTES_PER_INT - 1) / BYTES_PER_INT
    }

    /** The marks of all slots, as the receive path's step system keeps them. */
    ghost function Marks(): (marks: seq<bool>)
      requires Valid()
      reads this, words
      ensures |marks| == size
    {
      seq(size, i requires 0 <= i < size reads this, words requires Valid() => IsSet(words[i / BYTES_PER_INT], i))
    }

    constructor (size: nat)
      ensures Valid() && this.size == size && fresh(words)
      ensures Marks() == seq(size, _ => false)
    {
      this.size := size;
      words := new Word[(size + BYTES_PER_INT - 1) / BYTES_PER_INT](_ => 0);
    }

    /** atomic_fetch_or of one slot's bit: reports whether it was set, sets it, and changes no other. */
    method FetchOr(i: nat) returns (wasSet: bool)
      requires Valid() && i < size
      modifies words
      ensures wasSet == old(Marks()[i])
      ensures Marks() == old(Marks())[i := true]
    {
      hide IsSet, Mask, With, Without;
      wasSet := IsSet(words[i / BYTES_PER_INT], i);
      ghost var before := words[i / BYTES_PER_INT];
      words[i / BYTES_PER_INT] := With(words[i / BYTES_PER_INT], Mask(i));
      forall j | 0 <= j < size ensures Marks()[j] == old(Marks())[i := true][j] {
        OrSetsOne(before, i, j);
        SameSlot(i, j);
      }
    }

    /** atomic_fetch_and with the complement of one slot's bit. */
    method FetchAnd(i: nat) returns (wasSet: bool)
      requires Valid() && i < size
      modifies words
      ensures wasSet == old(Marks()[i])
      ensures Marks() == old(Marks())[i := false]
    {
      hide IsSet, Mask, With, Without;
      wasSet := IsSet(words[i / BYTES_PER_INT], i);
      ghost var before := words[i / BYTES_PER_INT];
      words[i / BYTES_PER_INT] := Without(words[i / BYTES_PER_INT], Mask(i));
      forall j | 0 <= j < size ensures Marks()[j] == old(Marks())[i := false][j] {
        AndClearsOne(before, i, j);
        SameSlot(i, j);
      }
    }
  }

  /** Word number and bit number together tell slots apart. */
  lemma SameSlot(i: nat, j: nat)
    ensures i == j <==> i / BYTES_PER_INT == j / BYTES_PER_INT && i % BYTES_PER_INT == j % BYTES_PER_INT
  {
  }
}
