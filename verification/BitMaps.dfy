/** userprog/bitmap.cc: an array of bits packed into 32-bit words. */
module BitMaps {
  import opened Bits
  import opened Bytes

  const BITS_IN_WORD := 32

  function WordsFor(numBits: nat): nat {
    numBits / BITS_IN_WORD + (if numBits % BITS_IN_WORD > 0 then 1 else 0)
  }

  predicate TestBit(words: seq<word>, which: nat)
    requires which / BITS_IN_WORD < |words|
  {
    Bit(words[which / BITS_IN_WORD], which % BITS_IN_WORD)
  }

  /** The bits a packed map stands for */
  function Unpack(words: seq<word>, numBits: nat): (bits: seq<bool>)
    requires |words| == WordsFor(numBits)
    ensures |bits| == numBits
  {
    seq(numBits, i requires 0 <= i < numBits => TestBit(words, i))
  }

  function MarkWord(w: word, k: nat): (r: word)
    requires k < BITS_IN_WORD
    ensures forall j :: 0 <= j < BITS_IN_WORD ==> (Bit(r, j) <==> j == k || Bit(w, j))
  {
    MarkWordBits(w, k);
    Or(w, Pow2(k))
  }

  function ClearWord(w: word, k: nat): (r: word)
    requires k < BITS_IN_WORD
    ensures forall j :: 0 <= j < BITS_IN_WORD ==> (Bit(r, j) <==> j != k && Bit(w, j))
  {
    ClearWordBits(w, k);
    And(w, Not(Pow2(k), BITS_IN_WORD))
  }

  lemma MarkWordBits(w: word, k: nat)
    requires k < BITS_IN_WORD
    ensures Or(w, Pow2(k)) < WORD_LIMIT
    ensures forall j :: 0 <= j < BITS_IN_WORD ==> (Bit(Or(w, Pow2(k)), j) <==> j == k || Bit(w, j))
  {
    WordWidth();
    Pow2Mono(k, BITS_IN_WORD);
    OrBound(w, Pow2(k), BITS_IN_WORD);
    forall j | 0 <= j < BITS_IN_WORD
      ensures Bit(Or(w, Pow2(k)), j) <==> j == k || Bit(w, j)
    {
      OrBit(w, Pow2(k), j);
      ShiftedOneBit(k, j);
    }
  }

  lemma ClearWordBits(w: word, k: nat)
    requires k < BITS_IN_WORD
    ensures Pow2(k) < Pow2(BITS_IN_WORD)
    ensures And(w, Not(Pow2(k), BITS_IN_WORD)) < WORD_LIMIT
    ensures forall j :: 0 <= j < BITS_IN_WORD ==>
      (Bit(And(w, Not(Pow2(k), BITS_IN_WORD)), j) <==> j != k && Bit(w, j))
  {
    Pow2Mono(k, BITS_IN_WORD);
    var mask := Not(Pow2(k), BITS_IN_WORD);
    AndBound(w, mask);
    forall j | 0 <= j < BITS_IN_WORD
      ensures Bit(And(w, mask), j) <==> j != k && Bit(w, j)
    {
      AndBit(w, mask, j);
      NotBit(Pow2(k), BITS_IN_WORD, j);
      ShiftedOneBit(k, j);
    }
  }

  /** Number of clear bits */
  function CountClear(bits: seq<bool>): nat {
    if bits == [] then 0
    else CountClear(bits[..|bits| - 1]) + (if bits[|bits| - 1] then 0 else 1)
  }

  /** `r` is what a search for the first clear bit should answer. */
  predicate IsFirstClear(bits: seq<bool>, r: int) {
    if r == -1 then forall i :: 0 <= i < |bits| ==> bits[i]
    else 0 <= r < |bits| && !bits[r] && forall i :: 0 <= i < r ==> bits[i]
  }

  /** Marking one clear bit lowers the count by one, clearing a set one raises it. */
  lemma {:induction false} CountClearUpdate(bits: seq<bool>, i: nat, b: bool)
    requires i < |bits|
    ensures CountClear(bits[i := b]) ==
      CountClear(bits) + (if bits[i] then 1 else 0) - (if b then 1 else 0)
  {
    var n := |bits| - 1;
    if i < n {
      CountClearUpdate(bits[..n], i, b);
      assert bits[i := b][..n] == bits[..n][i := b];
    } else {
      assert bits[i := b][..n] == bits[..n];
    }
  }

  lemma {:induction false} CountClearZero(bits: seq<bool>)
    ensures CountClear(bits) == 0 <==> forall i :: 0 <= i < |bits| ==> bits[i]
  {
    if bits != [] {
      var n := |bits| - 1;
      CountClearZero(bits[..n]);
      assert forall i :: 0 <= i < n ==> bits[..n][i] == bits[i];
    }
  }

  class BitMap {
    const numBits: nat
    const words: array<word>

    ghost predicate Valid() {
      words.Length == WordsFor(numBits)
    }

    ghost function Contents(): seq<bool>
      requires Valid()
      reads words
    {
      Unpack(words[..], numBits)
    }

    constructor (nitems: nat)
      ensures Valid() && fresh(words) && numBits == nitems
      ensures forall i :: 0 <= i < numBits ==> !Contents()[i]
    {
      numBits := nitems;
      words := new word[WordsFor(nitems)];
      new;
      for i := 0 to numBits
        invariant forall j :: 0 <= j < i ==> !Contents()[j]
      {
        Clear(i);
      }
    }

    method Mark(which: nat)
      requires Valid() && which < numBits
      modifies words
      ensures Contents() == old(Contents())[which := true]
    {
      var w := which / BITS_IN_WORD;
      words[w] := MarkWord(words[w], which % BITS_IN_WORD);
      Touched(old(words[..]), words[..], which, true);
    }

    method Clear(which: nat)
      requires Valid() && which < numBits
      modifies words
      ensures Contents() == old(Contents())[which := false]
    {
      var w := which / BITS_IN_WORD;
      words[w] := ClearWord(words[w], which % BITS_IN_WORD);
      Touched(old(words[..]), words[..], which, false);
    }

    /** Changing one bit of one word changes one bit of the map. */
    lemma Touched(before: seq<word>, after: seq<word>, which: nat, b: bool)
      requires |before| == |after| == WordsFor(numBits) && which < numBits
      requires forall w :: 0 <= w < |after| && w != which / BITS_IN_WORD ==> after[w] == before[w]
      requires forall j :: 0 <= j < BITS_IN_WORD ==>
        (Bit(after[which / BITS_IN_WORD], j) <==>
         if j == which % BITS_IN_WORD then b else Bit(before[which / BITS_IN_WORD], j))
      ensures Unpack(after, numBits) == Unpack(before, numBits)[which := b]
    {
    }

    method Test(which: nat) returns (set_: bool)
      requires Valid() && which < numBits
      ensures set_ == Contents()[which]
    {
      var masked := And(words[which / BITS_IN_WORD], Pow2(which % BITS_IN_WORD));
      OneBitMask(words[which / BITS_IN_WORD], which % BITS_IN_WORD);
      set_ := masked != 0;
    }

    /** Find a clear bit and mark it; -1 when there is none. */
    method Find() returns (r: int)
      requires Valid()
      modifies words
      ensures IsFirstClear(old(Contents()), r)
      ensures Contents() == if r == -1 then old(Contents()) else old(Contents())[r := true]
    {
      for i := 0 to numBits
        invariant words[..] == old(words[..])
        invariant forall j :: 0 <= j < i ==> Contents()[j]
      {
        var used := Test(i);
        if !used {
          Mark(i);
          return i;
        }
      }
      assert Contents() == old(Contents());
      return -1;
    }

    method NumClear() returns (count: nat)
      requires Valid()
      ensures count == CountClear(Contents())
    {
      count := 0;
      for i := 0 to numBits
        invariant count == CountClear(Contents()[..i])
      {
        var used := Test(i);
        assert Contents()[..i + 1][..i] == Contents()[..i];
        if !used {
          count := count + 1;
        }
      }
      assert Contents()[..numBits] == Contents();
    }
  }
}
