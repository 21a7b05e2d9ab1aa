/**
 LOW_BIT64, the search by halving that every bitmap allocator of the kernel uses to find a clear
 bit in a word, and the word updates around it.
 */
module Bitmap {
  predicate Bit(w: bv64, b: bv7) {
    b < 64 && (w >> b) & 1 == 1
  }

  function Low(n: bv7): bv64 {
    if n > 64 then 0 else (1 << n) - 1
  }

  /** The r lowest bits of w are clear, and one of the h bits above them is set. */
  predicate Within(w: bv64, r: bv7, h: bv7) {
    r <= 64 && h <= 64 && r + h <= 64 && w & Low(r) == 0 && (w >> r) & Low(h) != 0
  }

  lemma Halve32(w: bv64)
    requires w != 0
    ensures if w & 0xFFFF_FFFF == 0 then Within(w, 32, 32) else Within(w, 0, 32)
  {
  }

  lemma Halve16(w: bv64, r: bv7)
    requires Within(w, r, 32)
    ensures if (w >> r) & 0xFFFF == 0 then Within(w, r + 16, 16) && (w >> r) >> 16 == w >> (r + 16) else Within(w, r, 16)
  {
  }

  lemma Halve8(w: bv64, r: bv7)
    requires Within(w, r, 16)
    ensures if (w >> r) & 0xFF == 0 then Within(w, r + 8, 8) && (w >> r) >> 8 == w >> (r + 8) else Within(w, r, 8)
  {
  }

  lemma Halve4(w: bv64, r: bv7)
    requires Within(w, r, 8)
    ensures if (w >> r) & 0xF == 0 then Within(w, r + 4, 4) && (w >> r) >> 4 == w >> (r + 4) else Within(w, r, 4)
  {
  }

  lemma Halve2(w: bv64, r: bv7)
    requires Within(w, r, 4)
    ensures if (w >> r) & 0x3 == 0 then Within(w, r + 2, 2) && (w >> r) >> 2 == w >> (r + 2) else Within(w, r, 2)
  {
  }

  lemma Halve1(w: bv64, r: bv7)
    requires Within(w, r, 2)
    ensures if (w >> r) & 0x1 == 0 then Within(w, r + 1, 1) && (w >> r) >> 1 == w >> (r + 1) else Within(w, r, 1)
  {
  }

  lemma LowestFound(w: bv64, r: bv7)
    requires Within(w, r, 1)
    ensures r < 64 && Bit(w, r) && w >> r != 0
  {
  }

  lemma BelowClear(w: bv64, r: bv7, b: bv7)
    requires Within(w, r, 1) && b < r
    ensures !Bit(w, b)
  {
  }

  /** LOW_BIT64: the position of the lowest set bit, or None (the source's -1) for zero. */
  method LowBit64(w: bv64) returns (found: bool, res: bv7)
    ensures found == (w != 0)
    ensures found ==> res < 64 && Bit(w, res) && forall b: bv7 :: b < res ==> !Bit(w, b)
  {
    hide *;
    var x := w;
    res := 0;
    if w != 0 {
      Halve32(w);
    }
    if x & 0xFFFF_FFFF == 0 {
      x, res := x >> 32, res + 32;
    }
    if w != 0 {
      Halve16(w, res);
    }
    if x & 0xFFFF == 0 {
      x, res := x >> 16, res + 16;
    }
    if w != 0 {
      Halve8(w, res);
    }
    if x & 0xFF == 0 {
      x, res := x >> 8, res + 8;
    }
    if w != 0 {
      Halve4(w, res);
    }
    if x & 0xF == 0 {
      x, res := x >> 4, res + 4;
    }
    if w != 0 {
      Halve2(w, res);
    }
    if x & 0x3 == 0 {
      x, res := x >> 2, res + 2;
    }
    if w != 0 {
      Halve1(w, res);
    }
    if x & 0x1 == 0 {
      x, res := x >> 1, res + 1;
    }
    if w != 0 {
      LowestFound(w, res);
      forall b: bv7 | b < res ensures !Bit(w, b) {
        BelowClear(w, res, b);
      }
    }
    found := x != 0;
  }

  lemma SetBit(w: bv64, b: bv7, c: bv7)
    requires b < 64
    ensures Bit(w | (1 << b), c) <==> Bit(w, c) || c == b
  {
  }

  lemma ClearBit(w: bv64, b: bv7, c: bv7)
    requires b < 64
    ensures Bit(w & !(1 << b), c) <==> Bit(w, c) && c != b
  {
  }

  lemma ComplementBit(w: bv64, b: bv7)
    requires b < 64
    ensures Bit(!w, b) <==> !Bit(w, b)
    ensures !w == 0 ==> Bit(w, b)
  {
  }

  /** Take the lowest clear bit of one word. */
  method TakeBit(w: bv64) returns (bit: bv7, after: bv64)
    requires !w != 0
    ensures bit < 64 && !Bit(w, bit) && forall b: bv7 :: b < bit ==> Bit(w, b)
    ensures forall b: bv7 :: Bit(after, b) <==> Bit(w, b) || b == bit
  {
    hide Bit;
    var found;
    found, bit := LowBit64(!w);
    ComplementBit(w, bit);
    forall b: bv7 | b < bit ensures Bit(w, b) {
      ComplementBit(w, b);
    }
    after := w | (1 << bit);
    forall b: bv7 ensures Bit(w | (1 << bit), b) <==> Bit(w, b) || b == bit {
      SetBit(w, bit, b);
    }
  }

  ghost predicate Filled(w: bv64) {
    forall b: bv7 :: b < 64 ==> Bit(w, b)
  }

  lemma FullWord(w: bv64)
    requires !w == 0
    ensures Filled(w)
  {
    forall b: bv7 | b < 64 ensures Bit(w, b) {
      ComplementBit(w, b);
    }
  }

  /** The loop of allocClus, inodeAlloc, pipeAlloc and segmentMapAlloc: take the first clear bit. */
  method AllocBit(words: seq<bv64>) returns (found: bool, i: nat, bit: bv7, after: seq<bv64>)
    ensures !found ==> after == words && forall j :: 0 <= j < |words| ==> Filled(words[j])
    ensures found ==> i < |words| && bit < 64 && |after| == |words| && !Bit(words[i], bit)
    ensures found ==> after == words[i := after[i]] && forall b: bv7 :: Bit(after[i], b) <==> Bit(words[i], b) || b == bit
    ensures found ==> (forall j :: 0 <= j < i ==> Filled(words[j])) && forall b: bv7 :: b < bit ==> Bit(words[i], b)
  {
    hide Bit, Filled;
    i := 0;
    while i < |words|
      invariant 0 <= i <= |words|
      invariant forall j :: 0 <= j < i ==> Filled(words[j])
    {
      if !words[i] != 0 {
        var w;
        bit, w := TakeBit(words[i]);
        return true, i, bit, words[i := w];
      }
      FullWord(words[i]);
      i := i + 1;
    }
    return false, 0, 0, words;
  }

  /** inodeFree, freeClus, pipeFree, segmentMapFree. */
  method FreeBit(words: seq<bv64>, i: nat, bit: bv7) returns (after: seq<bv64>)
    requires i < |words| && bit < 64
    ensures |after| == |words|
    ensures forall j, b: bv7 :: 0 <= j < |words| && b < 64 ==>
              (Bit(after[j], b) <==> Bit(words[j], b) && !(j == i && b == bit))
  {
    hide Bit;
    after := words[i := words[i] & !(1 << bit)];
    forall b: bv7 ensures Bit(words[i] & !(1 << bit), b) <==> Bit(words[i], b) && b != bit {
      ClearBit(words[i], bit, b);
    }
  }
}
