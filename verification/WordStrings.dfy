/**
 The user library's word-at-a-time string scans, built on one subtraction that tells whether a
 64-bit word holds a zero byte.
 */
module WordStrings {
  const ONES: bv64 := 0x0101010101010101
  const HIGHS: bv64 := 0x8080808080808080
  const WORD := 8

  type Octet = b: bv64 | b < 256

  /** HASZERO. */
  function HasZero(x: bv64): bv64 { (x - ONES) & !x & HIGHS }

  /** Byte a below the bytes of r. */
  function Cons(a: Octet, r: bv64): bv64 { a | (r << 8) }

  /** Eight bytes as a little-endian word. */
  function Join(a: Octet, b: Octet, c: Octet, d: Octet, e: Octet, f: Octet, g: Octet, h: Octet): bv64 {
    Cons(a, Cons(b, Cons(c, Cons(d, Cons(e, Cons(f, Cons(g, h)))))))
  }

  /** The trick is exact: no borrow raises a false alarm. */
  lemma ZeroByteIff(a: Octet, b: Octet, c: Octet, d: Octet, e: Octet, f: Octet, g: Octet, h: Octet)
    ensures HasZero(Join(a, b, c, d, e, f, g, h)) != 0 <==>
            (a == 0 || b == 0 || c == 0 || d == 0 || e == 0 || f == 0 || g == 0 || h == 0)
  {
  }

  /** ONES * c for a byte c: that byte eight times. */
  function Spread(c: Octet): bv64 { ONES * c }

  lemma SpreadJoin(x: Octet)
    ensures Spread(x) == Join(x, x, x, x, x, x, x, x)
  {
  }

  function Xor(a: bv64, b: bv64): bv64 { a ^ b }

  function Differ(a: Octet, x: Octet): (d: Octet)
    ensures d == 0 <==> a == x
    ensures d == Xor(a, x)
  {
    a ^ x
  }

  lemma XorCons(a: Octet, x: Octet, r: bv64, s: bv64)
    ensures Xor(Cons(a, r), Cons(x, s)) == Cons(Differ(a, x), Xor(r, s))
  {
  }

  /** Xor goes byte by byte. */
  lemma XorJoin(a: Octet, b: Octet, c: Octet, d: Octet, e: Octet, f: Octet, g: Octet, h: Octet, x: Octet)
    ensures Xor(Join(a, b, c, d, e, f, g, h), Spread(x))
            == Join(Differ(a, x), Differ(b, x), Differ(c, x), Differ(d, x), Differ(e, x), Differ(f, x), Differ(g, x), Differ(h, x))
  {
    SpreadJoin(x);
    hide Cons, Xor, Differ, Spread;
    var r7, s7 := Cons(g, h), Cons(x, x);
    var r6, s6 := Cons(f, r7), Cons(x, s7);
    var r5, s5 := Cons(e, r6), Cons(x, s6);
    var r4, s4 := Cons(d, r5), Cons(x, s5);
    var r3, s3 := Cons(c, r4), Cons(x, s4);
    var r2, s2 := Cons(b, r3), Cons(x, s3);
    XorCons(g, x, h, x);
    XorCons(f, x, r7, s7);
    XorCons(e, x, r6, s6);
    XorCons(d, x, r5, s5);
    XorCons(c, x, r4, s4);
    XorCons(b, x, r3, s3);
    XorCons(a, x, r2, s2);
  }

  /** HASZERO(*w ^ ONES * c) looks for the byte c. */
  lemma JoinHolds(a: Octet, b: Octet, c: Octet, d: Octet, e: Octet, f: Octet, g: Octet, h: Octet, x: Octet)
    ensures HasZero(Xor(Join(a, b, c, d, e, f, g, h), Spread(x))) != 0 <==>
            (a == x || b == x || c == x || d == x || e == x || f == x || g == x || h == x)
  {
    hide HasZero, Join, Xor, Spread, Differ;
    XorJoin(a, b, c, d, e, f, g, h, x);
    ZeroByteIff(Differ(a, x), Differ(b, x), Differ(c, x), Differ(d, x), Differ(e, x), Differ(f, x), Differ(g, x), Differ(h, x));
  }

  /** The word of memory at address i. */
  function WordAt(mem: seq<Octet>, i: nat): bv64
    requires i + WORD <= |mem|
  {
    Join(mem[i], mem[i + 1], mem[i + 2], mem[i + 3], mem[i + 4], mem[i + 5], mem[i + 6], mem[i + 7])
  }

  lemma WordHolds(mem: seq<Octet>, i: nat, c: Octet)
    requires i + WORD <= |mem|
    ensures HasZero(Xor(WordAt(mem, i), Spread(c))) != 0 <==> exists k :: i <= k < i + WORD && mem[k] == c
  {
    hide HasZero, Join, Xor, Spread;
    JoinHolds(mem[i], mem[i + 1], mem[i + 2], mem[i + 3], mem[i + 4], mem[i + 5], mem[i + 6], mem[i + 7], c);
  }

  lemma WordHasZero(mem: seq<Octet>, i: nat)
    requires i + WORD <= |mem|
    ensures HasZero(WordAt(mem, i)) != 0 <==> exists k :: i <= k < i + WORD && mem[k] == 0
  {
    hide HasZero, Join;
    ZeroByteIff(mem[i], mem[i + 1], mem[i + 2], mem[i + 3], mem[i + 4], mem[i + 5], mem[i + 6], mem[i + 7]);
  }

  /**
   strlen of the string at address s: byte steps up to a word boundary, word steps to the word with
   the zero, byte steps to the zero. Whole words are read, so memory must reach the end of that word.
   */
  method Strlen(mem: seq<Octet>, s: nat, ghost z: nat) returns (n: nat)
    requires s <= z < |mem| && mem[z] == 0 && |mem| % WORD == 0 && forall k :: s <= k < z ==> mem[k] != 0
    ensures n == z - s
  {
    hide HasZero, WordAt;
    var p := s;
    while p % WORD != 0
      invariant s <= p <= z
      decreases z - p
    {
      if mem[p] == 0 {
        return p - s;
      }
      p := p + 1;
    }
    var w := p;
    WordInside(w, |mem|);
    WordHasZero(mem, w);
    while HasZero(WordAt(mem, w)) == 0
      invariant p <= w <= z && w % WORD == 0 && w + WORD <= |mem|
      invariant HasZero(WordAt(mem, w)) != 0 <==> exists k :: w <= k < w + WORD && mem[k] == 0
      decreases z - w
    {
      w := w + WORD;
      WordInside(w, |mem|);
      WordHasZero(mem, w);
    }
    p := w;
    while mem[p] != 0
      invariant s <= p <= z
      decreases z - p
    {
      p := p + 1;
    }
    return p - s;
  }

  lemma WordInside(w: nat, n: nat)
    requires w % WORD == 0 && n % WORD == 0 && w < n
    ensures w + WORD <= n
  {
  }

  /** memchr: the address of the first byte c among the n bytes from s on, or -1. */
  method Memchr(mem: seq<Octet>, s: nat, c: Octet, n: nat) returns (r: int)
    requires s + n <= |mem|
    ensures r == -1 ==> forall k :: s <= k < s + n ==> mem[k] != c
    ensures r != -1 ==> s <= r < s + n && mem[r] == c && forall k :: s <= k < r ==> mem[k] != c
  {
    hide HasZero, WordAt, Xor, Spread;
    var p: nat, m := s, n;
    while p % WORD != 0 && m != 0 && mem[p] != c
      invariant s <= p && 0 <= m && p + m == s + n && forall k :: s <= k < p ==> mem[k] != c
      decreases m
    {
      p, m := p + 1, m - 1;
    }
    if m != 0 && mem[p] != c {
      while m >= WORD && HasZero(Xor(WordAt(mem, p), Spread(c))) == 0
        invariant s <= p && 0 <= m && p + m == s + n && forall k :: s <= k < p ==> mem[k] != c
        decreases m
      {
        WordHolds(mem, p, c);
        p, m := p + WORD, m - WORD;
      }
    }
    while m != 0 && mem[p] != c
      invariant s <= p && 0 <= m && p + m == s + n && forall k :: s <= k < p ==> mem[k] != c
      decreases m
    {
      p, m := p + 1, m - 1;
    }
    return if m != 0 then p else -1;
  }
}
