/**
 The 64-bit words behind page-table entries. The other modules speak of a physical page and a set
 of permissions; here the header's shifts and masks are shown to pack and unpack exactly that, and
 the kernel's bit operations on words to be the changes of permissions used elsewhere.
 */
module PteWords {
  import opened PageTables
  import opened KernelMemory
  import opened AddressSpaces

  const VALID: bv64 := 1
  const READ: bv64 := 2
  const WRITE: bv64 := 4
  const EXECUTE: bv64 := 8
  const USER: bv64 := 0x10
  const ACCESSED: bv64 := 0x40
  const DIRTY: bv64 := 0x80
  const COW: bv64 := 0x100
  const SHM: bv64 := 0x200
  const FIELD: bv64 := 0x3F_FFFF_FFFF_FC00

  /** A page number of the 44 bits that a word has room for. */
  type Ppn = n: bv64 | n < 0x1000_0000_0000

  // ----- the header's macros ----------------------------------------------------------------

  function Pa2Ppn(pa: bv64): bv64 { pa >> 12 }

  function Ppn2Pa(ppn: bv64): bv64 { ppn << 12 }

  function Pa2Pte(pa: bv64): bv64 { Pa2Ppn(pa) << 10 }

  function Pte2Ppn(pte: bv64): (n: Ppn) { (pte >> 10) & 0xFFF_FFFF_FFFF }

  function Pte2Pa(pte: bv64): bv64 { Ppn2Pa(Pte2Ppn(pte)) }

  function Pte2Perm(pte: bv64): bv64 { pte & !FIELD }

  // ----- permissions as bits ----------------------------------------------------------------

  function Flag(b: bool, bit: bv64): bv64 { if b then bit else 0 }

  function Bits(p: Perm): bv64 {
    Flag(p.r, READ) | Flag(p.w, WRITE) | Flag(p.x, EXECUTE) | Flag(p.u, USER)
    | Flag(p.a, ACCESSED) | Flag(p.d, DIRTY) | Flag(p.cow, COW) | Flag(p.shm, SHM)
  }

  /** The permissions that a word grants. */
  function PermOf(w: bv64): Perm {
    Perm(w & READ != 0, w & WRITE != 0, w & EXECUTE != 0, w & USER != 0,
         w & ACCESSED != 0, w & DIRTY != 0, w & COW != 0, w & SHM != 0)
  }

  /** The word of a valid entry for the page at pa: what pageWalk, pageInsert and kernelPageMap store. */
  function Stored(pa: bv64, perm: bv64): bv64 { Pa2Pte(pa) | perm | VALID }

  function WordOf(ppn: Ppn, p: Perm): bv64 { Stored(Ppn2Pa(ppn), Bits(p)) }

  lemma WordIs(ppn: Ppn, p: Perm)
    ensures WordOf(ppn, p) == Stored(Ppn2Pa(ppn), Bits(p))
  {
  }

  // ----- packing and unpacking --------------------------------------------------------------

  lemma PermRoundTrip(p: Perm)
    ensures PermOf(Bits(p)) == p && Bits(p) & FIELD == 0 && Bits(p) & VALID == 0 && Bits(p) < 0x400
  {
  }

  lemma StoredParts(ppn: Ppn, perm: bv64)
    requires perm < 0x400
    ensures var w := Stored(Ppn2Pa(ppn), perm);
            Pte2Ppn(w) == ppn && Pte2Pa(w) == Ppn2Pa(ppn) && Pte2Perm(w) == perm | VALID && w & VALID != 0
  {
  }

  lemma ValidIsNoPerm(perm: bv64)
    ensures PermOf(perm | VALID) == PermOf(perm)
  {
  }

  lemma PermBelow(w: bv64)
    ensures PermOf(Pte2Perm(w)) == PermOf(w)
  {
  }

  /** A stored entry is valid and gives back its page, its page's address and its permissions. */
  lemma WordRoundTrip(ppn: Ppn, p: Perm)
    ensures var w := WordOf(ppn, p);
            w & VALID != 0 && Pte2Ppn(w) == ppn && Pte2Pa(w) == Ppn2Pa(ppn) && PermOf(w) == p && Pte2Perm(w) == Bits(p) | VALID
  {
    PermRoundTrip(p);
    StoredParts(ppn, Bits(p));
    ValidIsNoPerm(Bits(p));
    PermBelow(WordOf(ppn, p));
  }

  /** So different entries have different words, and none of them is the empty word. */
  lemma WordInjective(m: Ppn, p: Perm, n: Ppn, q: Perm)
    ensures WordOf(m, p) == WordOf(n, q) ==> m == n && p == q
    ensures WordOf(m, p) != 0
  {
    WordRoundTrip(m, p);
    WordRoundTrip(n, q);
  }

  /**
   The bits are where section 4.4.1 of the RISC-V Privileged Architecture 20211203 has them, with the
   kernel's two marks in the bits left to software: V 0, R 1, W 2, X 3, U 4, A 6, D 7, then the page
   number from bit 10 to bit 53. Everything else is zero, the global bit too.
   */
  lemma WordLayout(ppn: Ppn, p: Perm)
    ensures var w := WordOf(ppn, p);
            && w % 2 == 1 && (w / 2 % 2 == 1 <==> p.r) && (w / 4 % 2 == 1 <==> p.w) && (w / 8 % 2 == 1 <==> p.x)
            && (w / 16 % 2 == 1 <==> p.u) && w / 32 % 2 == 0 && (w / 64 % 2 == 1 <==> p.a) && (w / 128 % 2 == 1 <==> p.d)
            && (w / 256 % 2 == 1 <==> p.cow) && (w / 512 % 2 == 1 <==> p.shm) && w / 1024 == ppn
  {
    LowBits(p);
    assert Pa2Pte(Ppn2Pa(ppn)) == ppn * 1024;
    SplitWord(ppn, Bits(p));
  }

  lemma LowBits(p: Perm)
    ensures var b := Bits(p);
            && b < 1024 && b % 2 == 0 && (b / 2 % 2 == 1 <==> p.r) && (b / 4 % 2 == 1 <==> p.w) && (b / 8 % 2 == 1 <==> p.x)
            && (b / 16 % 2 == 1 <==> p.u) && b / 32 % 2 == 0 && (b / 64 % 2 == 1 <==> p.a) && (b / 128 % 2 == 1 <==> p.d)
            && (b / 256 % 2 == 1 <==> p.cow) && (b / 512 % 2 == 1 <==> p.shm)
  {
  }

  lemma SplitWord(ppn: Ppn, b: bv64)
    requires b < 1024 && b % 2 == 0 && Pa2Pte(Ppn2Pa(ppn)) == ppn * 1024
    ensures var w := Stored(Ppn2Pa(ppn), b);
            && w / 1024 == ppn && w % 2 == 1 && w / 2 % 2 == b / 2 % 2 && w / 4 % 2 == b / 4 % 2 && w / 8 % 2 == b / 8 % 2
            && w / 16 % 2 == b / 16 % 2 && w / 32 % 2 == b / 32 % 2 && w / 64 % 2 == b / 64 % 2 && w / 128 % 2 == b / 128 % 2
            && w / 256 % 2 == b / 256 % 2 && w / 512 % 2 == b / 512 % 2
  {
  }

  /** The word that pageWalk links a table with: page number and valid bit, a pointer to the hardware. */
  lemma TableWord(ppn: Ppn)
    ensures WordOf(ppn, TABLE_PERM) == ppn * 1024 + 1
  {
  }

  // ----- the kernel's operations on words -----------------------------------------------------

  /** fork's marking of a parent's entry, on the word. */
  function ForkWord(w: bv64): bv64 {
    if w & WRITE != 0 && w & SHM == 0 then (w | COW) & !WRITE else w
  }

  lemma ForkPerm(w: bv64)
    ensures PermOf(ForkWord(w)) == Cowed(PermOf(w))
    ensures Pte2Ppn(ForkWord(w)) == Pte2Ppn(w) && ForkWord(w) & VALID == w & VALID
  {
  }

  lemma CowedBits(p: Perm)
    ensures Bits(Cowed(p)) == if p.w && !p.shm then (Bits(p) | COW) & !WRITE else Bits(p)
  {
  }

  lemma MarkStored(ppn: Ppn, perm: bv64)
    ensures (Stored(Ppn2Pa(ppn), perm) | COW) & !WRITE == Stored(Ppn2Pa(ppn), (perm | COW) & !WRITE)
  {
  }

  /** It writes the word of the marked permissions. */
  lemma ForkWrites(ppn: Ppn, p: Perm)
    ensures ForkWord(WordOf(ppn, p)) == WordOf(ppn, Cowed(p))
  {
    WordRoundTrip(ppn, p);
    CowedBits(p);
    MarkStored(ppn, Bits(p));
    assert PermOf(WordOf(ppn, p)).w == p.w && PermOf(WordOf(ppn, p)).shm == p.shm;
  }

  lemma DirtyBits(p: Perm)
    ensures Bits(AccessedDirty(p)) == Bits(p) | ACCESSED | DIRTY
  {
  }

  lemma StoredDirty(pa: bv64, perm: bv64, b: bv64, c: bv64)
    requires perm == b | VALID && c == b | ACCESSED | DIRTY
    ensures Stored(pa, perm | (ACCESSED | DIRTY)) == Stored(pa, c)
  {
  }

  /** pageMap of the child: the word copied from the parent's, accessed and dirty. */
  lemma ForkCopies(ppn: Ppn, p: Perm)
    ensures var w := WordOf(ppn, p);
            Stored(Pte2Pa(w), Pte2Perm(w) | (ACCESSED | DIRTY)) == WordOf(ppn, AccessedDirty(p))
  {
    hide *;
    WordRoundTrip(ppn, p);
    DirtyBits(p);
    WordIs(ppn, AccessedDirty(p));
    StoredDirty(Pte2Pa(WordOf(ppn, p)), Pte2Perm(WordOf(ppn, p)), Bits(p), Bits(AccessedDirty(p)));
  }

  lemma SetWrite(p: Perm)
    ensures Bits(p.(w := true)) == Bits(p) | WRITE
  {
  }

  lemma ClearCow(p: Perm)
    ensures Bits(Writable(p)) == Bits(p.(w := true)) & !COW
  {
  }

  lemma StoredWritable(pa: bv64, perm: bv64, b: bv64, c: bv64)
    requires perm == b | VALID && c == ((b | WRITE) & !COW) | ACCESSED | DIRTY
    ensures Stored(pa, ((perm | WRITE) & !COW) | (ACCESSED | DIRTY)) == Stored(pa, c)
  {
  }

  lemma WritableBits(p: Perm)
    ensures Bits(AccessedDirty(Writable(p))) == ((Bits(p) | WRITE) & !COW) | ACCESSED | DIRTY
  {
    hide *;
    SetWrite(p);
    ClearCow(p);
    DirtyBits(Writable(p));
  }

  /** cowHandler's entry for the copy: writable, no longer marked, accessed and dirty. */
  lemma CowWrites(ppn: Ppn, copy: Ppn, p: Perm)
    ensures Stored(Ppn2Pa(copy), ((Pte2Perm(WordOf(ppn, p)) | WRITE) & !COW) | (ACCESSED | DIRTY))
            == WordOf(copy, AccessedDirty(Writable(p)))
  {
    hide *;
    WordRoundTrip(ppn, p);
    WritableBits(p);
    WordIs(copy, AccessedDirty(Writable(p)));
    StoredWritable(Ppn2Pa(copy), Pte2Perm(WordOf(ppn, p)), Bits(p), Bits(AccessedDirty(Writable(p))));
  }
}
