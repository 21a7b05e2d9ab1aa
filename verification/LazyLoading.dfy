/**
 Demand loading of program segments. passiveAlloc fills one page from a list of segments; the
 result is the page of the image that loading the whole program at once would have built.
 */
module LazyLoading {
  import opened PageTables
  import opened PhysicalMemory
  import opened KernelMemory
  import opened AddressSpaces
  import opened CopyOnWrite

  /** A SegmentMap: [loadAddr, loadAddr + len) holds file bytes, or zeros when `zero` is set. */
  datatype Segment = Segment(zero: bool, file: seq<Byte>, srcOffset: nat, loadAddr: nat, len: nat, perm: Perm)

  const NO_PERM := Perm(false, false, false, false, false, false, false, false)

  function PermOr(p: Perm, q: Perm): Perm {
    Perm(p.r || q.r, p.w || q.w, p.x || q.x, p.u || q.u, p.a || q.a, p.d || q.d, p.cow || q.cow, p.shm || q.shm)
  }

  predicate Covers(s: Segment, a: int) {
    s.loadAddr <= a < s.loadAddr + s.len
  }

  /** The byte that segment s assigns to address a; past the end of the file nothing is read. */
  function ByteOf(s: Segment, a: int): Byte
    requires Covers(s, a)
  {
    if s.zero || s.srcOffset + (a - s.loadAddr) >= |s.file| then 0 else s.file[s.srcOffset + (a - s.loadAddr)]
  }

  ghost predicate Disjoint(segs: seq<Segment>) {
    forall i, j, a :: 0 <= i < j < |segs| ==> !(Covers(segs[i], a) && Covers(segs[j], a))
  }

  /** Loading segment s puts a byte of its file at address a. */
  predicate Writes(s: Segment, a: int) {
    Covers(s, a) && !s.zero && s.srcOffset + (a - s.loadAddr) < |s.file|
  }

  /** The byte put at address a by the last segment of the list that puts one there. */
  function ImageOpt(segs: seq<Segment>, a: int): Option<Byte> {
    if segs == [] then None
    else if Writes(segs[|segs| - 1], a) then Some(ByteOf(segs[|segs| - 1], a))
    else ImageOpt(segs[..|segs| - 1], a)
  }

  /** The byte at address a once the whole list has been loaded into zeroed memory. */
  function ImageByte(segs: seq<Segment>, a: int): Byte {
    match ImageOpt(segs, a)
    case Some(b) => b
    case None => 0
  }

  /** content is the page at `base` of the image of segs. */
  ghost predicate IsImage(segs: seq<Segment>, base: nat, content: Content) {
    |content| == PAGE_SIZE && forall i :: 0 <= i < PAGE_SIZE ==> content[i] == ImageByte(segs, base + i)
  }

  predicate Overlaps(s: Segment, base: nat) {
    s.loadAddr < base + PAGE_SIZE && base < s.loadAddr + s.len && s.len > 0
  }

  /** The union of the permissions of the segments that meet the page. */
  function UnionPerm(segs: seq<Segment>, base: nat): Perm {
    if segs == [] then NO_PERM
    else if Overlaps(segs[|segs| - 1], base) then PermOr(UnionPerm(segs[..|segs| - 1], base), segs[|segs| - 1].perm)
    else UnionPerm(segs[..|segs| - 1], base)
  }

  function Min(x: int, y: int): int { if x <= y then x else y }

  function Max(x: int, y: int): int { if x >= y then x else y }

  /** metaRead into a page: n bytes from file offset off, clipped at the end of the file. */
  method MetaReadInto(file: seq<Byte>, page: Content, at: nat, off: nat, n: nat) returns (r: Content)
    requires at + n <= |page| && off + n < 0x1_0000_0000
    ensures |r| == |page|
    ensures forall i :: 0 <= i < |page| ==>
              r[i] == if at <= i < at + n && off + (i - at) < |file| then file[off + (i - at)] else page[i]
  {
    if off > |file| {
      return page;
    }
    var m := if off + n > |file| then |file| - off else n;
    r := page[..at] + file[off..off + m] + page[at + m..];
  }

  /** The loop of passiveAlloc over the segment list: the page's bytes and permissions. */
  method FillPage(segs: seq<Segment>, base: nat) returns (found: bool, page: Content, perm: Perm)
    requires forall k :: 0 <= k < |segs| ==> segs[k].srcOffset + segs[k].len < 0x1_0000_0000
    ensures found <==> exists k :: 0 <= k < |segs| && Overlaps(segs[k], base)
    ensures IsImage(segs, base, page) && perm == UnionPerm(segs, base)
  {
    page := ZeroPage();
    perm := NO_PERM;
    found := false;
    var k := 0;
    while k < |segs|
      invariant 0 <= k <= |segs|
      invariant found <==> exists l :: 0 <= l < k && Overlaps(segs[l], base)
      invariant IsImage(segs[..k], base, page) && perm == UnionPerm(segs[..k], base)
    {
      var s := segs[k];
      var start, end := Max(s.loadAddr, base), Min(s.loadAddr + s.len, base + PAGE_SIZE);
      assert segs[..k + 1][..k] == segs[..k];
      ghost var before := page;
      if start < end {
        found := true;
        if !s.zero {
          page := MetaReadInto(s.file, page, start - base, s.srcOffset + start - s.loadAddr, end - start);
        }
        perm := PermOr(perm, s.perm);
      }
      FillStep(segs, k, base, before, page);
      k := k + 1;
    }
    assert segs[..|segs|] == segs;
  }

  lemma CoveredOnce(segs: seq<Segment>, k: nat, m: nat, a: int)
    requires Disjoint(segs) && k < |segs| && m < |segs| && k != m && Covers(segs[k], a)
    ensures !Covers(segs[m], a)
  {
    var x, y := segs[k], segs[m];
    assert !(Covers(x, a) && Covers(y, a));
  }

  lemma FillStep(segs: seq<Segment>, k: nat, base: nat, before: Content, after: Content)
    requires k < |segs| && IsImage(segs[..k], base, before) && |after| == PAGE_SIZE
    requires forall i :: 0 <= i < PAGE_SIZE ==>
               after[i] == if Writes(segs[k], base + i) then segs[k].file[segs[k].srcOffset + (base + i - segs[k].loadAddr)] else before[i]
    ensures IsImage(segs[..k + 1], base, after)
  {
    var t := segs[..k + 1];
    assert t[..k] == segs[..k] && t[k] == segs[k];
    forall i | 0 <= i < PAGE_SIZE ensures after[i] == ImageByte(t, base + i) {
      assert before[i] == ImageByte(segs[..k], base + i);
    }
  }

  // ----- the order of the list does not matter ------------------------------------------

  ghost predicate SameSegments(segs: seq<Segment>, other: seq<Segment>) {
    forall s :: s in segs <==> s in other
  }

  /** Where only one segment of the list covers an address, its byte is the image's. */
  lemma {:induction false} ImageByteIs(segs: seq<Segment>, s: Segment, a: int)
    requires s in segs && Covers(s, a) && forall t :: t in segs && Covers(t, a) ==> t == s
    ensures ImageByte(segs, a) == ByteOf(s, a)
  {
    var v, t := segs[..|segs| - 1], segs[|segs| - 1];
    assert segs == v + [t];
    if !Writes(t, a) {
      if s in v {
        ImageByteIs(v, s, a);
      } else {
        NoImageByte(v, a);
      }
    }
  }

  lemma {:induction false} NoImageByte(segs: seq<Segment>, a: int)
    requires forall t :: t in segs ==> !Covers(t, a)
    ensures ImageByte(segs, a) == 0
  {
    if segs != [] {
      assert segs == segs[..|segs| - 1] + [segs[|segs| - 1]];
      NoImageByte(segs[..|segs| - 1], a);
    }
  }

  lemma ImageIsUnique(segs: seq<Segment>, other: seq<Segment>, a: int)
    requires Disjoint(segs) && SameSegments(segs, other)
    ensures ImageByte(segs, a) == ImageByte(other, a)
  {
    if k: nat :| k < |segs| && Covers(segs[k], a) {
      var s := segs[k];
      forall t | t in other && Covers(t, a) ensures t == s {
        var m: nat :| m < |segs| && segs[m] == t;
        if m != k {
          CoveredOnce(segs, k, m, a);
        }
      }
      ImageByteIs(segs, s, a);
      ImageByteIs(other, s, a);
    } else {
      NoImageByte(segs, a);
      NoImageByte(other, a);
    }
  }

  predicate PermLe(p: Perm, q: Perm) {
    (p.r ==> q.r) && (p.w ==> q.w) && (p.x ==> q.x) && (p.u ==> q.u)
    && (p.a ==> q.a) && (p.d ==> q.d) && (p.cow ==> q.cow) && (p.shm ==> q.shm)
  }

  lemma PermOrLe(p: Perm, q: Perm, r: Perm)
    ensures PermLe(PermOr(p, q), r) <==> PermLe(p, r) && PermLe(q, r)
    ensures PermLe(NO_PERM, r) && PermLe(r, r)
  {
  }

  lemma PermLeBoth(p: Perm, q: Perm)
    requires PermLe(p, q) && PermLe(q, p)
    ensures p == q
  {
  }

  lemma {:induction false} UnionIsLeast(segs: seq<Segment>, base: nat, q: Perm)
    ensures PermLe(UnionPerm(segs, base), q) <==> forall s :: s in segs && Overlaps(s, base) ==> PermLe(s.perm, q)
  {
    hide PermOr, PermLe, Overlaps;
    PermOrLe(q, q, q);
    if segs != [] {
      var n := |segs| - 1;
      PermOrLe(UnionPerm(segs[..n], base), segs[n].perm, q);
      UnionIsLeast(segs[..n], base, q);
      assert segs == segs[..n] + [segs[n]];
      assert forall s :: s in segs <==> s in segs[..n] || s == segs[n];
    }
  }

  /** Where no two segments overlap, one fault gives the same page and the same permissions for any order of the list. */
  lemma OrderDoesNotMatter(segs: seq<Segment>, other: seq<Segment>, base: nat, c: Content, d: Content)
    requires Disjoint(segs) && SameSegments(segs, other) && IsImage(segs, base, c) && IsImage(other, base, d)
    ensures c == d && UnionPerm(segs, base) == UnionPerm(other, base)
  {
    hide UnionPerm, PermLe, ImageByte, Disjoint, SameSegments;
    forall i | 0 <= i < PAGE_SIZE ensures c[i] == d[i] {
      ImageIsUnique(segs, other, base + i);
    }
    SameMembers(segs, other);
    hide IsImage;
    PermOrLe(NO_PERM, NO_PERM, UnionPerm(segs, base));
    PermOrLe(NO_PERM, NO_PERM, UnionPerm(other, base));
    UnionIsLeast(segs, base, UnionPerm(segs, base));
    UnionIsLeast(segs, base, UnionPerm(other, base));
    UnionIsLeast(other, base, UnionPerm(other, base));
    UnionIsLeast(other, base, UnionPerm(segs, base));
    PermLeBoth(UnionPerm(segs, base), UnionPerm(other, base));
  }

  lemma SameMembers(segs: seq<Segment>, other: seq<Segment>)
    requires SameSegments(segs, other)
    ensures forall s :: s in segs <==> s in other
  {
  }

  // ----- passiveAlloc ------------------------------------------------------------------

  const USER_STACK_TOP := 0x40_0000_0000 - 0x3000
  const USER_STACK_BOTTOM := USER_STACK_TOP - 0x1_0000_0000
  const STACK_PERM := Perm(true, true, false, true, false, false, false, false)

  /** Take a page, fill it and map it: the common course of both branches of passiveAlloc. */
  method MapFilled(mem: Memory, key: Key, content: Content, perm: Perm)
    requires mem.Valid() && mem.dead == {} && Alive(mem.T(), key) && key !in mem.maps
    requires 1 + Missing(mem.T(), key) <= |mem.free| && |content| == PAGE_SIZE && !perm.cow && !perm.shm
    modifies mem
    ensures mem.Valid() && mem.dead == {} && |mem.ref| == |old(mem.ref)|
    ensures Loaded(old(mem.View()), mem.View(), key, content)
    ensures KeepsTables(old(mem.View()), mem.View())
    ensures mem.maps[key].perm == perm.(a := true, d := true) && |mem.free| == |old(mem.free)| - 1 - Missing(old(mem.T()), key)
  {
    hide Good, Exact, Users, Missing, Took, Loose, LowOf, Alive, Inserted, Loaded, KeepsTables;
    ghost var a := mem.View();
    PoppedForNew(a, key);
    var ok, p := mem.PageAlloc();
    mem.bytes := mem.bytes[p := content];
    ghost var c := mem.View();
    BytesFree(Popped(a), c);
    ok := mem.PageInsert(key, p, perm);
    FilledIsLoaded(a, c, mem.View(), key, content, perm);
  }

  /** Table pages stay table pages, in their places. */
  ghost predicate KeepsTables(a: State, b: State) {
    forall p :: p in a.t.place ==> p in b.t.place && b.t.place[p] == a.t.place[p]
  }

  lemma FilledIsLoaded(a: State, c: State, b: State, key: Key, content: Content, perm: Perm)
    requires Inv(a) && a.free != [] && a.free[0] < |a.t.table| && a.free[0] < |a.bytes| && !perm.cow && !perm.shm
    requires c == Popped(a).(bytes := Popped(a).bytes[a.free[0] := content])
    requires Inserted(c, b, key, Entry(a.free[0], AccessedDirty(perm)))
    requires a.free[0] !in c.free
    ensures Loaded(a, b, key, content) && b.t.dead == a.t.dead && |b.ref| == |a.ref| && KeepsTables(a, b)
    ensures b.t.maps[key].perm == AccessedDirty(perm)
  {
    hide Good, Exact, Loose;
  }

  lemma PoppedForNew(a: State, key: Key)
    requires Inv(a) && a.free != [] && Alive(a.t, key)
    ensures a.free[0] < |a.t.table| && a.free[0] < |a.bytes| && Shape(Popped(a).t) && Inv(Popped(a))
    ensures a.free[0] !in a.t.place && a.free[0] !in Popped(a).free && a.free[0] < |a.ref|
    ensures Alive(Popped(a).t, key) && Missing(Popped(a).t, key) == Missing(a.t, key)
  {
    hide Exact, Users, Flat;
    FreeIsUnused(a, a.free[0]);
    PoppedInv(a);
    if a.t.table[key.root][key.v.i].Entry? {
      assert a.t.table[key.root][key.v.i].ppn in a.t.place;
    }
  }

  /**
   passiveAlloc for an address with no mapping yet. False is the source's panic, when no segment
   meets the page; nothing has changed then.
   */
  method PassiveAlloc(mem: Memory, root: nat, badAddr: nat, segs: seq<Segment>) returns (ok: bool)
    requires badAddr < 0x40_0000_0000
    requires mem.Valid() && mem.dead == {} && Alive(mem.T(), Key(root, PageOf(badAddr))) && Key(root, PageOf(badAddr)) !in mem.maps
    requires 1 + Missing(mem.T(), Key(root, PageOf(badAddr))) <= |mem.free|
    requires forall k :: 0 <= k < |segs| ==> segs[k].srcOffset + segs[k].len < 0x1_0000_0000
    requires forall k :: 0 <= k < |segs| ==> !segs[k].perm.cow && !segs[k].perm.shm
    modifies mem
    ensures mem.Valid() && mem.dead == {}
    ensures !ok ==> mem.View() == old(mem.View())
    ensures ok ==> KeepsTables(old(mem.View()), mem.View()) && |mem.ref| == |old(mem.ref)|
    ensures ok ==> |mem.free| == |old(mem.free)| - 1 - Missing(old(mem.T()), Key(root, PageOf(badAddr)))
    ensures var base := badAddr - badAddr % 0x1000;
            var stack := 0x3E_FFFF_D000 <= badAddr < 0x3F_FFFF_D000;
            && (ok <==> stack || exists k :: 0 <= k < |segs| && Overlaps(segs[k], base))
            && (ok ==> exists content :: Loaded(old(mem.View()), mem.View(), Key(root, PageOf(badAddr)), content)
                         && (if stack then content == ZeroPage() else IsImage(segs, base, content)))
            && (ok ==> mem.maps[Key(root, PageOf(badAddr))].perm
                         == if stack then Perm(true, true, false, true, true, true, false, false)
                            else UnionPerm(segs, base).(u := true, a := true, d := true))
  {
    hide Good, Exact, Users, Missing, Took, Loose, LowOf, Alive;
    var key := Key(root, PageOf(badAddr));
    if USER_STACK_BOTTOM <= badAddr < USER_STACK_TOP {
      MapFilled(mem, key, ZeroPage(), STACK_PERM);
      return true;
    }
    var base := badAddr - badAddr % 0x1000;
    var found, page, perm := FillPage(segs, base);
    if !found {
      return false;
    }
    UnionPlain(segs, base);
    MapFilled(mem, key, page, perm.(u := true));
    return true;
  }

  lemma {:induction false} UnionPlain(segs: seq<Segment>, base: nat)
    requires forall k :: 0 <= k < |segs| ==> !segs[k].perm.cow && !segs[k].perm.shm
    ensures !UnionPerm(segs, base).cow && !UnionPerm(segs, base).shm
  {
    if segs != [] {
      UnionPlain(segs[..|segs| - 1], base);
    }
  }

  ghost function ImageAt(segs: seq<Segment>, v: VPage): Content {
    seq<Byte>(PAGE_SIZE, (i: nat) requires i < PAGE_SIZE => ImageByte(segs, AddressOf(v) + i))
  }

  lemma ImageAtIsImage(segs: seq<Segment>, v: VPage, content: Content)
    ensures IsImage(segs, AddressOf(v), content) <==> content == ImageAt(segs, v)
  {
    hide ImageByte, AddressOf;
  }

  // ----- building the list from program headers -----------------------------------------

  datatype Phdr = Phdr(load: bool, offset: nat, vaddr: nat, filesz: nat, memsz: nat)

  /** Address a belongs to the memory that header h asks for, in an image moved by `shift`. */
  predicate Asks(h: Phdr, shift: nat, a: int) {
    h.load && h.vaddr + shift <= a < h.vaddr + shift + Max(h.filesz, h.memsz)
  }

  /** The header's part of the file has a byte for address a. */
  predicate Holds(h: Phdr, shift: nat, file: seq<Byte>, a: int) {
    h.load && h.vaddr + shift <= a < h.vaddr + shift + h.filesz && h.offset + (a - h.vaddr - shift) < |file|
  }

  /** The byte that the first header with one has for address a. */
  function ProgramOpt(hs: seq<Phdr>, shift: nat, file: seq<Byte>, a: int): Option<Byte> {
    if hs == [] then None
    else
      var p, h := ProgramOpt(hs[..|hs| - 1], shift, file, a), hs[|hs| - 1];
      if p.None? && Holds(h, shift, file, a) then Some(file[h.offset + (a - h.vaddr - shift)]) else p
  }

  ghost predicate Asked(hs: seq<Phdr>, shift: nat, a: int) {
    exists h :: 0 <= h < |hs| && Asks(hs[h], shift, a)
  }

  ghost predicate Covered(segs: seq<Segment>, a: int) {
    exists k :: 0 <= k < |segs| && Covers(segs[k], a)
  }

  ghost predicate Apart(hs: seq<Phdr>, shift: nat) {
    forall i, j, a :: 0 <= i < j < |hs| ==> !(Asks(hs[i], shift, a) && Asks(hs[j], shift, a))
  }

  /** The list puts into memory what the headers ask for. */
  ghost predicate ForProgram(segs: seq<Segment>, hs: seq<Phdr>, shift: nat, file: seq<Byte>) {
    && (forall a: int :: ImageOpt(segs, a) == ProgramOpt(hs, shift, file, a))
    && forall a: int :: Covered(segs, a) <==> Asked(hs, shift, a)
  }

  const RWX := Perm(true, true, true, false, false, false, false, false)
  const RW := Perm(true, true, false, false, false, false, false, false)

  /** The part of segmentTraverse that handles one PT_LOAD header; segments go to the head. */
  function SegmentsOf(h: Phdr, shift: nat, file: seq<Byte>): seq<Segment> {
    if !h.load then [] else
    (if h.memsz > h.filesz then [Segment(true, [], 0, h.vaddr + h.filesz + shift, h.memsz - h.filesz, RW)] else [])
    + (if h.filesz > 0 then [Segment(false, file, h.offset, h.vaddr + shift, h.filesz, RWX)] else [])
  }

  /** segmentMapAppend, once for the bytes of the file and once for the zeros after them. */
  method AppendHeader(segs: seq<Segment>, h: Phdr, shift: nat, file: seq<Byte>) returns (r: seq<Segment>)
    requires h.load
    ensures r == SegmentsOf(h, shift, file) + segs
    ensures r == (if h.memsz > h.filesz
                  then [Segment(true, [], 0, h.vaddr + h.filesz + shift, h.memsz - h.filesz, Perm(true, true, false, false, false, false, false, false))]
                  else [])
                 + (if h.filesz > 0
                    then [Segment(false, file, h.offset, h.vaddr + shift, h.filesz, Perm(true, true, true, false, false, false, false, false))]
                    else [])
                 + segs
  {
    r := segs;
    if h.filesz > 0 {
      r := [Segment(false, file, h.offset, h.vaddr + shift, h.filesz, RWX)] + r;
    }
    if h.memsz > h.filesz {
      r := [Segment(true, [], 0, h.vaddr + h.filesz + shift, h.memsz - h.filesz, RW)] + r;
    }
  }

  lemma PhdrAddrStep(hs: seq<Phdr>, h: Phdr, phoff: nat, shift: nat)
    ensures PhdrAddr(hs + [h], phoff, shift)
            == if h.load && h.offset <= phoff < h.offset + h.filesz then Some(phoff - h.offset + h.vaddr + shift)
               else PhdrAddr(hs, phoff, shift)
  {
    assert (hs + [h])[..|hs|] == hs;
  }

  /**
   segmentTraverse: the segment list stands for the image that the headers describe. Where headers
   overlap, the first one with a byte of the file for an address wins.
   */
  method SegmentTraverse(hs: seq<Phdr>, phoff: nat, shift: nat, file: seq<Byte>)
    returns (segs: seq<Segment>, phdrAddr: Option<nat>)
    ensures ForProgram(segs, hs, shift, file) && (Apart(hs, shift) ==> Disjoint(segs))
    ensures phdrAddr == PhdrAddr(hs, phoff, shift)
    ensures phdrAddr.None? ==> forall k :: 0 <= k < |hs| ==> !InFile(hs[k], phoff)
    ensures phdrAddr.Some? ==> exists k :: 0 <= k < |hs| && InFile(hs[k], phoff) && (forall l :: k < l < |hs| ==> !InFile(hs[l], phoff))
                                           && phdrAddr.value + hs[k].offset == phoff + hs[k].vaddr + shift
  {
    hide ForProgram, Disjoint, Apart, PhdrAddr, SegmentsOf;
    segs := [];
    phdrAddr := None;
    TraverseStart(hs, shift, file);
    var i := 0;
    while i < |hs|
      invariant 0 <= i <= |hs|
      invariant ForProgram(segs, hs[..i], shift, file) && (Apart(hs, shift) ==> Disjoint(segs))
      invariant phdrAddr == PhdrAddr(hs[..i], phoff, shift)
    {
      var h := hs[i];
      ghost var before := segs;
      if h.load {
        segs := AppendHeader(segs, h, shift, file);
        if h.offset <= phoff < h.offset + h.filesz {
          phdrAddr := Some(phoff - h.offset + h.vaddr + shift);
        }
      } else {
        NotLoaded(h, shift, file);
      }
      assert segs == SegmentsOf(h, shift, file) + before;
      assert hs[..i + 1] == hs[..i] + [h];
      TraverseStep(before, hs[..i], h, shift, file);
      TraverseApart(before, hs, i, shift, file);
      PhdrAddrStep(hs[..i], h, phoff, shift);
      i := i + 1;
    }
    assert hs[..|hs|] == hs;
    PhdrAddrIs(hs, phoff, shift);
  }

  /** A header to be loaded whose part of the file has byte phoff. */
  ghost predicate InFile(h: Phdr, phoff: nat) {
    h.load && h.offset <= phoff < h.offset + h.filesz
  }

  lemma {:induction false} PhdrAddrIs(hs: seq<Phdr>, phoff: nat, shift: nat)
    ensures PhdrAddr(hs, phoff, shift).None? ==> forall k :: 0 <= k < |hs| ==> !InFile(hs[k], phoff)
    ensures PhdrAddr(hs, phoff, shift).Some? ==>
              exists k :: 0 <= k < |hs| && InFile(hs[k], phoff) && (forall l :: k < l < |hs| ==> !InFile(hs[l], phoff))
                          && PhdrAddr(hs, phoff, shift).value + hs[k].offset == phoff + hs[k].vaddr + shift
  {
    if hs != [] {
      var n := |hs| - 1;
      PhdrAddrIs(hs[..n], phoff, shift);
      if !InFile(hs[n], phoff) && PhdrAddr(hs, phoff, shift).Some? {
        var k :| 0 <= k < n && InFile(hs[..n][k], phoff) && (forall l :: k < l < n ==> !InFile(hs[..n][l], phoff))
                 && PhdrAddr(hs[..n], phoff, shift).value + hs[..n][k].offset == phoff + hs[..n][k].vaddr + shift;
        assert forall l :: 0 <= l < n ==> hs[l] == hs[..n][l];
        assert InFile(hs[k], phoff);
      } else if !InFile(hs[n], phoff) {
        assert forall l :: 0 <= l < n ==> hs[l] == hs[..n][l];
      }
    }
  }

  lemma NotLoaded(h: Phdr, shift: nat, file: seq<Byte>)
    requires !h.load
    ensures SegmentsOf(h, shift, file) == []
  {
  }

  lemma TraverseStart(hs: seq<Phdr>, shift: nat, file: seq<Byte>)
    ensures ForProgram([], hs[..0], shift, file) && Disjoint([])
    ensures forall phoff :: PhdrAddr(hs[..0], phoff, shift) == None
  {
  }

  /** Where the program header table itself lies in memory, by the last header that holds it. */
  function PhdrAddr(hs: seq<Phdr>, phoff: nat, shift: nat): Option<nat> {
    if hs == [] then None else
    var h := hs[|hs| - 1];
    if h.load && h.offset <= phoff < h.offset + h.filesz then Some(phoff - h.offset + h.vaddr + shift)
    else PhdrAddr(hs[..|hs| - 1], phoff, shift)
  }

  lemma {:induction false} ImageAppend(x: seq<Segment>, y: seq<Segment>, a: int)
    ensures ImageOpt(x + y, a) == if ImageOpt(y, a).Some? then ImageOpt(y, a) else ImageOpt(x, a)
  {
    if y == [] {
      assert x + y == x;
    } else {
      assert (x + y)[..|x + y| - 1] == x + y[..|y| - 1];
      ImageAppend(x, y[..|y| - 1], a);
    }
  }

  lemma SegmentsOfHeader(h: Phdr, shift: nat, file: seq<Byte>, a: int)
    ensures var n := SegmentsOf(h, shift, file);
            && (Covered(n, a) <==> Asks(h, shift, a)) && Disjoint(n)
            && ImageOpt(n, a) == if Holds(h, shift, file, a) then Some(file[h.offset + (a - h.vaddr - shift)]) else None
  {
    var n := SegmentsOf(h, shift, file);
    if Asks(h, shift, a) {
      assert Covers(n[|n| - 1], a) || Covers(n[0], a);
    }
    if |n| == 2 {
      ImageAppend([n[0]], [n[1]], a);
    }
    if |n| > 0 {
      ImageOfOne(n[0], a);
      ImageOfOne(n[|n| - 1], a);
    }
  }

  lemma ImageOfOne(s: Segment, a: int)
    ensures ImageOpt([s], a) == if Writes(s, a) then Some(ByteOf(s, a)) else None
  {
    assert [s][..0] == [];
  }

  lemma TraverseStep(segs: seq<Segment>, hs: seq<Phdr>, h: Phdr, shift: nat, file: seq<Byte>)
    requires ForProgram(segs, hs, shift, file)
    ensures ForProgram(SegmentsOf(h, shift, file) + segs, hs + [h], shift, file)
  {
    hide SegmentsOf, Asks, Holds, Disjoint;
    var n := SegmentsOf(h, shift, file);
    forall a: int
      ensures ImageOpt(n + segs, a) == ProgramOpt(hs + [h], shift, file, a) && (Covered(n + segs, a) <==> Asked(hs + [h], shift, a))
    {
      ImageAppend(n, segs, a);
      SegmentsOfHeader(h, shift, file, a);
      assert (hs + [h])[..|hs|] == hs;
      CoveredAppend(n, segs, a);
      AskedAppend(hs, h, shift, a);
      assert ImageOpt(segs, a) == ProgramOpt(hs, shift, file, a);
    }
  }

  lemma CoveredAppend(x: seq<Segment>, y: seq<Segment>, a: int)
    ensures Covered(x + y, a) <==> Covered(x, a) || Covered(y, a)
  {
    hide Covers;
    if k: nat :| k < |x| && Covers(x[k], a) {
      assert Covers((x + y)[k], a);
    }
    if k: nat :| k < |y| && Covers(y[k], a) {
      assert Covers((x + y)[|x| + k], a);
    }
  }

  lemma AskedAppend(hs: seq<Phdr>, h: Phdr, shift: nat, a: int)
    ensures Asked(hs + [h], shift, a) <==> Asked(hs, shift, a) || Asks(h, shift, a)
  {
    hide Asks;
    var g := hs + [h];
    if k: nat :| k < |hs| && Asks(hs[k], shift, a) {
      assert Asks(g[k], shift, a);
    }
    if Asks(h, shift, a) {
      assert Asks(g[|hs|], shift, a);
    }
  }

  /** Headers that ask for different memory give segments that do not overlap. */
  lemma TraverseApart(segs: seq<Segment>, hs: seq<Phdr>, i: nat, shift: nat, file: seq<Byte>)
    requires i < |hs| && ForProgram(segs, hs[..i], shift, file)
    ensures Apart(hs, shift) && Disjoint(segs) ==> Disjoint(SegmentsOf(hs[i], shift, file) + segs)
  {
    hide SegmentsOf, Asks, ImageOpt, ProgramOpt;
    if Apart(hs, shift) && Disjoint(segs) {
      var n := SegmentsOf(hs[i], shift, file);
      var r := n + segs;
      forall j, k, a | 0 <= j < k < |r| ensures !(Covers(r[j], a) && Covers(r[k], a)) {
        SegmentsOfHeader(hs[i], shift, file, a);
        NotBoth(segs, hs, i, shift, file, n, j, k, a);
      }
    }
  }

  lemma NotBoth(segs: seq<Segment>, hs: seq<Phdr>, i: nat, shift: nat, file: seq<Byte>, n: seq<Segment>, j: nat, k: nat, a: int)
    requires i < |hs| && ForProgram(segs, hs[..i], shift, file) && Apart(hs, shift) && Disjoint(segs) && Disjoint(n)
    requires Covered(n, a) <==> Asks(hs[i], shift, a)
    requires j < k < |n + segs|
    ensures !(Covers((n + segs)[j], a) && Covers((n + segs)[k], a))
  {
    hide Asks, Covers, ImageOpt, ProgramOpt;
    AskedBefore(hs, i, shift, a);
    assert j < |n| && Covers(n[j], a) ==> Covered(n, a);
    assert k >= |n| && Covers(segs[k - |n|], a) ==> Covered(segs, a);
    if k < |n| {
      var x, y := n[j], n[k];
      assert !(Covers(x, a) && Covers(y, a));
    } else if j >= |n| {
      var x, y := segs[j - |n|], segs[k - |n|];
      assert !(Covers(x, a) && Covers(y, a));
    }
  }

  lemma AskedBefore(hs: seq<Phdr>, i: nat, shift: nat, a: int)
    requires Apart(hs, shift) && i < |hs|
    ensures !(Asked(hs[..i], shift, a) && Asks(hs[i], shift, a))
  {
    hide Asks;
    forall h | 0 <= h < i ensures !(Asks(hs[..i][h], shift, a) && Asks(hs[i], shift, a)) {
      var x, y := hs[h], hs[i];
      assert !(Asks(x, shift, a) && Asks(y, shift, a));
    }
  }

  /** The byte at an address that a header asks for: of the file within filesz, else zero. */
  function ElfByte(h: Phdr, shift: nat, file: seq<Byte>, a: int): Byte
    requires Asks(h, shift, a)
  {
    if Holds(h, shift, file, a) then file[h.offset + (a - h.vaddr - shift)] else 0
  }

  /** Demand loading from the list built for a program gives the program's own image. */
  lemma LoadedProgram(hs: seq<Phdr>, shift: nat, file: seq<Byte>, segs: seq<Segment>, h: nat, a: nat)
    requires ForProgram(segs, hs, shift, file) && Apart(hs, shift) && h < |hs| && Asks(hs[h], shift, a)
    ensures Covered(segs, a) && ImageByte(segs, a) == ElfByte(hs[h], shift, file, a)
  {
    hide Asks, Holds, ImageOpt, Covered;
    assert Asked(hs, shift, a);
    assert ImageOpt(segs, a) == ProgramOpt(hs, shift, file, a);
    forall l: nat | l < |hs| && l != h ensures !Asks(hs[l], shift, a) {
      var x, y := hs[l], hs[h];
      assert !(Asks(x, shift, a) && Asks(y, shift, a));
    }
    OnlyHolder(hs, shift, file, h, a);
  }

  lemma {:induction false} OnlyHolder(hs: seq<Phdr>, shift: nat, file: seq<Byte>, h: nat, a: int)
    requires h < |hs| && forall l: nat :: l < |hs| && l != h ==> !Asks(hs[l], shift, a)
    ensures ProgramOpt(hs, shift, file, a) == if Holds(hs[h], shift, file, a) then Some(file[hs[h].offset + (a - hs[h].vaddr - shift)]) else None
  {
    var n := |hs| - 1;
    if h < n {
      OnlyHolder(hs[..n], shift, file, h, a);
      assert !Asks(hs[n], shift, a);
    } else {
      NoHolder(hs[..n], shift, file, a);
    }
  }

  lemma {:induction false} NoHolder(hs: seq<Phdr>, shift: nat, file: seq<Byte>, a: int)
    requires forall l: nat :: l < |hs| ==> !Asks(hs[l], shift, a)
    ensures ProgramOpt(hs, shift, file, a) == None
  {
    if hs != [] {
      NoHolder(hs[..|hs| - 1], shift, file, a);
    }
  }
}
