/**
 Shared memory: segments of kernel-owned pages that processes attach to their heaps. Each operation
 is a run of steps of the deep-copy memory, in which a shared page is one object with many names.
 */
module SharedMemory {
  import opened PageTables
  import opened PhysicalMemory
  import opened TableSpots
  import opened KernelMemory
  import opened AddressSpaces
  import opened CopyOnWrite

  const SHM_COUNT := 128
  const SHM_BASE := 0x0F_0000_0000
  const HEAP_LIMIT := 0x3F_FFFF_D000
  const SHM_PERM := Perm(true, true, true, true, false, false, false, true)

  /** ALIGN_UP to whole pages. */
  function PagesOf(size: nat): nat { (size + PAGE_SIZE - 1) / PAGE_SIZE }

  lemma Rounded(size: nat)
    ensures var n := PagesOf(size);
            && n * 4096 % 4096 == 0 && size <= n * 4096 < size + 4096 && n * 4096 / 4096 == n
            && forall k: nat :: size <= 4096 * k ==> n <= k
  {
  }

  datatype Segment = Segment(used: bool, start: nat, size: nat)

  // ----- the steps of the two operations ----------------------------------------------------

  /** shmAlloc takes the pages one by one, blank. */
  function TakeSteps(pages: seq<nat>): (s: seq<Step>)
    ensures |s| == |pages|
  {
    seq(|pages|, (k: nat) requires k < |pages| => Step.ShmAlloc(pages[k], ZeroPage()))
  }

  /** Where page k of a segment attached at va is seen. */
  function At(root: nat, va: nat, k: nat): Key { Key(root, PageOf(va + k * PAGE_SIZE)) }

  function AttachSteps(root: nat, va: nat, pages: seq<nat>): (s: seq<Step>)
    ensures |s| == |pages|
  {
    seq(|pages|, (k: nat) requires k < |pages| => Step.ShmAt(At(root, va, k), pages[k]))
  }

  lemma TakeOneMore(pages: seq<nat>, p: nat)
    ensures TakeSteps(pages + [p]) == TakeSteps(pages) + [Step.ShmAlloc(p, ZeroPage())]
  {
  }

  lemma AttachOneMore(root: nat, va: nat, pages: seq<nat>, i: nat)
    requires i < |pages|
    ensures AttachSteps(root, va, pages[..i + 1]) == AttachSteps(root, va, pages[..i]) + [Step.ShmAt(At(root, va, i), pages[i])]
  {
    assert pages[..i + 1] == pages[..i] + [pages[i]];
  }

  lemma RunOneMore(d: Deep, steps: seq<Step>, st: Step)
    ensures DeepRun(d, steps + [st]) == DeepStep(DeepRun(d, steps), st)
  {
    assert (steps + [st])[..|steps|] == steps;
  }

  // ----- addresses ----------------------------------------------------------------------------

  lemma HeapPage(va: nat)
    requires va < HEAP_LIMIT
    ensures !Special(PageOf(va))
  {
    AddressRoundTrip(PageOf(va), va);
  }

  lemma PagesApart(va: nat, k: nat, l: nat)
    requires va % PAGE_SIZE == 0 && k != l && va + k * PAGE_SIZE < HEAP_LIMIT && va + l * PAGE_SIZE < HEAP_LIMIT
    ensures PageOf(va + k * PAGE_SIZE) != PageOf(va + l * PAGE_SIZE)
  {
    AddressRoundTrip(PageOf(va + k * PAGE_SIZE), va + k * PAGE_SIZE);
    AddressRoundTrip(PageOf(va + l * PAGE_SIZE), va + l * PAGE_SIZE);
  }

  // ----- when attaching runs out of pages -----------------------------------------------------

  /** The first n pages of the range. */
  function RangePages(heap: nat, n: nat): set<VPage> {
    set k: nat | k < n :: PageOf(heap + k * PAGE_SIZE)
  }

  /** Tables that the space lacks for them. */
  ghost function RangeTables(s: State, root: nat, heap: nat, n: nat): set<Spot> {
    Needed(s.t.place, root, RangePages(heap, n))
  }

  /** The key is one of those pages in the space. */
  ghost predicate InRange(key: Key, root: nat, heap: nat, n: nat) {
    key.root == root && key.v in RangePages(heap, n)
  }

  /** Nothing counts the page but mappings at those pages. */
  ghost predicate OnlyThere(s: State, root: nat, heap: nat, n: nat, p: nat) {
    && p < |s.kernel| && s.kernel[p] == 0 && Users(s.t.maps, p) != {}
    && forall key :: key in Users(s.t.maps, p) ==> InRange(key, root, heap, n)
  }

  /** The pages that replacing the mappings there gives back. */
  ghost function Returned(s: State, root: nat, heap: nat, n: nat): set<nat> {
    set p: nat | p < |s.kernel| && OnlyThere(s, root, heap, n, p)
  }

  /** At page i of the range the free pages, with those given back so far, do not stretch to the tables needed so far. */
  ghost predicate Short(s: State, root: nat, heap: nat, i: nat) {
    |s.free| + |Returned(s, root, heap, i)| < |RangeTables(s, root, heap, i + 1)|
  }

  /** The first i pages of the range have been mapped to pages; nothing else changed but tables and the free list. */
  ghost predicate Attached(a: State, b: State, root: nat, heap: nat, pages: seq<nat>, i: nat) {
    && i <= |pages| && b.kernel == a.kernel
    && (forall k: nat :: k < i ==> At(root, heap, k) in b.t.maps && b.t.maps[At(root, heap, k)] == Entry(pages[k], AccessedDirty(SHM_PERM)))
    && (forall key: Key :: !InRange(key, root, heap, i) ==> (key in b.t.maps <==> key in a.t.maps) && (key in a.t.maps ==> b.t.maps[key] == a.t.maps[key]))
    && Spots(b.t.place, root) == Spots(a.t.place, root) + RangeTables(a, root, heap, i)
    && |b.free| + |RangeTables(a, root, heap, i)| == |a.free| + |Returned(a, root, heap, i)|
  }

  lemma AttachedNone(a: State, root: nat, heap: nat, pages: seq<nat>)
    ensures Attached(a, a, root, heap, pages, 0)
  {
    hide PageOf, Spots;
    assert RangePages(heap, 0) == {};
    WaysUnion({}, {});
    assert RangeTables(a, root, heap, 0) == {};
    assert Returned(a, root, heap, 0) == {};
  }

  lemma RangeMore(heap: nat, i: nat)
    ensures RangePages(heap, i + 1) == RangePages(heap, i) + {PageOf(heap + i * PAGE_SIZE)}
  {
    hide PageOf;
  }

  lemma NotBefore(root: nat, heap: nat, i: nat)
    requires heap % PAGE_SIZE == 0 && heap + i * PAGE_SIZE < HEAP_LIMIT
    ensures !InRange(At(root, heap, i), root, heap, i)
  {
    hide PageOf;
    forall k: nat | k < i ensures PageOf(heap + k * PAGE_SIZE) != PageOf(heap + i * PAGE_SIZE) {
      PagesApart(heap, k, i);
    }
  }

  /** The tables for one page more are those for the pages before it and those that it still lacks. */
  lemma TablesMore(a: State, b: State, root: nat, heap: nat, pages: seq<nat>, i: nat)
    requires Attached(a, b, root, heap, pages, i)
    ensures var n := Needed(b.t.place, root, {PageOf(heap + i * PAGE_SIZE)});
            && |RangeTables(a, root, heap, i + 1)| == |RangeTables(a, root, heap, i)| + |n|
            && RangeTables(a, root, heap, i + 1) == RangeTables(a, root, heap, i) + n
  {
    hide PageOf, Spots, Ways;
    RangeMore(heap, i);
    NeededSplit(RangePages(heap, i), {PageOf(heap + i * PAGE_SIZE)}, Spots(a.t.place, root), Spots(b.t.place, root));
  }

  /** A mapping that is replaced gives its page back exactly if that page is mapped nowhere but in the range so far. */
  lemma ReturnedMore(a: State, w: World, root: nat, heap: nat, pages: seq<nat>, i: nat)
    requires Inv(a) && CowInv(w) && Attached(a, w.s, root, heap, pages, i) && i < |pages|
    requires heap % PAGE_SIZE == 0 && heap + i * PAGE_SIZE < HEAP_LIMIT && forall p :: p in pages ==> p in w.shm
    ensures |Returned(a, root, heap, i + 1)| == |Returned(a, root, heap, i)| + Frees(w.s, At(root, heap, i))
  {
    hide PageOf, Good, Exact, Listed, Spots, RangeTables, WritableAlone, ShmMarked, CowMarked, OnlyThere, InRange, Users;
    var key := At(root, heap, i);
    NotBefore(root, heap, i);
    var r, q := Returned(a, root, heap, i), Returned(a, root, heap, i + 1);
    forall p: nat ensures p in q <==> p in r || (Frees(w.s, key) == 1 && p == w.s.t.maps[key].ppn) {
      ReturnedAt(a, w, root, heap, pages, i, p);
    }
    if Frees(w.s, key) == 1 {
      var p := w.s.t.maps[key].ppn;
      ReturnedNew(a, w, root, heap, pages, i);
      assert q == r + {p};
    } else {
      assert q == r;
    }
  }

  lemma ReturnedNew(a: State, w: World, root: nat, heap: nat, pages: seq<nat>, i: nat)
    requires Attached(a, w.s, root, heap, pages, i) && !InRange(At(root, heap, i), root, heap, i)
    requires Frees(w.s, At(root, heap, i)) == 1
    ensures w.s.t.maps[At(root, heap, i)].ppn !in Returned(a, root, heap, i)
  {
    hide PageOf, Spots, RangeTables;
    var key := At(root, heap, i);
    assert key in Users(a.t.maps, w.s.t.maps[key].ppn);
  }

  lemma ReturnedAt(a: State, w: World, root: nat, heap: nat, pages: seq<nat>, i: nat, p: nat)
    requires Inv(a) && CowInv(w) && Attached(a, w.s, root, heap, pages, i) && i < |pages|
    requires !InRange(At(root, heap, i), root, heap, i) && forall p :: p in pages ==> p in w.shm
    ensures p in Returned(a, root, heap, i + 1)
            <==> p in Returned(a, root, heap, i) || (Frees(w.s, At(root, heap, i)) == 1 && p == w.s.t.maps[At(root, heap, i)].ppn)
  {
    hide PageOf, Good, Listed, Spots, RangeTables, WritableAlone, ShmMarked, CowMarked;
    var key := At(root, heap, i);
    InRangeMore(root, heap, i);
    if key in a.t.maps {
      MappedIsCounted(a, key);
      MappedIsCounted(w.s, key);
      var g := a.t.maps[key].ppn;
      assert key in Users(a.t.maps, g) && key in Users(w.s.t.maps, g);
      if p == g {
        SoleLeft(a, w, root, heap, pages, i);
      } else {
        assert key !in Users(a.t.maps, p);
      }
    } else {
      assert key !in Users(a.t.maps, p);
    }
  }

  lemma InRangeMore(root: nat, heap: nat, i: nat)
    ensures forall key: Key :: InRange(key, root, heap, i + 1) <==> InRange(key, root, heap, i) || key == At(root, heap, i)
  {
    hide PageOf;
    RangeMore(heap, i);
  }

  /** The page at the next position has one reference left exactly if all its mappings were in the range. */
  lemma SoleLeft(a: State, w: World, root: nat, heap: nat, pages: seq<nat>, i: nat)
    requires Inv(a) && CowInv(w) && Attached(a, w.s, root, heap, pages, i) && i < |pages|
    requires !InRange(At(root, heap, i), root, heap, i) && At(root, heap, i) in a.t.maps && forall p :: p in pages ==> p in w.shm
    ensures At(root, heap, i) in w.s.t.maps
    ensures a.t.maps[At(root, heap, i)].Entry? && (OnlyThere(a, root, heap, i + 1, a.t.maps[At(root, heap, i)].ppn) <==> Frees(w.s, At(root, heap, i)) == 1)
  {
    hide PageOf, Good, Listed, Spots, RangeTables, WritableAlone, CowMarked, ShmMarked;
    var key := At(root, heap, i);
    MappedIsCounted(a, key);
    MappedIsCounted(w.s, key);
    var p := a.t.maps[key].ppn;
    InRangeMore(root, heap, i);
    var u, n := Users(a.t.maps, p), Users(w.s.t.maps, p);
    assert key in u && key in n;
    if w.s.kernel[p] == 0 {
      NotShared(w, p);
      forall k: Key ensures k in n <==> k in u && !InRange(k, root, heap, i) {
        RangeUser(a, w.s, root, heap, pages, i, k, p);
      }
      if |n| == 1 {
        OnlyOne(n, key);
      }
      if n == {key} {
        assert |n| == 1;
      }
    }
  }

  lemma NotShared(w: World, p: nat)
    requires CowInv(w) && p < |w.s.kernel| && w.s.kernel[p] == 0
    ensures p !in w.shm
  {
  }

  lemma RangeUser(a: State, b: State, root: nat, heap: nat, pages: seq<nat>, i: nat, k: Key, p: nat)
    requires Attached(a, b, root, heap, pages, i) && p !in pages
    ensures k in Users(b.t.maps, p) <==> k in Users(a.t.maps, p) && !InRange(k, root, heap, i)
  {
    hide PageOf, Spots, RangeTables, Returned;
    if InRange(k, root, heap, i) {
      var j: nat :| j < i && k.v == PageOf(heap + j * PAGE_SIZE);
      assert k == At(root, heap, j) && pages[j] in pages;
    }
  }

  /** One page more is attached. */
  lemma AttachedMore(a: State, b: State, c: State, root: nat, heap: nat, pages: seq<nat>, i: nat)
    requires Attached(a, b, root, heap, pages, i) && i < |pages|
    requires var key, n := At(root, heap, i), Needed(b.t.place, root, {PageOf(heap + i * PAGE_SIZE)});
             && c.t.maps == b.t.maps[key := Entry(pages[i], AccessedDirty(SHM_PERM))] && c.kernel == b.kernel
             && Spots(c.t.place, root) == Spots(b.t.place, root) + n
             && |c.free| + |n| == |b.free| + Frees(b, key)
             && |Returned(a, root, heap, i + 1)| == |Returned(a, root, heap, i)| + Frees(b, key)
    requires !InRange(At(root, heap, i), root, heap, i)
    ensures Attached(a, c, root, heap, pages, i + 1)
  {
    hide PageOf, Spots, Frees, Returned, RangeTables, Needed;
    TablesMore(a, b, root, heap, pages, i);
    InRangeMore(root, heap, i);
    forall k: nat | k < i ensures At(root, heap, k) != At(root, heap, i) {
      assert InRange(At(root, heap, k), root, heap, i) by { RangeHas(root, heap, k, i); }
    }
  }

  lemma RangeHas(root: nat, heap: nat, k: nat, i: nat)
    requires k < i
    ensures InRange(At(root, heap, k), root, heap, i)
  {
    hide PageOf;
  }

  // ----- what the memory operations amount to -------------------------------------------------

  lemma TakenIsStep(a: World, c: State, b: World)
    requires CowInv(a) && a.s.free != [] && a.s.free[0] < |a.s.t.table| && a.s.free[0] < |a.s.bytes|
    requires c == Popped(a.s) && Inv(b.s)
    requires var id := a.s.free[0];
             id < |c.ref| == |c.kernel| && b == World(c.(ref := c.ref[id := 1], kernel := c.kernel[id := 1]), a.shm + {id})
    ensures CowInv(b) && Alpha(b) == DeepStep(Alpha(a), Step.ShmAlloc(a.s.free[0], ZeroPage()))
  {
    hide Alpha, DeepStep, WritableAlone, ShmMarked, CowMarked, Good, Exact, Listed;
    StepRefines(a, Step.ShmAlloc(a.s.free[0], ZeroPage()), b);
  }

  lemma ShmPage(w: World, p: nat)
    requires CowInv(w) && p in w.shm
    ensures p < |w.s.ref| && p !in w.s.free && p !in w.s.t.place
    ensures forall key: Key :: key in w.s.t.maps && w.s.t.maps[key].Entry? && w.s.t.maps[key].ppn == p ==> w.s.ref[p] > 1
  {
    hide WritableAlone, CowMarked, Good;
    ShmFacts(w, p);
    forall key: Key | key in w.s.t.maps && w.s.t.maps[key].Entry? && w.s.t.maps[key].ppn == p ensures w.s.ref[p] > 1 {
      assert key in Users(w.s.t.maps, p);
    }
  }

  lemma AttachedIsStep(a: World, b: World, key: Key, p: nat)
    requires CowInv(a) && Inv(b.s) && b.shm == a.shm && p in a.shm && !Special(key.v)
    requires Inserted(a.s, b.s, key, Entry(p, AccessedDirty(SHM_PERM)))
    ensures CowInv(b) && Alpha(b) == DeepStep(Alpha(a), Step.ShmAt(key, p))
  {
    hide Alpha, DeepStep, WritableAlone, ShmMarked, CowMarked, Good, Exact, Listed;
    StepRefines(a, Step.ShmAt(key, p), b);
  }

  /** The n pages mapped from start on. */
  ghost function PagesFrom(page: map<nat, nat>, start: nat, n: nat): (s: seq<nat>)
    ensures |s| == n
  {
    seq(n, (k: nat) => if start + k * PAGE_SIZE in page then page[start + k * PAGE_SIZE] else 0)
  }

  /** Every mapping lies below top and names a shared page, none twice. */
  ghost predicate Named(page: map<nat, nat>, top: nat, shm: set<nat>) {
    && (forall va :: va in page ==> va < top && page[va] in shm)
    && (forall va, vb :: va in page && vb in page && page[va] == page[vb] ==> va == vb)
  }

  /** Segments in use lie apart below top, and every page of them is mapped. */
  ghost predicate TableOk(shms: seq<Segment>, top: nat, page: map<nat, nat>, shm: set<nat>) {
    && |shms| == SHM_COUNT && top % PAGE_SIZE == 0 && Named(page, top, shm)
    && (forall i :: 0 <= i < SHM_COUNT && shms[i].used ==>
          shms[i].start % PAGE_SIZE == 0 && shms[i].size % PAGE_SIZE == 0 && shms[i].start + shms[i].size <= top)
    && (forall i, j :: 0 <= i < SHM_COUNT && 0 <= j < SHM_COUNT && i != j && shms[i].used && shms[j].used ==>
          shms[i].start + shms[i].size <= shms[j].start || shms[j].start + shms[j].size <= shms[i].start)
    && (forall i, va :: 0 <= i < SHM_COUNT && shms[i].used && shms[i].start <= va < shms[i].start + shms[i].size && va % PAGE_SIZE == 0 ==>
          va in page)
  }

  /** From was to page the n pages from start on were mapped to pages. */
  ghost predicate Extended(was: map<nat, nat>, page: map<nat, nat>, start: nat, pages: seq<nat>) {
    && (forall va :: va in was ==> va in page && page[va] == was[va])
    && (forall k :: 0 <= k < |pages| ==> start + k * PAGE_SIZE in page && page[start + k * PAGE_SIZE] == pages[k])
    && (forall va :: va in page && va !in was ==> start <= va < start + |pages| * PAGE_SIZE)
  }

  lemma ExtendedMore(was: map<nat, nat>, page: map<nat, nat>, start: nat, pages: seq<nat>, p: nat, shm: set<nat>)
    requires Extended(was, page, start, pages) && forall va :: va in was ==> va < start
    requires Named(page, start + |pages| * PAGE_SIZE, shm) && p !in shm
    ensures Extended(was, page[start + |pages| * PAGE_SIZE := p], start, pages + [p])
    ensures Named(page[start + |pages| * PAGE_SIZE := p], start + (|pages| + 1) * PAGE_SIZE, shm + {p})
  {
  }

  lemma ExtendedStart(page: map<nat, nat>, top: nat, shm: set<nat>)
    requires Named(page, top, shm)
    ensures Extended(page, page, top, []) && forall va :: va in page ==> va < top
  {
  }

  lemma AlignedPage(start: nat, n: nat, va: nat)
    requires start % PAGE_SIZE == 0 && va % PAGE_SIZE == 0 && start <= va < start + n * PAGE_SIZE
    ensures (va - start) / PAGE_SIZE < n && va == start + (va - start) / PAGE_SIZE * PAGE_SIZE
  {
  }

  /** The kernel's table of segments, with its mappings of their pages, in front of its memory. */
  class Segments {
    const mem: Memory
    var shms: seq<Segment>
    var top: nat
    var page: map<nat, nat>
    ghost var shm: set<nat>

    ghost predicate Table()
      reads this
    {
      TableOk(shms, top, page, shm)
    }

    ghost function W(): World
      reads this, mem
    {
      World(mem.View(), shm)
    }

    ghost predicate Valid()
      reads this, mem
    {
      Table() && CowInv(W())
    }

    constructor (mem: Memory)
      requires mem.Valid() && mem.maps == map[] && mem.dead == {}
      ensures Valid() && this.mem == mem && shm == {} && |shms| == 128 && top == 0xF_0000_0000
      ensures forall i :: 0 <= i < 128 ==> !shms[i].used
    {
      this.mem := mem;
      shms := seq(SHM_COUNT, _ => Segment(false, 0, 0));
      top, page, shm := SHM_BASE, map[], {};
      new;
      BootInv(mem.View());
    }

    /** The pages of segment i, in order. */
    ghost function Pages(i: nat): (s: seq<nat>)
      requires i < |shms|
      reads this
      ensures |s| == shms[i].size / PAGE_SIZE
    {
      PagesFrom(page, shms[i].start, shms[i].size / PAGE_SIZE)
    }

    /** One turn of shmAlloc's loop: a blank page becomes the kernel's. */
    method TakePage() returns (p: nat)
      requires CowInv(W()) && mem.free != []
      modifies mem, this`shm
      ensures p == old(mem.free)[0] && mem.free == old(mem.free)[1..] && shm == old(shm) + {p} && p !in old(shm)
      ensures CowInv(W()) && Alpha(W()) == DeepStep(Alpha(old(W())), Step.ShmAlloc(p, ZeroPage()))
    {
      hide Alpha, DeepStep, WritableAlone, ShmMarked, CowMarked, Good, Exact, Listed;
      ghost var a := W();
      var ok;
      NewPage(a);
      ok, p := mem.PageAlloc();
      ghost var c := mem.View();
      mem.KernelKeep(p);
      shm := shm + {p};
      TakenIsStep(a, c, W());
    }

    /** shmAlloc: the first unused segment, on pages that no other segment has; -1 is the panic. */
    method Alloc(size: nat) returns (id: int)
      requires Valid() && size <= 4096 * |mem.free|
      modifies this, mem
      ensures Valid() && |shms| == |old(shms)| == 128
      ensures id == -1 <==> forall i :: 0 <= i < 128 ==> old(shms)[i].used
      ensures id == -1 ==> W() == old(W()) && shms == old(shms) && page == old(page)
      ensures id != -1 ==>
                && 0 <= id < 128 && !old(shms)[id].used && (forall i :: 0 <= i < id ==> old(shms)[i].used)
                && shms == old(shms)[id := Segment(true, old(top), shms[id].size)] && top == old(top) + shms[id].size
                && shms[id].size % 4096 == 0 && size <= shms[id].size < size + 4096
                && |Pages(id)| == shms[id].size / 4096 <= |old(mem.free)| && Pages(id) == old(mem.free)[..|Pages(id)|]
                && (forall va :: va in old(page) ==> va in page && page[va] == old(page)[va])
                && Alpha(W()) == DeepRun(Alpha(old(W())), TakeSteps(Pages(id)))
    {
      hide Alpha, DeepRun, CowInv;
      TableSize();
      var i := 0;
      while i < SHM_COUNT
        invariant 0 <= i <= SHM_COUNT && forall j :: 0 <= j < i ==> shms[j].used
      {
        if !shms[i].used {
          Rounded(size);
          TakePages(i, PagesOf(size));
          return i;
        }
        i := i + 1;
      }
      id := -1;
    }

    /** shmAlloc's work on the segment it found. */
    method TakePages(id: nat, n: nat)
      requires Valid() && id < SHM_COUNT && !shms[id].used && n <= |mem.free|
      modifies this, mem
      ensures Valid() && shms == old(shms)[id := Segment(true, old(top), n * PAGE_SIZE)] && top == old(top) + n * PAGE_SIZE
      ensures Pages(id) == old(mem.free)[..n]
      ensures forall va :: va in old(page) ==> va in page && page[va] == old(page)[va]
      ensures Alpha(W()) == DeepRun(Alpha(old(W())), TakeSteps(Pages(id)))
    {
      hide Alpha, DeepRun, DeepStep, CowInv, Named, Extended, TakeSteps, PagesFrom;
      ghost var a, was, free, s := W(), page, mem.free, shms;
      var start := top;
      shms := shms[id := Segment(true, top, n * PAGE_SIZE)];
      top := top + n * PAGE_SIZE;
      var k, cur := 0, start;
      NoSteps(Alpha(a));
      ExtendedStart(page, top - n * PAGE_SIZE, shm);
      while k < n
        invariant 0 <= k <= n && cur == start + k * PAGE_SIZE
        invariant shms == s[id := Segment(true, start, n * PAGE_SIZE)] && top == start + n * PAGE_SIZE
        invariant CowInv(W()) && mem.free == free[k..]
        invariant Named(page, cur, shm) && Extended(was, page, start, free[..k])
        invariant Alpha(W()) == DeepRun(Alpha(a), TakeSteps(free[..k]))
      {
        ghost var before := shm;
        var p := TakePage();
        assert free[..k] + [p] == free[..k + 1];
        TakeOneMore(free[..k], p);
        RunOneMore(Alpha(a), TakeSteps(free[..k]), Step.ShmAlloc(p, ZeroPage()));
        ExtendedMore(was, page, start, free[..k], p, before);
        page := page[cur := p];
        k, cur := k + 1, cur + PAGE_SIZE;
      }
      TakenTable(s, id, start, n, was, page, free[..n], a.shm, shm);
    }

    /**
     shmAt for a process whose shared-memory heap ends at heap: gives the segment's address, or -1
     for the panic, and the heap's new end. pageMap's failures pass unnoticed; `steps` are the pages that
     were mapped, and `dropped` says whether one was not. That is so exactly if the free pages run
     short at some page of the range.
     */
    method Attach(id: nat, root: nat, heap: nat) returns (addr: int, end: nat, ghost steps: seq<Step>, ghost dropped: bool)
      requires Valid() && id < SHM_COUNT && root in mem.place && mem.place[root].Root?
      requires heap % PAGE_SIZE == 0 && (shms[id].used ==> heap + shms[id].size <= HEAP_LIMIT)
      modifies mem
      ensures Valid()
      ensures addr == if shms[id].used then heap else -1
      ensures end == if shms[id].used then heap + shms[id].size else heap
      ensures !shms[id].used ==> W() == old(W())
      ensures Alpha(W()) == DeepRun(Alpha(old(W())), steps) && forall st :: st in steps ==> st in AttachSteps(root, heap, Pages(id))
      ensures dropped <==> shms[id].used && exists i: nat :: i < |Pages(id)| && Short(old(mem.View()), root, heap, i)
      ensures shms[id].used ==> if dropped then |steps| < |Pages(id)| else steps == AttachSteps(root, heap, Pages(id))
      ensures shms[id].used && !dropped ==> forall k: nat :: k < |Pages(id)| ==>
                && Key(root, PageOf(heap + k * 4096)) in mem.maps
                && mem.maps[Key(root, PageOf(heap + k * 4096))] == Entry(Pages(id)[k], Perm(true, true, true, true, true, true, false, true))
    {
      hide Alpha, DeepRun, DeepStep, CowInv, Attached, Short, PageOf, Frees, Needed, Spots, AttachSteps, TableOk, Inv, PagesFrom;
      steps, dropped := [], false;
      NoSteps(Alpha(W()));
      TableSize();
      if !shms[id].used {
        return -1, heap, [], false;
      }
      ghost var a, pages := W(), Pages(id);
      CowParts(a);
      SegmentPages(id);
      AttachedNone(a.s, root, heap, pages);
      var kernelCur, userCur := shms[id].start, heap;
      var userEnd := heap + shms[id].size;
      ghost var i := 0;
      while userCur < userEnd
        invariant 0 <= i <= |pages| && userCur == heap + i * PAGE_SIZE && kernelCur == shms[id].start + i * PAGE_SIZE
        invariant CowInv(W()) && root in mem.place && mem.place[root].Root?
        invariant Alpha(W()) == DeepRun(Alpha(a), steps) && forall st :: st in steps ==> st in AttachSteps(root, heap, pages)
        invariant dropped <==> exists j: nat :: j < i && Short(a.s, root, heap, j)
        invariant !dropped ==> Attached(a.s, mem.View(), root, heap, pages, i)
        invariant if dropped then |steps| < i else steps == AttachSteps(root, heap, pages[..i])
      {
        ghost var b := W();
        InSegment(shms[id].start, shms[id].size, i);
        assert SegmentPage(id, i);
        NotBefore(root, heap, i);
        var ok := AttachPage(root, userCur, page[kernelCur]);
        if !dropped {
          AttachTurn(a.s, b, mem.View(), root, heap, pages, i, ok);
        }
        if ok {
          StepMore(Alpha(a), steps, root, heap, pages, i);
          steps := steps + [Step.ShmAt(At(root, heap, i), pages[i])];
        } else {
          dropped := true;
        }
        userCur, kernelCur := userCur + PAGE_SIZE, kernelCur + PAGE_SIZE;
        i := i + 1;
      }
      assert pages[..i] == pages;
      if !dropped {
        AllMapped(a.s, mem.View(), root, heap, pages);
      }
      addr, end := heap, userEnd;
    }

    lemma TableSize()
      requires Table()
      ensures |shms| == SHM_COUNT
    {
    }

    lemma SegmentPages(id: nat)
      requires Table() && id < SHM_COUNT && shms[id].used
      ensures shms[id].start % PAGE_SIZE == 0 && shms[id].size % PAGE_SIZE == 0 && forall p :: p in Pages(id) ==> p in shm
      ensures forall k: nat :: k < |Pages(id)| ==> SegmentPage(id, k)
    {
      forall k: nat | k < |Pages(id)| ensures SegmentPage(id, k) {
        InSegment(shms[id].start, shms[id].size, k);
      }
      forall p | p in Pages(id) ensures p in shm {
        var k: nat :| k < |Pages(id)| && Pages(id)[k] == p;
        assert SegmentPage(id, k);
      }
    }

    /** Page k of a segment is mapped for the kernel. */
    ghost predicate SegmentPage(id: nat, k: nat)
      requires id < |shms|
      reads this
    {
      && k < |Pages(id)| && shms[id].start + k * PAGE_SIZE in page
      && page[shms[id].start + k * PAGE_SIZE] == Pages(id)[k] && Pages(id)[k] in shm
    }

    /** One turn of shmAt's loop. */
    method AttachPage(root: nat, va: nat, p: nat) returns (ok: bool)
      requires CowInv(W()) && root in mem.place && mem.place[root].Root? && va < HEAP_LIMIT && p in shm
      modifies mem
      ensures CowInv(W()) && root in mem.place && mem.place[root].Root?
      ensures ok ==> Alpha(W()) == DeepStep(Alpha(old(W())), Step.ShmAt(Key(root, PageOf(va)), p))
      ensures !ok ==> Alpha(W()) == Alpha(old(W()))
      ensures ok ==> mem.maps == old(mem.maps)[Key(root, PageOf(va)) := Entry(p, Perm(true, true, true, true, true, true, false, true))] && mem.kernel == old(mem.kernel)
      ensures var n := Needed(old(mem.place), root, {PageOf(va)});
              && (ok <==> |n| <= |old(mem.free)|)
              && (ok ==> |mem.free| + |n| == |old(mem.free)| + Frees(old(mem.View()), Key(root, PageOf(va)))
                         && Spots(mem.place, root) == Spots(old(mem.place), root) + n)
    {
      hide Alpha, DeepStep, WritableAlone, ShmMarked, CowMarked, Good, Exact, Listed, Toward, Missing, LowOf, Spots, Needed, Frees, PageOf;
      ghost var a := W();
      var key := Key(root, PageOf(va));
      HeapPage(va);
      RootReady(a.s, key);
      ShmPage(a, p);
      if key in mem.maps {
        MapsToFacts(a, key);
      } else {
        NothingFreed(a.s, key);
      }
      NeedIs(a.s, key);
      MappedHasTables(a.s, key);
      ok := mem.PageMap(key, p, SHM_PERM);
      if ok {
        AttachedIsStep(a, W(), key, p);
        SpotsMapped(a.s, mem.View(), key);
        WayIsNeeded(a.s.t.place, key);
      } else {
        FailedIsNothing(a, W());
      }
    }
  }

  lemma AllMapped(a: State, b: State, root: nat, heap: nat, pages: seq<nat>)
    requires Attached(a, b, root, heap, pages, |pages|)
    ensures forall k: nat :: k < |pages| ==>
              && Key(root, PageOf(heap + k * 4096)) in b.t.maps
              && b.t.maps[Key(root, PageOf(heap + k * 4096))] == Entry(pages[k], Perm(true, true, true, true, true, true, false, true))
  {
    hide PageOf, Spots, RangeTables, Returned, InRange;
    forall k: nat | k < |pages|
      ensures Key(root, PageOf(heap + k * 4096)) in b.t.maps
      ensures b.t.maps[Key(root, PageOf(heap + k * 4096))] == Entry(pages[k], Perm(true, true, true, true, true, true, false, true))
    {
      assert At(root, heap, k) in b.t.maps;
    }
  }

  lemma NothingFreed(s: State, key: Key)
    requires key !in s.t.maps
    ensures Frees(s, key) == 0
  {
  }

  lemma WayIsNeeded(place: map<nat, Place>, key: Key)
    ensures Spots(place, key.root) + Way(key.v) == Spots(place, key.root) + Needed(place, key.root, {key.v})
  {
    hide Spots;
    WaysUnion({}, {});
  }

  lemma StepMore(d: Deep, steps: seq<Step>, root: nat, heap: nat, pages: seq<nat>, i: nat)
    requires i < |pages|
    ensures var st := Step.ShmAt(At(root, heap, i), pages[i]);
            && DeepRun(d, steps + [st]) == DeepStep(DeepRun(d, steps), st) && st in AttachSteps(root, heap, pages)
            && AttachSteps(root, heap, pages[..i + 1]) == AttachSteps(root, heap, pages[..i]) + [st]
  {
    hide DeepStep, DeepRun, PageOf;
    var st := Step.ShmAt(At(root, heap, i), pages[i]);
    AttachOneMore(root, heap, pages, i);
    RunOneMore(d, steps, st);
    assert AttachSteps(root, heap, pages)[i] == st;
  }

  /** A turn of the loop fails exactly where the pages run short. */
  lemma AttachTurn(a: State, w: World, c: State, root: nat, heap: nat, pages: seq<nat>, i: nat, ok: bool)
    requires Inv(a) && CowInv(w) && Attached(a, w.s, root, heap, pages, i) && i < |pages|
    requires heap % PAGE_SIZE == 0 && heap + i * PAGE_SIZE < HEAP_LIMIT && forall p :: p in pages ==> p in w.shm
    requires var key, n := At(root, heap, i), Needed(w.s.t.place, root, {PageOf(heap + i * PAGE_SIZE)});
             && (ok <==> |n| <= |w.s.free|)
             && (ok ==> c.t.maps == w.s.t.maps[key := Entry(pages[i], AccessedDirty(SHM_PERM))] && c.kernel == w.s.kernel
                        && Spots(c.t.place, root) == Spots(w.s.t.place, root) + n
                        && |c.free| + |n| == |w.s.free| + Frees(w.s, key))
    ensures ok <==> !Short(a, root, heap, i)
    ensures ok ==> Attached(a, c, root, heap, pages, i + 1)
  {
    hide PageOf, Spots, Frees, Returned, RangeTables, Needed, CowInv, Inv;
    TablesMore(a, w.s, root, heap, pages, i);
    NotBefore(root, heap, i);
    if ok {
      ReturnedMore(a, w, root, heap, pages, i);
      AttachedMore(a, w.s, c, root, heap, pages, i);
    }
  }

  lemma NoSteps(d: Deep)
    ensures DeepRun(d, []) == d && TakeSteps([]) == []
    ensures forall root: nat, va: nat :: AttachSteps(root, va, []) == []
  {
  }

  /** The table once the pages of its new segment are mapped. */
  lemma TakenTable(s: seq<Segment>, id: nat, start: nat, n: nat, was: map<nat, nat>, page: map<nat, nat>, pages: seq<nat>,
                   few: set<nat>, shm: set<nat>)
    requires TableOk(s, start, was, few) && id < SHM_COUNT && !s[id].used && |pages| == n
    requires Named(page, start + n * PAGE_SIZE, shm) && Extended(was, page, start, pages)
    ensures TableOk(s[id := Segment(true, start, n * PAGE_SIZE)], start + n * PAGE_SIZE, page, shm)
    ensures PagesFrom(page, start, n * PAGE_SIZE / PAGE_SIZE) == pages && forall va :: va in was ==> va in page && page[va] == was[va]
  {
    var t := s[id := Segment(true, start, n * PAGE_SIZE)];
    forall i, va | 0 <= i < SHM_COUNT && t[i].used && t[i].start <= va < t[i].start + t[i].size && va % PAGE_SIZE == 0
      ensures va in page
    {
      if i == id {
        AlignedPage(start, n, va);
        assert start + (va - start) / PAGE_SIZE * PAGE_SIZE in page;
      } else {
        assert s[i] == t[i];
      }
    }
  }

  // ----- what sharing means -------------------------------------------------------------------

  /** What a process finds at a page. */
  function Read(d: Deep, key: Key): Content
    requires key in d.spaces && (d.spaces[key].Shared? ==> d.spaces[key].id in d.shm)
  {
    match d.spaces[key] {
      case Private(content) => content
      case Shared(id) => d.shm[id]
    }
  }

  /** A range of pages within the heap, so that no two of them coincide. */
  ghost predicate InHeap(va: nat, n: nat) {
    va % PAGE_SIZE == 0 && va + n * PAGE_SIZE <= HEAP_LIMIT
  }

  /** Attaching names exactly the segment's objects at exactly the range's pages. */
  lemma {:induction false} AttachedAt(d: Deep, root: nat, va: nat, pages: seq<nat>, key: Key)
    requires InHeap(va, |pages|)
    ensures var e := DeepRun(d, AttachSteps(root, va, pages));
            && e.shm == d.shm
            && (forall k :: 0 <= k < |pages| && key == At(root, va, k) ==> key in e.spaces && e.spaces[key] == Shared(pages[k]))
            && ((forall k :: 0 <= k < |pages| ==> key != At(root, va, k)) ==>
                  (key in e.spaces <==> key in d.spaces) && (key in d.spaces ==> e.spaces[key] == d.spaces[key]))
  {
    hide PageOf;
    if pages == [] {
      NoSteps(d);
    } else {
      var n := |pages| - 1;
      AttachedAt(d, root, va, pages[..n], key);
      AttachOneMore(root, va, pages, n);
      assert pages[..n + 1] == pages;
      RunOneMore(d, AttachSteps(root, va, pages[..n]), Step.ShmAt(At(root, va, n), pages[n]));
      forall k | 0 <= k < n ensures At(root, va, k) != At(root, va, n) {
        PagesApart(va, k, n);
      }
    }
  }

  /** Two processes that attach a segment read, at its k-th page, what either of them last stored there. */
  lemma SharedSeen(d: Deep, one: nat, va: nat, other: nat, vb: nat, pages: seq<nat>, k: nat, off: nat, data: seq<Byte>)
    requires one != other && InHeap(va, |pages|) && InHeap(vb, |pages|) && k < |pages| && pages[k] in d.shm
    ensures var e := DeepRun(DeepRun(d, AttachSteps(one, va, pages)), AttachSteps(other, vb, pages));
            var w := DeepStep(e, Store(At(one, va, k), off, data));
            && At(other, vb, k) in w.spaces && w.spaces[At(other, vb, k)] == Shared(pages[k]) && pages[k] in w.shm
            && Read(w, At(other, vb, k)) == Put(d.shm[pages[k]], off, data)
  {
    hide PageOf;
    var c := DeepRun(d, AttachSteps(one, va, pages));
    AttachedAt(d, one, va, pages, At(one, va, k));
    AttachedAt(c, other, vb, pages, At(one, va, k));
    AttachedAt(c, other, vb, pages, At(other, vb, k));
  }

  /** And a process created by fork shares what its parent had attached. */
  lemma ForkShares(d: Deep, parent: nat, child: nat, lost: set<VPage>, v: VPage, off: nat, data: seq<Byte>)
    requires v !in lost && Key(parent, v) in d.spaces && d.spaces[Key(parent, v)].Shared? && d.spaces[Key(parent, v)].id in d.shm && parent != child
    ensures var w := DeepStep(DeepStep(d, Fork(parent, child, lost)), Store(Key(child, v), off, data));
            && Key(parent, v) in w.spaces && w.spaces[Key(parent, v)] == d.spaces[Key(parent, v)] && w.shm.Keys == d.shm.Keys
            && Read(w, Key(parent, v)) == Put(Read(d, Key(parent, v)), off, data)
  {
    var e := DeepStep(d, Fork(parent, child, lost));
    assert Key(child, v) in ForkKeys(d.spaces.Keys, parent, child);
  }

  /** Different segments have no page in common. */
  lemma SegmentsApart(shms: seq<Segment>, top: nat, page: map<nat, nat>, shm: set<nat>, i: nat, j: nat, k: nat, l: nat)
    requires TableOk(shms, top, page, shm) && i < SHM_COUNT && j < SHM_COUNT && i != j && shms[i].used && shms[j].used
    requires k < shms[i].size / PAGE_SIZE && l < shms[j].size / PAGE_SIZE
    ensures PagesFrom(page, shms[i].start, shms[i].size / PAGE_SIZE)[k] != PagesFrom(page, shms[j].start, shms[j].size / PAGE_SIZE)[l]
  {
    InSegment(shms[i].start, shms[i].size, k);
    InSegment(shms[j].start, shms[j].size, l);
  }

  lemma NewPage(a: World)
    requires CowInv(a) && a.s.free != []
    ensures a.s.free[0] !in a.shm && a.s.free[0] < |a.s.t.table| && a.s.free[0] < |a.s.bytes|
    ensures a.s.free[0] in Loose(Popped(a.s))
  {
    hide WritableAlone, CowMarked, Good;
    PoppedInv(a.s);
    if a.s.free[0] in a.shm {
      ShmFacts(a, a.s.free[0]);
    }
  }

  lemma InSegment(start: nat, size: nat, k: nat)
    requires start % PAGE_SIZE == 0 && size % PAGE_SIZE == 0 && k < size / PAGE_SIZE
    ensures start + k * PAGE_SIZE < start + size && (start + k * PAGE_SIZE) % PAGE_SIZE == 0
  {
  }
}
