/**
 What the process layer does to whole address spaces: the copy-on-write fault handler and the
 sharing loop of fork.
 */
module AddressSpaces {
  import opened PageTables
  import opened PhysicalMemory
  import opened TableSpots
  import opened KernelMemory

  const TRAMPOLINE := VPage(255, 511, 511)
  const TRAPFRAME := VPage(255, 511, 510)
  const SIGNAL_TRAMPOLINE := VPage(255, 511, 509)

  /** The three constants are the top pages below VA_MAX, 2^38. */
  lemma TopPages()
    ensures TRAMPOLINE == PageOf(0x40_0000_0000 - 0x1000)
    ensures TRAPFRAME == PageOf(0x40_0000_0000 - 0x2000)
    ensures SIGNAL_TRAMPOLINE == PageOf(0x40_0000_0000 - 0x3000)
  {
  }

  // ----- cowHandler --------------------------------------------------------------------

  function Writable(p: Perm): Perm {
    p.(w := true, cow := false)
  }

  /** A private copy replaces the shared page at `key`; everything else in use stays. */
  ghost predicate CowBroken(a: State, b: State, key: Key) {
    && Sized(a) && Sized(b) && |b.ref| == |a.ref|
    && key in a.t.maps && a.t.maps[key].Entry? && a.t.maps[key].ppn < |a.bytes|
    && key in b.t.maps && b.t.maps[key].Entry? && b.t.maps[key].ppn in a.free
    && b.t.maps[key].ppn < |b.bytes| && b.bytes[b.t.maps[key].ppn] == a.bytes[a.t.maps[key].ppn]
    && b.t.maps == a.t.maps[key := Entry(b.t.maps[key].ppn, AccessedDirty(Writable(a.t.maps[key].perm)))]
    && b.kernel == a.kernel && b.t.place == a.t.place && b.t.dead == a.t.dead && Loose(b) == Loose(a)
    && (forall p: nat :: p < |a.ref| && p !in a.free ==> b.bytes[p] == a.bytes[p])
  }

  /**
   cowHandler on a mapped position. The source panics when the entry is not marked or no page is
   left; both are the result false, with nothing changed.
   */
  method CowHandler(mem: Memory, key: Key) returns (ok: bool)
    requires mem.Valid() && mem.dead == {} && Alive(mem.T(), key) && key in mem.maps
    modifies mem
    ensures mem.Valid() && Alive(mem.T(), key)
    ensures ok <==> old(mem.maps)[key].perm.cow && old(mem.free) != []
    ensures !ok ==> mem.View() == old(mem.View())
    ensures ok ==> CowBroken(old(mem.View()), mem.View(), key) && |mem.free| + 1 >= |old(mem.free)|
    ensures ok ==> mem.maps[key].perm == old(mem.maps)[key].perm.(w := true, cow := false, a := true, d := true)
  {
    hide Good, Exact, Users, Missing, Took, Inserted, Loose, LowOf, Alive;
    ghost var a := mem.View();
    MappedIsCounted(a, key);
    MappedHasTables(a, key);
    var page, low := mem.PageLookup(key);
    var e := mem.table[low.value][key.v.k];
    if !e.perm.cow {
      return false;
    }
    var copy;
    ok, copy := mem.PageAlloc();
    if !ok {
      return;
    }
    PoppedIsLoose(a, key);
    ghost var b := mem.View();
    mem.bytes := mem.bytes[copy := mem.bytes[page.value]];
    ghost var c := mem.View();
    BytesFree(b, c);
    ok := mem.PageInsert(key, copy, Writable(e.perm));
    CowIsBroken(a, c, mem.View(), key);
  }

  lemma BytesFree(b: State, c: State)
    requires Inv(b) && c == b.(bytes := c.bytes) && |c.bytes| == |b.bytes| && Full(c)
    ensures Inv(c) && Loose(c) == Loose(b)
  {
  }

  lemma PoppedIsLoose(a: State, key: Key)
    requires Inv(a) && a.free != [] && key in a.t.maps && Alive(a.t, key)
    ensures a.free[0] < |a.t.table| && a.free[0] < |a.bytes| && Shape(Popped(a).t)
    ensures a.free[0] !in a.t.place && a.free[0] !in Popped(a).free && a.free[0] < |a.ref|
    ensures Loose(Popped(a)) == Loose(a) + {a.free[0]} && a.free[0] !in Loose(a)
    ensures Alive(Popped(a).t, key) && Missing(Popped(a).t, key) == 0
    ensures a.t.maps[key].Entry? && a.t.maps[key].ppn != a.free[0]
  {
    hide Exact, Users;
    FreeIsUnused(a, a.free[0]);
    PoppedInv(a);
    var m, g := PathOf(a.t, key);
    SameWalk(a.t, Popped(a).t, key, m, g);
  }

  lemma CowIsBroken(a: State, c: State, b: State, key: Key)
    requires Inv(a) && a.free != [] && key in a.t.maps && a.t.maps[key].Entry? && a.t.maps[key].ppn < |a.bytes|
    requires a.free[0] < |a.t.table| && a.free[0] < |a.bytes| && a.free[0] !in Loose(a)
    requires c == Popped(a).(bytes := Popped(a).bytes[a.free[0] := a.bytes[a.t.maps[key].ppn]])
    requires Loose(Popped(a)) == Loose(a) + {a.free[0]} && Loose(c) == Loose(Popped(a))
    requires Inserted(c, b, key, Entry(a.free[0], AccessedDirty(Writable(a.t.maps[key].perm))))
    requires b.t.place == c.t.place && b.bytes == c.bytes
    ensures CowBroken(a, b, key)
  {
    hide Good, Exact, Loose;
  }

  // ----- fork --------------------------------------------------------------------------

  /** The order in which the triple loops visit virtual pages. */
  function Rank(v: VPage): nat {
    v.i * 0x4_0000 + v.j * 0x200 + v.k
  }

  predicate Skipped(v: VPage) {
    v == TRAMPOLINE || v == TRAPFRAME
  }

  /** A writable entry that is not shared memory loses its write bit and is marked. */
  function Cowed(p: Perm): Perm {
    if p.w && !p.shm then p.(cow := true, w := false) else p
  }

  /** fork's loop body handles page v of the parent. */
  ghost predicate Forks(a: State, parent: nat, lo: int, hi: int, v: VPage) {
    lo <= Rank(v) < hi && !Skipped(v) && Key(parent, v) in a.t.maps && a.t.maps[Key(parent, v)].Entry?
  }

  ghost predicate SameAt(a: State, b: State, key: Key) {
    (key in b.t.maps <==> key in a.t.maps) && (key in a.t.maps ==> b.t.maps[key] == a.t.maps[key])
  }

  /**
   The parent keeps page v, marked; the child maps the same physical page with the same bits. Of a
   page that was lost the child has nothing.
   */
  ghost predicate SharedAt(a: State, b: State, parent: nat, child: nat, v: VPage, missed: bool)
    requires Key(parent, v) in a.t.maps && a.t.maps[Key(parent, v)].Entry?
  {
    var e := a.t.maps[Key(parent, v)];
    && Key(parent, v) in b.t.maps && b.t.maps[Key(parent, v)] == Entry(e.ppn, Cowed(e.perm))
    && if missed then Key(child, v) !in a.t.maps && Key(child, v) !in b.t.maps
       else Key(child, v) in b.t.maps && b.t.maps[Key(child, v)] == Entry(e.ppn, AccessedDirty(Cowed(e.perm)))
  }

  /** What the loop has done from a to b for the pages ranked lo up to hi, but for the child's pages in lost. */
  ghost predicate Forked(a: State, b: State, parent: nat, child: nat, lo: int, hi: int, lost: set<VPage>) {
    && Sized(a) && Sized(b) && |b.ref| == |a.ref|
    && b.kernel == a.kernel && b.t.dead == a.t.dead && Loose(b) == Loose(a)
    && (forall p :: p in a.t.place ==> p in b.t.place && b.t.place[p] == a.t.place[p])
    && (forall p :: p in b.t.place && p !in a.t.place ==> !b.t.place[p].Root? && p in a.free)
    && (forall p: nat :: p < |a.ref| && p !in a.free ==> b.bytes[p] == a.bytes[p])
    && (forall p :: p in b.free ==> p in a.free)
    && (forall v: VPage :: v in lost ==> Forks(a, parent, lo, hi, v))
    && (forall v: VPage :: Forks(a, parent, lo, hi, v) ==> SharedAt(a, b, parent, child, v, v in lost))
    && (forall key: Key :: !(key.root in {parent, child} && Forks(a, parent, lo, hi, key.v)) ==> SameAt(a, b, key))
  }

  // ----- which pages are lost for want of tables -------------------------------------------

  /** The pages ranked lo up to hi that fork handles. */
  ghost function ForkedPages(s: State, parent: nat, lo: int, hi: int): (r: set<VPage>)
    ensures forall v: VPage :: v in r <==> Forks(s, parent, lo, hi, v)
  {
    assert forall v: VPage :: Forks(s, parent, lo, hi, v) ==> Key(parent, v).v == v;
    set key | key in s.t.maps && key.root == parent && Forks(s, parent, lo, hi, key.v) :: key.v
  }

  /** The tables that the child lacks for them. */
  ghost function TablesFor(s: State, parent: nat, child: nat, lo: int, hi: int): set<Spot> {
    Needed(s.t.place, child, ForkedPages(s, parent, lo, hi))
  }

  /** How many table pages it takes to share every page of the parent with the child. */
  ghost function NewTables(s: State, parent: nat, child: nat): nat {
    |TablesFor(s, parent, child, 0, ALL_PAGES)|
  }

  /** Page v has no bottom-level table in the child, and by its turn the free pages do not stretch to one. */
  ghost predicate TooLate(s: State, parent: nat, child: nat, lo: int, v: VPage) {
    LowSpot(v.i, v.j) !in Spots(s.t.place, child) && |s.free| < |TablesFor(s, parent, child, lo, Rank(v) + 1)|
  }

  /** Pages are lost exactly as the free list before the loop says, and tables are added accordingly. */
  ghost predicate Served(a: State, b: State, parent: nat, child: nat, lo: int, hi: int, lost: set<VPage>) {
    var n := TablesFor(a, parent, child, lo, hi);
    && (forall v: VPage :: v in lost <==> Forks(a, parent, lo, hi, v) && TooLate(a, parent, child, lo, v))
    && (lost == {} <==> |n| <= |a.free|)
    && if |n| <= |a.free| then |b.free| + |n| == |a.free| && Spots(b.t.place, child) == Spots(a.t.place, child) + n
       else b.free == [] && forall v: VPage :: hi <= Rank(v) ==>
              (LowSpot(v.i, v.j) in Spots(b.t.place, child) <==> LowSpot(v.i, v.j) in Spots(a.t.place, child))
  }

  /** Pages up to a later one need no fewer tables. */
  lemma TablesGrow(s: State, parent: nat, child: nat, lo: int, mid: int, hi: int)
    requires lo <= mid <= hi
    ensures TablesFor(s, parent, child, lo, mid) <= TablesFor(s, parent, child, lo, hi)
    ensures |TablesFor(s, parent, child, lo, mid)| <= |TablesFor(s, parent, child, lo, hi)|
  {
    hide Spots;
    SubsetSize(TablesFor(s, parent, child, lo, mid), TablesFor(s, parent, child, lo, hi));
  }

  lemma SubsetSize<T>(a: set<T>, b: set<T>)
    requires a <= b
    ensures |a| <= |b| && |b - a| == |b| - |a|
  {
    assert b == a + (b - a);
  }

  /** What the second stretch finds of the parent is what was there before the first. */
  lemma SameForks(a: State, b: State, parent: nat, child: nat, lo: int, mid: int, x: int, lost: set<VPage>)
    requires Forked(a, b, parent, child, lo, mid, lost)
    ensures ForkedPages(b, parent, mid, x) == ForkedPages(a, parent, mid, x)
    ensures forall v: VPage :: Forks(b, parent, mid, x, v) <==> Forks(a, parent, mid, x, v)
  {
    hide Loose, SharedAt;
    forall v: VPage ensures Forks(b, parent, mid, x, v) <==> Forks(a, parent, mid, x, v) {
      assert mid <= Rank(v) ==> SameAt(a, b, Key(parent, v));
    }
  }

  /** While no page is lost, the tables for two stretches are those for the first and then those for the second. */
  lemma TablesSplit(a: State, b: State, parent: nat, child: nat, lo: int, mid: int, x: int, lost: set<VPage>)
    requires lo <= mid <= x && Forked(a, b, parent, child, lo, mid, lost)
    requires Spots(b.t.place, child) == Spots(a.t.place, child) + TablesFor(a, parent, child, lo, mid)
    ensures |TablesFor(a, parent, child, lo, x)| == |TablesFor(a, parent, child, lo, mid)| + |TablesFor(b, parent, child, mid, x)|
    ensures TablesFor(a, parent, child, lo, x) == TablesFor(a, parent, child, lo, mid) + TablesFor(b, parent, child, mid, x)
  {
    SameForks(a, b, parent, child, lo, mid, x, lost);
    hide Forked, Spots, Ways;
    assert ForkedPages(a, parent, lo, x) == ForkedPages(a, parent, lo, mid) + ForkedPages(a, parent, mid, x);
    hide ForkedPages;
    NeededSplit(ForkedPages(a, parent, lo, mid), ForkedPages(a, parent, mid, x), Spots(a.t.place, child), Spots(b.t.place, child));
  }

  lemma NeededSplit(first: set<VPage>, then_: set<VPage>, s: set<Spot>, t: set<Spot>)
    requires t == s + (Ways(first) - s)
    ensures Ways(first + then_) - s == (Ways(first) - s) + (Ways(then_) - t)
    ensures |Ways(first + then_) - s| == |Ways(first) - s| + |Ways(then_) - t|
  {
    WaysUnion(first, then_);
    assert (Ways(first) - s) !! (Ways(then_) - t);
  }

  /** Pages between two of one row are of that row, so they need no table that the first has. */
  lemma RowNeedsNothing(s: State, parent: nat, child: nat, first: VPage, mid: int, x: int, last: VPage)
    requires first.i == last.i && first.j == last.j && Rank(first) < mid && x <= Rank(last) + 1
    requires Way(first) <= Spots(s.t.place, child)
    ensures TablesFor(s, parent, child, mid, x) == {}
  {
    hide Spots;
    forall v: VPage | Forks(s, parent, mid, x, v) ensures Way(v) == Way(first) {
      Between(first, v, last);
    }
    forall t | t in Ways(ForkedPages(s, parent, mid, x)) ensures t in Spots(s.t.place, child) {
      WaysOf(ForkedPages(s, parent, mid, x), t);
    }
  }

  lemma Between(first: VPage, v: VPage, last: VPage)
    requires first.i == last.i && first.j == last.j && Rank(first) <= Rank(v) <= Rank(last)
    ensures v.i == first.i && v.j == first.j
  {
    RankRow(v, first.i, first.j);
  }

  /** Consecutive stretches lose pages, and add tables, as one. */
  lemma ServedTrans(a: State, b: State, c: State, parent: nat, child: nat, lo: int, mid: int, hi: int, l1: set<VPage>, l2: set<VPage>)
    requires lo <= mid <= hi && Forked(a, b, parent, child, lo, mid, l1)
    requires Served(a, b, parent, child, lo, mid, l1) && Served(b, c, parent, child, mid, hi, l2)
    ensures Served(a, c, parent, child, lo, hi, l1 + l2)
  {
    hide Forked, TooLate, Spots, TablesFor;
    TablesGrow(a, parent, child, lo, mid, hi);
    if |TablesFor(a, parent, child, lo, mid)| <= |a.free| {
      TablesSplit(a, b, parent, child, lo, mid, hi, l1);
    }
    forall v: VPage ensures v in l1 + l2 <==> Forks(a, parent, lo, hi, v) && TooLate(a, parent, child, lo, v) {
      LostTrans(a, b, parent, child, lo, mid, hi, l1, v);
    }
    forall v: VPage | hi <= Rank(v) && |TablesFor(a, parent, child, lo, hi)| > |a.free|
      ensures LowSpot(v.i, v.j) in Spots(c.t.place, child) <==> LowSpot(v.i, v.j) in Spots(a.t.place, child)
    {
      LaterTrans(a, b, c, parent, child, lo, mid, hi, l1, l2, v);
    }
  }

  /** What Served says of one page. */
  lemma ServedAt(a: State, b: State, parent: nat, child: nat, lo: int, hi: int, lost: set<VPage>, v: VPage)
    requires Served(a, b, parent, child, lo, hi, lost)
    ensures v in lost <==> Forks(a, parent, lo, hi, v) && TooLate(a, parent, child, lo, v)
    ensures var n := TablesFor(a, parent, child, lo, hi);
            if |n| <= |a.free| then |b.free| + |n| == |a.free| && Spots(b.t.place, child) == Spots(a.t.place, child) + n
            else b.free == [] && (hi <= Rank(v) ==>
                   (LowSpot(v.i, v.j) in Spots(b.t.place, child) <==> LowSpot(v.i, v.j) in Spots(a.t.place, child)))
  {
    hide Forks, TooLate, TablesFor, Spots;
  }

  lemma LostTrans(a: State, b: State, parent: nat, child: nat, lo: int, mid: int, hi: int, l1: set<VPage>, v: VPage)
    requires lo <= mid <= hi && Forked(a, b, parent, child, lo, mid, l1) && Served(a, b, parent, child, lo, mid, l1)
    ensures Forks(a, parent, lo, hi, v) && TooLate(a, parent, child, lo, v)
            <==> v in l1 || (Forks(b, parent, mid, hi, v) && TooLate(b, parent, child, mid, v))
  {
    hide Forked, Served, Spots, TablesFor, Rank, Skipped;
    ServedAt(a, b, parent, child, lo, mid, l1, v);
    SameForks(a, b, parent, child, lo, mid, hi, l1);
    if Forks(a, parent, mid, hi, v) {
      var x := Rank(v) + 1;
      TablesGrow(a, parent, child, lo, mid, x);
      if |TablesFor(a, parent, child, lo, mid)| <= |a.free| {
        TablesSplit(a, b, parent, child, lo, mid, x, l1);
        if LowSpot(v.i, v.j) in TablesFor(a, parent, child, lo, mid) {
          SameRow(a, b, parent, child, lo, mid, x, v);
        }
      } else if LowSpot(v.i, v.j) !in Spots(b.t.place, child) {
        NeedsOwn(b, parent, child, mid, hi, v);
      }
    }
  }

  /** A table that an earlier page of the row has made is all that this page needs. */
  lemma SameRow(a: State, b: State, parent: nat, child: nat, lo: int, mid: int, x: int, v: VPage)
    requires LowSpot(v.i, v.j) in TablesFor(a, parent, child, lo, mid) && mid <= Rank(v) && x <= Rank(v) + 1
    requires Spots(b.t.place, child) == Spots(a.t.place, child) + TablesFor(a, parent, child, lo, mid)
    ensures TablesFor(b, parent, child, mid, x) == {}
  {
    hide Spots;
    WaysOf(ForkedPages(a, parent, lo, mid), LowSpot(v.i, v.j));
    var first :| first in ForkedPages(a, parent, lo, mid) && LowSpot(v.i, v.j) in Way(first);
    forall t | t in Way(first) ensures t in Spots(b.t.place, child) {
      WaysOf(ForkedPages(a, parent, lo, mid), t);
    }
    RowNeedsNothing(b, parent, child, first, mid, x, v);
  }

  lemma NeedsOwn(s: State, parent: nat, child: nat, lo: int, hi: int, v: VPage)
    requires Forks(s, parent, lo, hi, v) && LowSpot(v.i, v.j) !in Spots(s.t.place, child)
    ensures |TablesFor(s, parent, child, lo, Rank(v) + 1)| > 0
  {
    hide Spots;
    WaysOf(ForkedPages(s, parent, lo, Rank(v) + 1), LowSpot(v.i, v.j));
    assert LowSpot(v.i, v.j) in TablesFor(s, parent, child, lo, Rank(v) + 1);
  }

  lemma LaterTrans(a: State, b: State, c: State, parent: nat, child: nat, lo: int, mid: int, hi: int, l1: set<VPage>, l2: set<VPage>, v: VPage)
    requires lo <= mid <= hi <= Rank(v) && Forked(a, b, parent, child, lo, mid, l1)
    requires Served(a, b, parent, child, lo, mid, l1) && Served(b, c, parent, child, mid, hi, l2)
    requires |TablesFor(a, parent, child, lo, hi)| > |a.free|
    ensures LowSpot(v.i, v.j) in Spots(c.t.place, child) <==> LowSpot(v.i, v.j) in Spots(a.t.place, child)
  {
    hide Forked, Served, TooLate, Spots, TablesFor, Rank;
    ServedAt(a, b, parent, child, lo, mid, l1, v);
    ServedAt(b, c, parent, child, mid, hi, l2, v);
    if |TablesFor(a, parent, child, lo, mid)| <= |a.free| {
      TablesSplit(a, b, parent, child, lo, mid, hi, l1);
      if LowSpot(v.i, v.j) in TablesFor(a, parent, child, lo, mid) {
        SameRow(a, b, parent, child, lo, mid, hi, v);
      }
    } else if |TablesFor(b, parent, child, mid, hi)| == 0 {
      assert TablesFor(b, parent, child, mid, hi) == {};
    }
  }

  lemma ForkedNothing(a: State, parent: nat, child: nat, lo: int, hi: int)
    requires Inv(a) && forall v: VPage :: !Forks(a, parent, lo, hi, v)
    ensures Forked(a, a, parent, child, lo, hi, {}) && Served(a, a, parent, child, lo, hi, {})
  {
    hide Good, Exact, Spots;
    assert ForkedPages(a, parent, lo, hi) == {};
    WaysUnion({}, {});
    assert TablesFor(a, parent, child, lo, hi) == {};
  }

  lemma ForkedTrans(a: State, b: State, c: State, parent: nat, child: nat, lo: int, mid: int, hi: int, l1: set<VPage>, l2: set<VPage>)
    requires parent != child && lo <= mid <= hi
    requires Forked(a, b, parent, child, lo, mid, l1) && Forked(b, c, parent, child, mid, hi, l2)
    ensures Forked(a, c, parent, child, lo, hi, l1 + l2)
  {
    hide Cowed, AccessedDirty, Loose;
    forall v: VPage | Forks(a, parent, lo, hi, v)
      ensures SharedAt(a, c, parent, child, v, v in l1 + l2)
    {
      ForkedTransAt(a, b, c, parent, child, lo, mid, hi, l1, l2, v);
    }
    forall v: VPage | v in l2 ensures Forks(a, parent, lo, hi, v) {
      assert SameAt(a, b, Key(parent, v));
    }
    forall key: Key | !(key.root in {parent, child} && Forks(a, parent, lo, hi, key.v))
      ensures SameAt(a, c, key)
    {
      assert SameAt(a, b, key);
      assert SameAt(a, b, Key(parent, key.v)) || Forks(a, parent, lo, mid, key.v);
      assert SameAt(b, c, key);
    }
  }

  lemma ForkedTransAt(a: State, b: State, c: State, parent: nat, child: nat, lo: int, mid: int, hi: int, l1: set<VPage>, l2: set<VPage>, v: VPage)
    requires parent != child && lo <= mid <= hi && Forks(a, parent, lo, hi, v)
    requires Forked(a, b, parent, child, lo, mid, l1) && Forked(b, c, parent, child, mid, hi, l2)
    ensures SharedAt(a, c, parent, child, v, v in l1 + l2)
  {
    hide Cowed, AccessedDirty, Loose;
    if Rank(v) < mid {
      assert SharedAt(a, b, parent, child, v, v in l1);
      assert v !in l2;
      assert SameAt(b, c, Key(parent, v)) && SameAt(b, c, Key(child, v));
    } else {
      assert SameAt(a, b, Key(parent, v)) && SameAt(a, b, Key(child, v));
      assert v !in l1;
      assert SharedAt(b, c, parent, child, v, v in l2);
    }
  }

  /** Before fork, a new process maps nothing but kernel-owned pages. */
  ghost predicate OnlyKernelPages(s: State, child: nat, v: VPage) {
    Key(child, v) in s.t.maps ==>
      s.t.maps[Key(child, v)].Entry? && s.t.maps[Key(child, v)].ppn < |s.kernel|
      && s.kernel[s.t.maps[Key(child, v)].ppn] > 0
  }

  function OneIf(v: VPage, missed: bool): set<VPage> { if missed then {v} else {} }

  lemma ForkedOne(a: State, n: State, b: State, parent: nat, child: nat, v: VPage, missed: bool)
    requires parent != child && Inv(a) && Inv(b) && !Skipped(v) && OnlyKernelPages(a, child, v)
    requires Key(parent, v) in a.t.maps && a.t.maps[Key(parent, v)].Entry?
    requires var e := a.t.maps[Key(parent, v)];
             && (n == a || Inserted(a, n, Key(parent, v), Entry(e.ppn, Cowed(e.perm))))
             && (n == a ==> Cowed(e.perm) == e.perm) && n.free == a.free && n.ref == a.ref
             && (if missed then Took(n, b) && Key(child, v) !in n.t.maps
                 else Inserted(n, b, Key(child, v), Entry(e.ppn, AccessedDirty(Cowed(e.perm)))))
    ensures Forked(a, b, parent, child, Rank(v), Rank(v) + 1, OneIf(v, missed)) && b.t.dead == a.t.dead
  {
    hide Good, Exact, Cowed, AccessedDirty, Forks, SharedAt, SameAt, OnlyKernelPages;
    MappedIsCounted(a, Key(parent, v));
    ForkedMaps(a, b, parent, child, v, missed);
    ForkedFree(a, n, b, child, v);
    assert a.t.maps[Key(parent, v)].ppn !in Loose(a);
  }

  lemma ForkedMaps(a: State, b: State, parent: nat, child: nat, v: VPage, missed: bool)
    requires parent != child && !Skipped(v)
    requires Key(parent, v) in a.t.maps && a.t.maps[Key(parent, v)].Entry? && (missed ==> Key(child, v) !in a.t.maps)
    requires var e := a.t.maps[Key(parent, v)];
             var m := a.t.maps[Key(parent, v) := Entry(e.ppn, Cowed(e.perm))];
             b.t.maps == if missed then m else m[Key(child, v) := Entry(e.ppn, AccessedDirty(Cowed(e.perm)))]
    ensures forall w: VPage :: w in OneIf(v, missed) ==> Forks(a, parent, Rank(v), Rank(v) + 1, w)
    ensures forall w: VPage :: Forks(a, parent, Rank(v), Rank(v) + 1, w) ==> SharedAt(a, b, parent, child, w, w in OneIf(v, missed))
    ensures forall key: Key :: !(key.root in {parent, child} && Forks(a, parent, Rank(v), Rank(v) + 1, key.v)) ==> SameAt(a, b, key)
  {
    hide Cowed, AccessedDirty;
    RankInjective();
  }

  /** One page loses its place in the child exactly if the free pages do not stretch to its tables. */
  lemma ServedOne(a: State, n: State, b: State, parent: nat, child: nat, v: VPage, ok: bool)
    requires Inv(n) && Inv(b) && n.t.dead == {} && n.t.place == a.t.place && n.free == a.free
    requires child in n.t.place && n.t.place[child].Root?
    requires !Skipped(v) && Key(parent, v) in a.t.maps && a.t.maps[Key(parent, v)].Entry?
    requires Toward(n.t, b.t, Key(child, v)) && (ok <==> Missing(n.t, Key(child, v)) <= |n.free|)
    requires ok ==> Key(child, v) in b.t.maps && |b.free| == |n.free| - Missing(n.t, Key(child, v))
    requires !ok ==> b.free == [] && LowOf(b.t, Key(child, v)) == None
    ensures Served(a, b, parent, child, Rank(v), Rank(v) + 1, OneIf(v, !ok))
  {
    hide Inv, Spots, Toward, Missing, LowOf, Forks, Served, Needed;
    GoodOf(n);
    GoodOf(b);
    MissingIs(n.t, Key(child, v));
    if ok {
      SpotsAfter(n.t, b.t, Key(child, v));
      ServedPage(a, b, parent, child, v, Rank(v), Rank(v) + 1);
    } else {
      LostOne(n.t, b.t, Key(child, v));
      LostPage(a, b, parent, child, v, Rank(v), Rank(v) + 1);
    }
  }

  lemma ServedPage(a: State, b: State, parent: nat, child: nat, v: VPage, lo: int, hi: int)
    requires lo == Rank(v) && hi == lo + 1 && !Skipped(v) && Key(parent, v) in a.t.maps && a.t.maps[Key(parent, v)].Entry?
    requires |b.free| + |Needed(a.t.place, child, {v})| == |a.free| && Spots(b.t.place, child) == Spots(a.t.place, child) + Way(v)
    ensures Served(a, b, parent, child, lo, hi, {})
  {
    hide Spots, TablesFor, Forks, Rank, Ways;
    JustThisPage(a, parent, child, v, lo, hi);
    WaysUnion({}, {});
  }

  lemma LostPage(a: State, b: State, parent: nat, child: nat, v: VPage, lo: int, hi: int)
    requires lo == Rank(v) && hi == lo + 1 && !Skipped(v) && Key(parent, v) in a.t.maps && a.t.maps[Key(parent, v)].Entry?
    requires |Needed(a.t.place, child, {v})| > |a.free| && b.free == [] && LowSpot(v.i, v.j) !in Spots(a.t.place, child)
    requires forall w: VPage :: LowSpot(w.i, w.j) in Spots(b.t.place, child) <==> LowSpot(w.i, w.j) in Spots(a.t.place, child)
    ensures Served(a, b, parent, child, lo, hi, {v})
  {
    hide Spots, TablesFor, Forks, Rank, Needed;
    JustThisPage(a, parent, child, v, lo, hi);
  }

  lemma NeedIs(s: State, key: Key)
    requires Inv(s) && s.t.dead == {} && key.root in s.t.place && s.t.place[key.root].Root?
    ensures Missing(s.t, key) == |Needed(s.t.place, key.root, {key.v})|
  {
    hide Exact;
    MissingIs(s.t, key);
  }

  lemma SpotsMapped(a: State, b: State, key: Key)
    requires Inv(a) && Inv(b) && Toward(a.t, b.t, key) && key in b.t.maps
    ensures Spots(b.t.place, key.root) == Spots(a.t.place, key.root) + Way(key.v)
  {
    hide Exact, Good, Toward, Spots;
    GoodOf(a);
    GoodOf(b);
    SpotsAfter(a.t, b.t, key);
  }

  lemma LostOne(n: Tables, b: Tables, key: Key)
    requires Good(n) && n.dead == {} && key.root in n.place && n.place[key.root].Root? && Missing(n, key) > 0
    requires Good(b) && Toward(n, b, key) && LowOf(b, key) == None
    ensures LowSpot(key.v.i, key.v.j) !in Spots(n.place, key.root)
    ensures forall v: VPage :: LowSpot(v.i, v.j) in Spots(b.place, key.root) <==> LowSpot(v.i, v.j) in Spots(n.place, key.root)
  {
    hide Spots, Toward;
    HasLow(n, key);
    SpotsToward(n, b, key, key.root);
    LowOfNone(b, key);
  }

  lemma GoodOf(s: State)
    requires Inv(s)
    ensures Good(s.t)
  {
  }

  lemma JustThisPage(a: State, parent: nat, child: nat, v: VPage, lo: int, hi: int)
    requires lo == Rank(v) && hi == lo + 1 && !Skipped(v) && Key(parent, v) in a.t.maps && a.t.maps[Key(parent, v)].Entry?
    ensures forall w: VPage :: Forks(a, parent, lo, hi, w) <==> w == v
    ensures TablesFor(a, parent, child, lo, hi) == Needed(a.t.place, child, {v})
  {
    RankInjective();
    assert ForkedPages(a, parent, lo, hi) == {v};
  }

  lemma ForkedFree(a: State, n: State, b: State, child: nat, v: VPage)
    requires Inv(b) && OnlyKernelPages(a, child, v) && b.kernel == a.kernel && n.free == a.free
    requires Key(child, v) in n.t.maps <==> Key(child, v) in a.t.maps
    requires Key(child, v) in n.t.maps ==> n.t.maps[Key(child, v)] == a.t.maps[Key(child, v)]
    requires forall p :: p in b.free ==> p in n.free || (Key(child, v) in n.t.maps && n.t.maps[Key(child, v)].Entry? && n.t.maps[Key(child, v)].ppn == p)
    ensures forall p :: p in b.free ==> p in a.free
  {
    hide Good, Users;
    forall p | p in b.free ensures p in a.free {
      assert b.ref[p] == 0;
    }
  }

  lemma RankInjective()
    ensures forall v: VPage, w: VPage :: Rank(v) == Rank(w) ==> v == w
  {
  }

  lemma SharedIsTwice(s: State, parent: nat, child: nat, v: VPage)
    requires Inv(s) && Key(parent, v) in s.t.maps && OnlyKernelPages(s, child, v)
    requires Key(child, v) in s.t.maps && s.t.maps[Key(child, v)].ppn == s.t.maps[Key(parent, v)].ppn
    ensures s.ref[s.t.maps[Key(parent, v)].ppn] > 1
  {
    hide Good;
    MappedIsCounted(s, Key(parent, v));
    var p := s.t.maps[Key(parent, v)].ppn;
    assert {Key(parent, v)} <= Users(s.t.maps, p);
    assert |Users(s.t.maps, p)| != 0;
  }

  /** The body of fork's innermost loop, for a valid entry that is not skipped. */
  method ForkEntry(mem: Memory, parent: nat, child: nat, f: nat, v: VPage) returns (ok: bool)
    requires mem.Valid() && mem.dead == {} && parent != child && child in mem.place && mem.place[child].Root?
    requires Alive(mem.T(), Key(parent, v)) && Alive(mem.T(), Key(child, v))
    requires Key(parent, v) in mem.maps && LowOf(mem.T(), Key(parent, v)) == Some(f) && !Skipped(v)
    requires OnlyKernelPages(mem.View(), child, v)
    modifies mem
    ensures mem.Valid() && mem.dead == {}
    ensures Forked(old(mem.View()), mem.View(), parent, child, Rank(v), Rank(v) + 1, OneIf(v, !ok))
    ensures Served(old(mem.View()), mem.View(), parent, child, Rank(v), Rank(v) + 1, OneIf(v, !ok))
  {
    hide Good, Exact, Users, Missing, Took, Inserted, Loose, LowOf, Alive, Forked, Served, Toward;
    ghost var a := mem.View();
    MappedHasTables(a, Key(parent, v));
    if mem.table[f][v.k].perm.w && !mem.table[f][v.k].perm.shm {
      var e := mem.table[f][v.k];
      InPlace(a, f, Key(parent, v), Cowed(e.perm));
      mem.table := mem.table[f := mem.table[f][v.k := Entry(e.ppn, Cowed(e.perm))]];
      mem.maps := mem.maps[Key(parent, v) := Entry(e.ppn, Cowed(e.perm))];
      ForkAlive(a, mem.View(), f, Key(parent, v), Key(child, v), Entry(e.ppn, Cowed(e.perm)));
    }
    ghost var n := mem.View();
    var e := mem.table[f][v.k];
    MappedIsCounted(n, Key(parent, v));
    if Key(child, v) in mem.maps && mem.maps[Key(child, v)].ppn == e.ppn {
      SharedIsTwice(n, parent, child, v);
    }
    KeepsKernelPage(n, child, v);
    MappedHasTables(n, Key(child, v));
    ok := mem.PageMap(Key(child, v), e.ppn, e.perm);
    ForkedOne(a, n, mem.View(), parent, child, v, !ok);
    if ok {
      InsertedAt(n, mem.View(), Key(child, v), Entry(e.ppn, AccessedDirty(e.perm)));
    }
    ServedOne(a, n, mem.View(), parent, child, v, ok);
  }

  lemma InsertedAt(a: State, b: State, key: Key, e: Pte)
    requires Inserted(a, b, key, e)
    ensures key in b.t.maps
  {
  }

  /** A page of the kernel stays counted when the child's mapping of it is replaced. */
  lemma KeepsKernelPage(s: State, child: nat, v: VPage)
    requires Inv(s) && OnlyKernelPages(s, child, v)
    ensures Frees(s, Key(child, v)) == 0
  {
    hide Good;
    if Key(child, v) in s.t.maps {
      MappedIsCounted(s, Key(child, v));
      var p := s.t.maps[Key(child, v)].ppn;
      assert Key(child, v) in Users(s.t.maps, p);
      assert |Users(s.t.maps, p)| != 0;
    }
  }

  lemma ForkAlive(a: State, n: State, f: nat, key: Key, other: Key, e: Pte)
    requires Inv(a) && LowOf(a.t, key) == Some(f) && key in a.t.maps && Alive(a.t, key) && Alive(a.t, other)
    requires f < |a.t.table| && |a.t.table[f]| == ENTRIES && n.t == SetLeaf(a.t, f, key.v.k, e, key)
    requires Inv(n)
    ensures Alive(n.t, other) && n.t.table[f][key.v.k] == e
  {
    hide Exact, Users;
    LowOfIsKeyOf(a.t, key);
    SetLeafKeepsWalk(a.t, f, key.v.k, e, other);
  }

  ghost predicate Ready(s: State, parent: nat, child: nat) {
    && s.t.dead == {} && parent != child
    && parent in s.t.place && s.t.place[parent].Root? && child in s.t.place && s.t.place[child].Root?
  }

  ghost predicate Untouched(s: State, parent: nat, child: nat, from: int) {
    forall v: VPage :: from <= Rank(v) ==> OnlyKernelPages(s, child, v)
  }

  ghost predicate MidAt(t: Tables, parent: nat, i: Idx, m: nat) {
    m in t.place && t.place[m] == Mid(parent, i)
  }

  ghost predicate LowAt(t: Tables, parent: nat, i: Idx, j: Idx, f: nat) {
    f in t.place && t.place[f].Low? && t.place[f].at == j && MidAt(t, parent, i, t.place[f].up)
  }

  lemma ForkedKeeps(a: State, b: State, parent: nat, child: nat, lo: int, hi: int, lost: set<VPage>)
    requires Ready(a, parent, child) && Untouched(a, parent, child, lo) && lo <= hi
    requires Forked(a, b, parent, child, lo, hi, lost)
    ensures Ready(b, parent, child) && Untouched(b, parent, child, hi)
    ensures forall i: Idx, m: nat :: MidAt(a.t, parent, i, m) ==> MidAt(b.t, parent, i, m)
    ensures forall i: Idx, j: Idx, f: nat :: LowAt(a.t, parent, i, j, f) ==> LowAt(b.t, parent, i, j, f)
  {
    hide Loose, Cowed, AccessedDirty, SharedAt;
    forall v: VPage | hi <= Rank(v) ensures OnlyKernelPages(b, child, v) {
      assert OnlyKernelPages(a, child, v);
      assert SameAt(a, b, Key(child, v));
    }
  }

  /** Every table of a live space is reached by its own addresses, and only by them. */
  lemma LowServes(s: State, root: nat, i: Idx, j: Idx, k: Idx, f: nat)
    requires Inv(s) && s.t.dead == {} && LowAt(s.t, root, i, j, f)
    ensures Shape(s.t) && f < |s.t.table| && Alive(s.t, Key(root, VPage(i, j, k)))
    ensures LowOf(s.t, Key(root, VPage(i, j, k))) == Some(f)
    ensures s.t.table[f][k].Entry? <==> Key(root, VPage(i, j, k)) in s.t.maps
  {
    hide Exact, Users, Down, Up;
    LowIsLow(s.t, f);
    assert KeyOf(s.t, f, k) == Key(root, VPage(i, j, k));
    LookupIsMap(s.t, Key(root, VPage(i, j, k)));
    if Key(root, VPage(i, j, k)) in s.t.maps {
      MapsAt(s.t, Key(root, VPage(i, j, k)));
    }
  }

  lemma MidServes(s: State, root: nat, i: Idx, j: Idx, m: nat)
    requires Inv(s) && s.t.dead == {} && MidAt(s.t, root, i, m)
    ensures m < |s.t.table| && |s.t.table[m]| == ENTRIES
    ensures s.t.table[m][j].Entry? ==> LowAt(s.t, root, i, j, s.t.table[m][j].ppn)
    ensures s.t.table[m][j].Empty? ==> forall k: Idx :: Key(root, VPage(i, j, k)) !in s.t.maps
  {
    hide Exact, Users;
    assert HangsFrom(s.t, m, root, i);
    forall k: Idx | s.t.table[m][j].Empty? ensures Key(root, VPage(i, j, k)) !in s.t.maps {
      if Key(root, VPage(i, j, k)) in s.t.maps {
        MapsAt(s.t, Key(root, VPage(i, j, k)));
      }
    }
  }

  lemma RootServes(s: State, root: nat, i: Idx)
    requires Inv(s) && s.t.dead == {} && root in s.t.place && s.t.place[root].Root?
    ensures root < |s.t.table| && |s.t.table[root]| == ENTRIES
    ensures s.t.table[root][i].Entry? ==> MidAt(s.t, root, i, s.t.table[root][i].ppn)
    ensures s.t.table[root][i].Empty? ==> forall j: Idx, k: Idx :: Key(root, VPage(i, j, k)) !in s.t.maps
  {
    hide Exact, Users;
    forall j: Idx, k: Idx | s.t.table[root][i].Empty? ensures Key(root, VPage(i, j, k)) !in s.t.maps {
      if Key(root, VPage(i, j, k)) in s.t.maps {
        MapsAt(s.t, Key(root, VPage(i, j, k)));
      }
    }
  }

  lemma RootAlive(s: State, root: nat, v: VPage)
    requires Inv(s) && s.t.dead == {} && root in s.t.place && s.t.place[root].Root?
    ensures Alive(s.t, Key(root, v))
  {
  }

  /** The innermost loop of fork, over one bottom-level table of the parent. */
  method ForkLow(mem: Memory, parent: nat, child: nat, i: Idx, j: Idx, f: nat) returns (ghost lost: set<VPage>)
    requires mem.Valid() && Ready(mem.View(), parent, child) && LowAt(mem.T(), parent, i, j, f)
    requires Untouched(mem.View(), parent, child, Rank(VPage(i, j, 0)))
    modifies mem
    ensures mem.Valid()
    ensures Forked(old(mem.View()), mem.View(), parent, child, Rank(VPage(i, j, 0)), Rank(VPage(i, j, 0)) + 512, lost)
    ensures Served(old(mem.View()), mem.View(), parent, child, Rank(VPage(i, j, 0)), Rank(VPage(i, j, 0)) + 512, lost)
  {
    hide Inv, Forked, Served, LowAt, OnlyKernelPages, Untouched, LowOf, Alive;
    ghost var a := mem.View();
    ghost var base := Rank(VPage(i, j, 0));
    var k := 0;
    lost := {};
    ForkedEmpty(a, parent, child, base);
    while k < 512
      invariant 0 <= k <= 512 && mem.Valid()
      invariant Ready(mem.View(), parent, child) && LowAt(mem.T(), parent, i, j, f)
      invariant Untouched(mem.View(), parent, child, base + k)
      invariant Forked(a, mem.View(), parent, child, base, base + k, lost) && Served(a, mem.View(), parent, child, base, base + k, lost)
    {
      ghost var b := mem.View();
      var v := VPage(i, j, k);
      LowServes(b, parent, i, j, k, f);
      ghost var d := {};
      if mem.table[f][k].Entry? && !Skipped(v) {
        RootAlive(b, child, v);
        UntouchedAt(b, parent, child, v);
        var ok := ForkEntry(mem, parent, child, f, v);
        d := OneIf(v, !ok);
      } else {
        ForkedSkip(b, parent, child, v);
      }
      ForkedKeeps(b, mem.View(), parent, child, base + k, base + k + 1, d);
      ForkedTrans(a, b, mem.View(), parent, child, base, base + k, base + k + 1, lost, d);
      ServedTrans(a, b, mem.View(), parent, child, base, base + k, base + k + 1, lost, d);
      lost := lost + d;
      k := k + 1;
    }
  }

  lemma ForkedEmpty(a: State, parent: nat, child: nat, lo: int)
    requires Inv(a)
    ensures Forked(a, a, parent, child, lo, lo, {}) && Served(a, a, parent, child, lo, lo, {})
  {
    ForkedNothing(a, parent, child, lo, lo);
  }

  lemma UntouchedAt(s: State, parent: nat, child: nat, v: VPage)
    requires Untouched(s, parent, child, Rank(v))
    ensures OnlyKernelPages(s, child, v)
  {
  }

  lemma ForkedSkip(a: State, parent: nat, child: nat, v: VPage)
    requires Inv(a) && (Skipped(v) || Key(parent, v) !in a.t.maps)
    ensures Forked(a, a, parent, child, Rank(v), Rank(v) + 1, {}) && Served(a, a, parent, child, Rank(v), Rank(v) + 1, {})
  {
    RankInjective();
    ForkedNothing(a, parent, child, Rank(v), Rank(v) + 1);
  }

  /** The middle loop of fork. */
  method ForkMid(mem: Memory, parent: nat, child: nat, i: Idx, m: nat) returns (ghost lost: set<VPage>)
    requires mem.Valid() && Ready(mem.View(), parent, child) && MidAt(mem.T(), parent, i, m)
    requires Untouched(mem.View(), parent, child, Rank(VPage(i, 0, 0)))
    modifies mem
    ensures mem.Valid()
    ensures Forked(old(mem.View()), mem.View(), parent, child, Rank(VPage(i, 0, 0)), Rank(VPage(i, 0, 0)) + 0x4_0000, lost)
    ensures Served(old(mem.View()), mem.View(), parent, child, Rank(VPage(i, 0, 0)), Rank(VPage(i, 0, 0)) + 0x4_0000, lost)
  {
    hide Inv, Forked, Served, LowAt, MidAt, OnlyKernelPages, Untouched, LowOf, Alive;
    ghost var a := mem.View();
    ghost var base := Rank(VPage(i, 0, 0));
    var j := 0;
    lost := {};
    ForkedEmpty(a, parent, child, base);
    while j < 512
      invariant 0 <= j <= 512 && mem.Valid()
      invariant Ready(mem.View(), parent, child) && MidAt(mem.T(), parent, i, m)
      invariant Untouched(mem.View(), parent, child, base + j * 512)
      invariant Forked(a, mem.View(), parent, child, base, base + j * 512, lost) && Served(a, mem.View(), parent, child, base, base + j * 512, lost)
    {
      ghost var b := mem.View();
      MidServes(b, parent, i, j, m);
      ghost var d := {};
      if mem.table[m][j].Entry? {
        d := ForkLow(mem, parent, child, i, j, mem.table[m][j].ppn);
      } else {
        ForkedSkipLow(b, parent, child, i, j);
      }
      ForkedKeeps(b, mem.View(), parent, child, base + j * 512, base + j * 512 + 512, d);
      ForkedTrans(a, b, mem.View(), parent, child, base, base + j * 512, base + j * 512 + 512, lost, d);
      ServedTrans(a, b, mem.View(), parent, child, base, base + j * 512, base + j * 512 + 512, lost, d);
      lost := lost + d;
      j := j + 1;
    }
  }

  lemma RankRow(v: VPage, i: Idx, j: Idx)
    ensures Rank(VPage(i, j, 0)) <= Rank(v) < Rank(VPage(i, j, 0)) + 512 ==> v == VPage(i, j, v.k)
    ensures Rank(VPage(i, 0, 0)) <= Rank(v) < Rank(VPage(i, 0, 0)) + 0x4_0000 ==> v == VPage(i, v.j, v.k)
  {
    var low := v.j * 0x200 + v.k;
    assert 0 <= low < 0x4_0000;
    if v.i > i {
      assert v.i * 0x4_0000 >= i * 0x4_0000 + 0x4_0000;
    } else if v.i < i {
      assert i * 0x4_0000 >= v.i * 0x4_0000 + 0x4_0000;
    }
  }

  lemma ForkedSkipLow(a: State, parent: nat, child: nat, i: Idx, j: Idx)
    requires Inv(a) && forall k: Idx :: Key(parent, VPage(i, j, k)) !in a.t.maps
    ensures Forked(a, a, parent, child, Rank(VPage(i, j, 0)), Rank(VPage(i, j, 0)) + 512, {}) && Served(a, a, parent, child, Rank(VPage(i, j, 0)), Rank(VPage(i, j, 0)) + 512, {})
  {
    hide Good, Exact, Listed, Rank, Forked, Served;
    var lo := Rank(VPage(i, j, 0));
    var hi := lo + 512;
    forall v: VPage ensures !Forks(a, parent, lo, hi, v) {
      RankRow(v, i, j);
    }
    ForkedNothing(a, parent, child, lo, hi);
  }

  lemma ForkedSkipMid(a: State, parent: nat, child: nat, i: Idx)
    requires Inv(a) && forall j: Idx, k: Idx :: Key(parent, VPage(i, j, k)) !in a.t.maps
    ensures Forked(a, a, parent, child, Rank(VPage(i, 0, 0)), Rank(VPage(i, 0, 0)) + 0x4_0000, {}) && Served(a, a, parent, child, Rank(VPage(i, 0, 0)), Rank(VPage(i, 0, 0)) + 0x4_0000, {})
  {
    hide Good, Exact, Listed, Rank, Forked, Served;
    var lo := Rank(VPage(i, 0, 0));
    var hi := lo + 0x4_0000;
    forall v: VPage ensures !Forks(a, parent, lo, hi, v) {
      RankRow(v, i, 0);
    }
    ForkedNothing(a, parent, child, lo, hi);
  }

  const ALL_PAGES := 0x800_0000

  /**
   The page-table sharing loop of processFork. The source ignores pageMap's error; `lost` are the
   pages that the child lacks for it. None is lost exactly if the tables that the child still needs
   fit the free list, and otherwise those are whose turn comes too late.
   */
  method ForkSpace(mem: Memory, parent: nat, child: nat) returns (ghost lost: set<VPage>)
    requires mem.Valid() && Ready(mem.View(), parent, child) && Untouched(mem.View(), parent, child, 0)
    modifies mem
    ensures mem.Valid()
    ensures lost == {} <==> NewTables(old(mem.View()), parent, child) <= |old(mem.free)|
    ensures forall v: VPage :: v in lost <==> Forks(old(mem.View()), parent, 0, ALL_PAGES, v) && TooLate(old(mem.View()), parent, child, 0, v)
    ensures forall v: VPage :: v in lost ==> Key(parent, v) in mem.maps && Key(child, v) !in mem.maps
    ensures ForkedSpace(old(mem.View()), mem.View(), parent, child, lost)
    ensures forall r: nat, k: Idx :: r in {parent, child} && k >= 510 ==> SameAt(old(mem.View()), mem.View(), Key(r, VPage(255, 511, k)))
    ensures Forked(old(mem.View()), mem.View(), parent, child, 0, ALL_PAGES, lost)
    ensures Served(old(mem.View()), mem.View(), parent, child, 0, ALL_PAGES, lost)
  {
    hide Inv, Forked, Served, LowAt, MidAt, OnlyKernelPages, Untouched, LowOf, Alive;
    ghost var a := mem.View();
    var i := 0;
    lost := {};
    ForkedEmpty(a, parent, child, 0);
    while i < 512
      invariant 0 <= i <= 512 && mem.Valid()
      invariant Ready(mem.View(), parent, child)
      invariant Untouched(mem.View(), parent, child, i * 0x4_0000)
      invariant Forked(a, mem.View(), parent, child, 0, i * 0x4_0000, lost) && Served(a, mem.View(), parent, child, 0, i * 0x4_0000, lost)
    {
      ghost var b := mem.View();
      RootServes(b, parent, i);
      ghost var d := {};
      if mem.table[parent][i].Entry? {
        d := ForkMid(mem, parent, child, i, mem.table[parent][i].ppn);
      } else {
        ForkedSkipMid(b, parent, child, i);
      }
      ForkedKeeps(b, mem.View(), parent, child, i * 0x4_0000, i * 0x4_0000 + 0x4_0000, d);
      ForkedTrans(a, b, mem.View(), parent, child, 0, i * 0x4_0000, i * 0x4_0000 + 0x4_0000, lost, d);
      ServedTrans(a, b, mem.View(), parent, child, 0, i * 0x4_0000, i * 0x4_0000 + 0x4_0000, lost, d);
      lost := lost + d;
      i := i + 1;
    }
    ForkResult(a, mem.View(), parent, child, lost);
    ForkIs(a, mem.View(), parent, child, lost);
  }

  /** Neither the trampoline nor the trap frame. */
  predicate NotTrapPage(v: VPage) {
    v != VPage(255, 511, 511) && v != VPage(255, 511, 510)
  }

  /**
   A fork, position by position. At each mapped page of the parent but the trampoline and the trap
   frame, a writable entry that is not shared memory becomes read-only and copy-on-write; the child
   gets what the parent then has, accessed and dirty, or nothing where the page was lost. Every other
   position is as it was.
   */
  ghost predicate ForkedSpace(a: State, b: State, parent: nat, child: nat, lost: set<VPage>) {
    && (forall v: VPage :: NotTrapPage(v) && Key(parent, v) in a.t.maps ==> ForkedPage(a, b, parent, child, v, v in lost))
    && forall key: Key :: !(key.root in {parent, child} && NotTrapPage(key.v) && Key(parent, key.v) in a.t.maps) ==> SameAt(a, b, key)
  }

  ghost predicate ForkedPage(a: State, b: State, parent: nat, child: nat, v: VPage, missed: bool)
    requires Key(parent, v) in a.t.maps
  {
    var e := a.t.maps[Key(parent, v)];
    && e.Entry? && Key(parent, v) in b.t.maps
    && b.t.maps[Key(parent, v)] == Entry(e.ppn, if e.perm.w && !e.perm.shm then e.perm.(w := false, cow := true) else e.perm)
    && (Key(child, v) in b.t.maps <==> !missed)
    && (!missed ==> b.t.maps[Key(child, v)] == Entry(e.ppn, b.t.maps[Key(parent, v)].perm.(a := true, d := true)))
  }

  lemma ForkIs(a: State, b: State, parent: nat, child: nat, lost: set<VPage>)
    requires Inv(a) && Forked(a, b, parent, child, 0, ALL_PAGES, lost)
    ensures ForkedSpace(a, b, parent, child, lost)
    ensures forall r: nat, k: Idx :: k >= 510 ==> SameAt(a, b, Key(r, VPage(255, 511, k)))
  {
    hide Good, Exact, Listed, Loose, SharedAt;
    forall v: VPage | Key(parent, v) in a.t.maps && NotTrapPage(v) ensures ForkedPage(a, b, parent, child, v, v in lost) {
      MappedIsCounted(a, Key(parent, v));
      assert Forks(a, parent, 0, ALL_PAGES, v);
      PageIs(a, b, parent, child, v, v in lost);
    }
    forall key: Key | !(key.root in {parent, child} && NotTrapPage(key.v) && Key(parent, key.v) in a.t.maps) ensures SameAt(a, b, key) {
      assert !(key.root in {parent, child} && Forks(a, parent, 0, ALL_PAGES, key.v));
    }
  }

  lemma PageIs(a: State, b: State, parent: nat, child: nat, v: VPage, missed: bool)
    requires Key(parent, v) in a.t.maps && a.t.maps[Key(parent, v)].Entry? && SharedAt(a, b, parent, child, v, missed)
    ensures ForkedPage(a, b, parent, child, v, missed)
  {
  }

  lemma ForkResult(a: State, b: State, parent: nat, child: nat, lost: set<VPage>)
    requires Forked(a, b, parent, child, 0, ALL_PAGES, lost) && Served(a, b, parent, child, 0, ALL_PAGES, lost)
    ensures lost == {} <==> NewTables(a, parent, child) <= |a.free|
    ensures forall v: VPage :: v in lost <==> Forks(a, parent, 0, ALL_PAGES, v) && TooLate(a, parent, child, 0, v)
    ensures forall v: VPage :: v in lost ==> Key(parent, v) in b.t.maps && Key(child, v) !in b.t.maps
  {
    hide TooLate, TablesFor, Loose, Cowed, AccessedDirty;
    forall v: VPage | v in lost ensures Key(parent, v) in b.t.maps && Key(child, v) !in b.t.maps {
      assert SharedAt(a, b, parent, child, v, true);
    }
  }
}
