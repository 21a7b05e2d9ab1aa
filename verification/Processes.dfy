/**
 The memory side of making a process: a page directory with the kernel's three pages in it, and the
 parent's pages shared into it.
 */
module Processes {
  import opened PageTables
  import opened PhysicalMemory
  import opened TableSpots
  import opened KernelMemory
  import opened AddressSpaces
  import opened CopyOnWrite
  import opened LazyLoading

  const KERNEL_PERM := Perm(true, true, true, false, false, false, false, false)
  const SIGNAL_PERM := Perm(true, true, true, true, false, false, false, false)

  /** The pages of the kernel image that every process maps. */
  datatype Images = Images(trampoline: nat, trapframe: nat, signal: nat)

  ghost predicate KernelOwned(w: World, p: nat) {
    p < |w.s.kernel| && w.s.kernel[p] > 0 && p !in w.shm
  }

  ghost predicate ImagesOk(w: World, i: Images) {
    KernelOwned(w, i.trampoline) && KernelOwned(w, i.trapframe) && KernelOwned(w, i.signal)
  }

  /** A space that holds nothing but kernel pages, at the special positions. */
  ghost predicate Bare(s: State, root: nat) {
    && root in s.t.place && s.t.place[root].Root?
    && forall key: Key :: key.root == root && key in s.t.maps ==>
         Special(key.v) && s.t.maps[key].Entry? && s.t.maps[key].ppn < |s.kernel| && s.kernel[s.t.maps[key].ppn] > 0
  }

  /** Every other space is as it was. */
  ghost predicate OthersSame(a: State, b: State, root: nat) {
    && (forall key: Key :: key.root != root ==> (key in b.t.maps <==> key in a.t.maps) && (key in a.t.maps ==> b.t.maps[key] == a.t.maps[key]))
    && (forall r: nat :: r in a.t.place ==> r in b.t.place && b.t.place[r] == a.t.place[r])
  }

  /** allocPgdir as a step. */
  method PlantSpace(mem: Memory, ghost shm: set<nat>) returns (ok: bool, root: nat)
    requires CowInv(World(mem.View(), shm))
    modifies mem
    ensures CowInv(World(mem.View(), shm)) && ok == (old(mem.free) != [])
    ensures !ok ==> mem.View() == old(mem.View())
    ensures ok ==> Next(World(old(mem.View()), shm), NewSpace(root), World(mem.View(), shm)) && root !in old(mem.place)
    ensures ok ==> Bare(mem.View(), root) && OthersSame(old(mem.View()), mem.View(), root)
    ensures ok ==> mem.kernel == old(mem.kernel) && |mem.free| + 1 == |old(mem.free)|
    ensures ok ==> mem.maps == old(mem.maps) && forall v: VPage :: Key(root, v) !in mem.maps
    ensures ok ==> Spots(mem.place, root) == {}
  {
    hide Good, Exact, Full, Listed, WritableAlone, ShmMarked, CowMarked, Alpha;
    ghost var a := mem.View();
    if mem.free != [] {
      NewRoot(a);
    }
    ok, root := mem.AllocPgdir();
    if ok {
      PlantedKept(a, mem.View(), root);
      NewSpaceRefines(World(a, shm), root, World(mem.View(), shm));
    }
  }

  lemma NewRoot(a: State)
    requires Inv(a) && a.free != []
    ensures Spots(a.t.place[a.free[0] := Root], a.free[0]) == {}
  {
    hide Exact;
    FreeIsUnused(a, a.free[0]);
    NoSpots(a.t, a.free[0]);
  }

  lemma PlantedKept(a: State, b: State, root: nat)
    requires Inv(a) && Inv(b) && a.free != [] && root == a.free[0] && |b.bytes| == |a.bytes| && |b.kernel| == |a.kernel|
    requires forall p: nat :: p < |b.bytes| && p != root ==> b.bytes[p] == a.bytes[p]
    ensures Kept(a, b)
  {
  }

  /** The page that setupProcess gives the kernel for the process's signal actions. */
  method TakeKernelPage(mem: Memory, ghost shm: set<nat>) returns (ok: bool, page: nat)
    requires CowInv(World(mem.View(), shm))
    modifies mem
    ensures CowInv(World(mem.View(), shm)) && ok == (old(mem.free) != [])
    ensures !ok ==> mem.View() == old(mem.View())
    ensures ok ==> Next(World(old(mem.View()), shm), KernelPage(page), World(mem.View(), shm))
    ensures ok ==> page == old(mem.free)[0] && mem.maps == old(mem.maps) && mem.place == old(mem.place)
    ensures ok ==> page < |old(mem.kernel)| && mem.kernel == old(mem.kernel)[page := 1] && |mem.free| + 1 == |old(mem.free)|
    ensures ok ==> old(mem.kernel)[page] == 0
  {
    hide Good, Exact, Full, WritableAlone, ShmMarked, CowMarked, Alpha;
    ghost var a := mem.View();
    if mem.free != [] {
      PoppedInv(a);
      HandedOut(a);
    }
    ok, page := mem.PageAlloc();
    if ok {
      mem.KernelKeep(page);
      KernelPageRefines(World(a, shm), page, World(mem.View(), shm));
    }
  }

  lemma HandedOut(a: State)
    requires Inv(a) && a.free != []
    ensures a.free[0] < |a.t.table| && a.free[0] < |a.bytes| && a.free[0] in Loose(Popped(a)) && a.free[0] in a.free
    ensures Kept(a, Popped(a))
  {
    hide Good, Exact;
    PoppedInv(a);
  }

  lemma KernelIsUsed(w: World, p: nat)
    requires CowInv(w) && KernelOwned(w, p)
    ensures p < |w.s.ref| && p !in w.s.free && p !in w.s.t.place
  {
    hide WritableAlone, ShmMarked, CowMarked, Good;
    if p in w.s.free {
      FreeIsUnused(w.s, p);
    }
  }

  /** pageMap of one kernel page into a new space; it fails exactly if the tables do not fit, and is then no change for anybody. */
  method MapImage(mem: Memory, ghost shm: set<nat>, root: nat, v: VPage, page: nat, perm: Perm) returns (ok: bool, ghost st: Step)
    requires CowInv(World(mem.View(), shm)) && Bare(mem.View(), root) && Special(v) && KernelOwned(World(mem.View(), shm), page)
    requires !perm.cow && !perm.shm && Key(root, v) !in mem.maps
    modifies mem
    ensures CowInv(World(mem.View(), shm)) && Bare(mem.View(), root) && OthersSame(old(mem.View()), mem.View(), root)
    ensures mem.kernel == old(mem.kernel) && st == if ok then MapSpecial(Key(root, v), page) else MapFailed
    ensures Next(World(old(mem.View()), shm), st, World(mem.View(), shm))
    ensures mem.maps == if ok then old(mem.maps)[Key(root, v) := Entry(page, AccessedDirty(perm))] else old(mem.maps)
    ensures var n := Needed(old(mem.place), root, {v});
            && (ok <==> |n| <= |old(mem.free)|)
            && (if ok then |mem.free| + |n| == |old(mem.free)| && Spots(mem.place, root) == Spots(old(mem.place), root) + Way(v)
                else mem.free == [])
  {
    hide Good, Exact, Full, Listed, WritableAlone, ShmMarked, CowMarked, Alpha, Loose, Toward, Missing, LowOf, Spots, Needed, Bare, OthersSame, Inserted, Took, Users;
    ghost var a := mem.View();
    BareRoot(a, root);
    var key := Key(root, v);
    RootReady(a, key);
    KernelIsUsed(World(a, shm), page);
    NeedIs(a, key);
    ok := mem.PageMap(key, page, perm);
    if ok {
      st := MapSpecial(key, page);
      ImageMapped(World(a, shm), mem.View(), key, page, perm);
      MapSpecialRefines(World(a, shm), key, page, World(mem.View(), shm));
      SpotsMapped(a, mem.View(), key);
    } else {
      st := MapFailed;
      ImageFailed(a, mem.View(), root);
      FailedIsNothing(World(a, shm), World(mem.View(), shm));
    }
  }

  lemma BareRoot(s: State, root: nat)
    requires Bare(s, root)
    ensures root in s.t.place && s.t.place[root].Root?
  {
  }

  lemma ImageMapped(a: World, b: State, key: Key, page: nat, perm: Perm)
    requires Bare(a.s, key.root) && Special(key.v) && KernelOwned(a, page) && Inserted(a.s, b, key, Entry(page, AccessedDirty(perm)))
    ensures Bare(b, key.root) && OthersSame(a.s, b, key.root) && b.kernel == a.s.kernel && |b.ref| == |a.s.ref| && b.t.dead == a.s.t.dead
    ensures b.t.maps == a.s.t.maps[key := Entry(page, AccessedDirty(perm))]
  {
    hide Loose;
  }

  lemma ImageFailed(a: State, b: State, root: nat)
    requires Bare(a, root) && Took(a, b)
    ensures Bare(b, root) && OthersSame(a, b, root) && b.kernel == a.kernel && b.t.maps == a.t.maps && |b.ref| == |a.ref| && b.t.dead == a.t.dead
  {
    hide Loose;
  }

  /**
   setupProcess: allocPgdir, the page for the signal actions, and the three images. False where the
   kernel panics or gives up for want of a page; failures of pageMap pass unnoticed, and `whole` says
   that there was none. Four free pages are just enough.
   */
  method SetupProcess(mem: Memory, i: Images, ghost shm: set<nat>)
    returns (ok: bool, root: nat, ghost run: seq<World>, ghost steps: seq<Step>, ghost whole: bool)
    requires CowInv(World(mem.View(), shm)) && ImagesOk(World(mem.View(), shm), i)
    modifies mem
    ensures CowInv(World(mem.View(), shm)) && Alpha(World(mem.View(), shm)) == Alpha(World(old(mem.View()), shm))
    ensures Went(run, steps, World(old(mem.View()), shm), World(mem.View(), shm))
    ensures ok <==> |old(mem.free)| >= 2
    ensures ok ==> root !in old(mem.place) && Bare(mem.View(), root) && OthersSame(old(mem.View()), mem.View(), root)
    ensures ok ==> |steps| == 5 && steps[0] == NewSpace(root)
    ensures ok ==> (whole <==> |old(mem.free)| >= 4)
    ensures ok && whole ==> |mem.free| + 4 == |old(mem.free)| && Spots(mem.place, root) == Way(TRAMPOLINE)
    ensures ok && !whole ==> mem.free == []
    ensures ok && whole ==> mem.maps == old(mem.maps)[Key(root, VPage(255, 511, 511)) := Entry(i.trampoline, Perm(true, true, true, false, true, true, false, false))]
                                                     [Key(root, VPage(255, 511, 510)) := Entry(i.trapframe, Perm(true, true, true, false, true, true, false, false))]
                                                     [Key(root, VPage(255, 511, 509)) := Entry(i.signal, Perm(true, true, true, true, true, true, false, false))]
  {
    hide CowInv, Next, Alpha, Bare, OthersSame, Went, Spots;
    ghost var a := World(mem.View(), shm);
    WentNowhere(a);
    run, steps, whole := [a], [], true;
    ok, root := PlantSpace(mem, shm);
    if !ok {
      return;
    }
    ghost var b, s1 := World(mem.View(), shm), mem.View();
    WentOn(run, steps, a, a, NewSpace(root), b);
    NextLooksSame(a, NewSpace(root), b);
    run, steps := run + [b], steps + [NewSpace(root)];
    var page;
    ok, page := TakeKernelPage(mem, shm);
    if !ok {
      return;
    }
    ghost var c := World(mem.View(), shm);
    WentOn(run, steps, a, b, KernelPage(page), c);
    NextLooksSame(b, KernelPage(page), c);
    run, steps := run + [c], steps + [KernelPage(page)];
    StillBare(s1, mem.View(), root, page);
    StillImages(b, c, page, i);
    OthersTrans(a.s, s1, mem.View(), root);
    run, steps, whole := MapImages(mem, i, shm, root, a, run, steps);
    OthersTrans(a.s, c.s, mem.View(), root);
  }

  /** The three pageMaps of setupProcess, and of exec for its new space. */
  method MapImages(mem: Memory, i: Images, ghost shm: set<nat>, root: nat, ghost a: World, ghost run0: seq<World>, ghost steps0: seq<Step>)
    returns (ghost run: seq<World>, ghost steps: seq<Step>, ghost whole: bool)
    requires CowInv(World(mem.View(), shm)) && ImagesOk(World(mem.View(), shm), i) && Bare(mem.View(), root)
    requires (forall v: VPage :: Key(root, v) !in mem.maps) && Went(run0, steps0, a, World(mem.View(), shm)) && Spots(mem.place, root) == {}
    modifies mem
    ensures CowInv(World(mem.View(), shm)) && Alpha(World(mem.View(), shm)) == Alpha(World(old(mem.View()), shm))
    ensures Bare(mem.View(), root) && OthersSame(old(mem.View()), mem.View(), root)
    ensures Went(run, steps, a, World(mem.View(), shm)) && |steps| == |steps0| + 3 && steps[..|steps0|] == steps0
    ensures whole <==> |old(mem.free)| >= 2
    ensures whole ==> |mem.free| + 2 == |old(mem.free)| && Spots(mem.place, root) == Way(TRAMPOLINE)
    ensures !whole ==> mem.free == []
    ensures whole ==> mem.maps == old(mem.maps)[Key(root, VPage(255, 511, 511)) := Entry(i.trampoline, Perm(true, true, true, false, true, true, false, false))]
                                               [Key(root, VPage(255, 511, 510)) := Entry(i.trapframe, Perm(true, true, true, false, true, true, false, false))]
                                               [Key(root, VPage(255, 511, 509)) := Entry(i.signal, Perm(true, true, true, true, true, true, false, false))]
  {
    hide CowInv, Next, Alpha, Bare, OthersSame, Went, Spots, Needed, Way;
    ghost var s0 := mem.View();
    ImageRow(mem.place, root);
    var ok1, st1 := MapImage(mem, shm, root, TRAMPOLINE, i.trampoline, KERNEL_PERM);
    ghost var s1 := mem.View();
    WentOn(run0, steps0, a, World(s0, shm), st1, World(s1, shm));
    NextLooksSame(World(s0, shm), st1, World(s1, shm));
    NextNeeds(mem.place, root, TRAPFRAME);
    var ok2, st2 := MapImage(mem, shm, root, TRAPFRAME, i.trapframe, KERNEL_PERM);
    ghost var s2 := mem.View();
    WentOn(run0 + [World(s1, shm)], steps0 + [st1], a, World(s1, shm), st2, World(s2, shm));
    NextLooksSame(World(s1, shm), st2, World(s2, shm));
    NextNeeds(mem.place, root, SIGNAL_TRAMPOLINE);
    var ok3, st3 := MapImage(mem, shm, root, SIGNAL_TRAMPOLINE, i.signal, SIGNAL_PERM);
    ghost var s3 := mem.View();
    run, steps := run0 + [World(s1, shm)] + [World(s2, shm)], steps0 + [st1] + [st2];
    WentOn(run, steps, a, World(s2, shm), st3, World(s3, shm));
    run, steps := run + [World(s3, shm)], steps + [st3];
    NextLooksSame(World(s2, shm), st3, World(s3, shm));
    OthersTrans(s0, s1, s2, root);
    OthersTrans(s0, s2, s3, root);
    whole := ok1 && ok2 && ok3;
  }

  /** The three images share one bottom-level table. */
  lemma ImageRow(place: map<nat, Place>, root: nat)
    ensures Way(TRAPFRAME) == Way(TRAMPOLINE) == Way(SIGNAL_TRAMPOLINE)
    ensures Spots(place, root) == {} ==> |Needed(place, root, {TRAMPOLINE})| == 2
  {
    WaysUnion({}, {});
    if Spots(place, root) == {} {
      assert Needed(place, root, {TRAMPOLINE}) == {MidSpot(255), LowSpot(255, 511)};
    }
  }

  lemma NextNeeds(place: map<nat, Place>, root: nat, v: VPage)
    requires v == TRAPFRAME || v == SIGNAL_TRAMPOLINE
    ensures Way(TRAMPOLINE) <= Spots(place, root) ==> |Needed(place, root, {v})| == 0
  {
    hide Spots;
    WaysUnion({}, {});
    if Way(TRAMPOLINE) <= Spots(place, root) {
      assert Needed(place, root, {v}) == {};
    }
  }

  /** Steps that set up a space show nobody anything. */
  lemma NextLooksSame(a: World, st: Step, b: World)
    requires CowInv(a) && Next(a, st, b) && (st.NewSpace? || st.KernelPage? || st.MapSpecial? || st.MapFailed?)
    ensures Alpha(b) == Alpha(a)
  {
    hide CowInv, Next, Alpha;
    StepRefines(a, st, b);
  }

  lemma OthersTrans(a: State, b: State, c: State, root: nat)
    requires OthersSame(a, b, root) && (OthersSame(b, c, root) || (c.t.maps == b.t.maps && c.t.place == b.t.place))
    ensures OthersSame(a, c, root)
  {
  }

  lemma StillBare(a: State, b: State, root: nat, page: nat)
    requires Bare(a, root) && b.t.maps == a.t.maps && b.t.place == a.t.place && page < |a.kernel| && b.kernel == a.kernel[page := 1]
    ensures Bare(b, root)
  {
  }

  lemma StillImages(a: World, b: World, page: nat, i: Images)
    requires ImagesOk(a, i) && page < |a.s.kernel| && b.s.kernel == a.s.kernel[page := 1] && b.shm == a.shm
    ensures ImagesOk(b, i)
  {
  }

  /** Free pages that it takes to make a child with all of the parent's pages. */
  ghost function PagesToFork(s: State, parent: nat): nat {
    4 + |Ways(ForkedPages(s, parent, 0, ALL_PAGES)) - Way(TRAMPOLINE)|
  }

  /**
   The memory side of processFork: a new space, then the parent's pages shared into it. Whatever the
   kernel fails to notice, it is a run of steps, and the child is a copy of the parent less the lost
   pages. There are none, and the child has its images, exactly if enough pages are free.
   */
  method ForkProcess(mem: Memory, i: Images, parent: nat, ghost shm: set<nat>)
    returns (ok: bool, child: nat, ghost run: seq<World>, ghost steps: seq<Step>, ghost whole: bool, ghost lost: set<VPage>)
    requires CowInv(World(mem.View(), shm)) && ImagesOk(World(mem.View(), shm), i) && parent in mem.place && mem.place[parent].Root?
    modifies mem
    ensures CowInv(World(mem.View(), shm)) && (ok <==> |old(mem.free)| >= 2)
    ensures Went(run, steps, World(old(mem.View()), shm), World(mem.View(), shm))
    ensures ok ==> child !in old(mem.place) && child != parent
    ensures !ok ==> Alpha(World(mem.View(), shm)) == Alpha(World(old(mem.View()), shm))
    ensures ok ==> Alpha(World(mem.View(), shm)) == DeepStep(Alpha(World(old(mem.View()), shm)), Fork(parent, child, lost))
    ensures ok ==> (whole && lost == {} <==> PagesToFork(old(mem.View()), parent) <= |old(mem.free)|)
    ensures ok ==> forall v: VPage :: v in lost ==> Key(parent, v) in mem.maps && Key(child, v) !in mem.maps
  {
    hide CowInv, Next, Alpha, DeepStep, OthersSame, Went, Forked, Served, Bare, Good, Exact, Listed, NewTables, PagesToFork, Forks, TooLate;
    ghost var a := World(mem.View(), shm);
    CowParts(a);
    ok, child, run, steps, whole := SetupProcess(mem, i, shm);
    ghost var b := World(mem.View(), shm);
    CowParts(b);
    lost := {};
    if !ok {
      return;
    }
    ReadyToFork(a.s, b.s, parent, child);
    ForkNeeds(a.s, b.s, parent, child);
    lost := ForkSpace(mem, parent, child);
    ghost var st := Fork(parent, child, lost);
    BareFork(b, World(mem.View(), shm), parent, child, lost);
    StepRefines(b, st, World(mem.View(), shm));
    WentOn(run, steps, a, b, st, World(mem.View(), shm));
    run, steps := run + [World(mem.View(), shm)], steps + [st];
  }

  /** What is left to make for the child once it has its images. */
  lemma ForkNeeds(a: State, b: State, parent: nat, child: nat)
    requires OthersSame(a, b, child) && parent != child
    ensures Spots(b.t.place, child) == Way(TRAMPOLINE) ==> PagesToFork(a, parent) == 4 + NewTables(b, parent, child)
    ensures PagesToFork(a, parent) >= 4
  {
    hide Spots, Ways;
    assert ForkedPages(a, parent, 0, ALL_PAGES) == ForkedPages(b, parent, 0, ALL_PAGES);
  }

  lemma ReadyToFork(a: State, b: State, parent: nat, child: nat)
    requires OthersSame(a, b, child) && Bare(b, child) && parent in a.t.place && a.t.place[parent].Root? && child !in a.t.place
    requires b.t.dead == {}
    ensures Ready(b, parent, child) && Untouched(b, parent, child, 0)
  {
  }

  lemma BareFork(b: World, c: World, parent: nat, child: nat, lost: set<VPage>)
    requires Bare(b.s, child) && Forked(b.s, c.s, parent, child, 0, ALL_PAGES, lost) && Served(b.s, c.s, parent, child, 0, ALL_PAGES, lost)
    requires parent != child && c.shm == b.shm && Inv(c.s) && b.s.t.dead == {}
    ensures Next(b, Fork(parent, child, lost), c)
  {
    hide Inv, Served;
  }

  // ----- a fork that loses a page ----------------------------------------------------------

  /** From boot with five free pages: one space with one page. It is a run of two steps, and leaves one page free. */
  method OnePage(v: VPage) returns (mem: Memory, parent: nat, ghost run: seq<World>, ghost steps: seq<Step>)
    requires !Special(v)
    ensures fresh(mem) && CowInv(World(mem.View(), {})) && |mem.free| == 1
    ensures parent in mem.place && mem.place[parent].Root? && HasOnly(mem.View(), Key(parent, v))
    ensures |run| > 0 && FromBoot(run[0]) && Went(run, steps, run[0], World(mem.View(), {}))
    ensures steps == [NewSpace(parent), Load(Key(parent, v), ZeroPage())]
  {
    hide CowInv, Next, Inv, Alive, Missing, Spots, OthersSame, Bare, Loaded, KeepsTables, Went, HasOnly;
    mem := new Memory(5, 0);
    BootInv(mem.View());
    ghost var a := World(mem.View(), {});
    WentNowhere(a);
    var ok;
    ok, parent := PlantSpace(mem, {});
    ghost var b := World(mem.View(), {});
    WentOn([a], [], a, a, NewSpace(parent), b);
    CowParts(b);
    BareRoot(b.s, parent);
    NewNeeds(b.s, Key(parent, v));
    MapFilled(mem, Key(parent, v), ZeroPage(), STACK_PERM);
    ghost var c := World(mem.View(), {});
    LoadedIsNext(b, Key(parent, v), ZeroPage(), c);
    WentOn([a] + [b], [] + [NewSpace(parent)], a, b, Load(Key(parent, v), ZeroPage()), c);
    LoadRefines(b, Key(parent, v), ZeroPage(), c);
    LoadedOnly(b.s, c.s, Key(parent, v));
    run, steps := [a] + [b] + [c], [] + [NewSpace(parent)] + [Load(Key(parent, v), ZeroPage())];
    WentEnds(run, steps, a, c);
  }

  /** The memory that freePageInit leaves, with five pages to give out. */
  ghost predicate FromBoot(w: World) {
    Inv(w.s) && w.s.t.maps == map[] && w.s.t.dead == {} && w.shm == {} && |w.s.free| == 5
  }

  ghost predicate HasOnly(s: State, key: Key) {
    s.t.maps.Keys == {key} && s.t.maps[key].Entry?
  }

  lemma LoadedOnly(b: State, c: State, key: Key)
    requires b.t.maps == map[] && Loaded(b, c, key, ZeroPage()) && KeepsTables(b, c)
    ensures HasOnly(c, key) && forall p :: p in b.t.place ==> p in c.t.place && c.t.place[p] == b.t.place[p]
  {
  }

  /**
   The last free page becomes the child's directory, and fork finds none for the tables to share the
   parent's page with: the child lacks it.
   */
  method LosingFork(v: VPage) returns (mem: Memory, parent: nat, child: nat, ghost run: seq<World>, ghost steps: seq<Step>)
    requires !Special(v)
    ensures fresh(mem) && |run| > 0 && FromBoot(run[0]) && Went(run, steps, run[0], World(mem.View(), {})) && CowInv(World(mem.View(), {}))
    ensures steps == [NewSpace(parent), Load(Key(parent, v), ZeroPage()), NewSpace(child), Fork(parent, child, {v})]
    ensures Key(parent, v) in mem.maps && Key(child, v) !in mem.maps
  {
    hide CowInv, Next, Inv, Spots, OthersSame, Bare, Forked, Served, Forks, TooLate, Went, HasOnly, FromBoot;
    mem, parent, run, steps := OnePage(v);
    ghost var a, c := run[0], World(mem.View(), {});
    var ok;
    ok, child := PlantSpace(mem, {});
    ghost var d := World(mem.View(), {});
    WentOn(run, steps, a, c, NewSpace(child), d);
    CowParts(d);
    ForkReady(c.s, d.s, parent, child, v);
    ghost var lost := ForkSpace(mem, parent, child);
    ghost var e := World(mem.View(), {});
    OnePageLost(d.s, parent, child, v, lost);
    BareFork(d, e, parent, child, lost);
    ForkRefines(d, parent, child, lost, e);
    WentOn(run + [d], steps + [NewSpace(child)], a, d, Fork(parent, child, lost), e);
    run, steps := run + [d] + [e], steps + [NewSpace(child)] + [Fork(parent, child, lost)];
  }

  lemma WentEnds(run: seq<World>, steps: seq<Step>, a: World, b: World)
    requires Went(run, steps, a, b)
    ensures |run| > 0 && run[0] == a
  {
  }

  /** The first page of a space takes two tables. */
  lemma NewNeeds(s: State, key: Key)
    requires Inv(s) && s.t.dead == {} && key.root in s.t.place && s.t.place[key.root].Root? && Spots(s.t.place, key.root) == {}
    ensures Shape(s.t) && Alive(s.t, key) && Missing(s.t, key) == 2
  {
    hide Exact, Spots, Missing;
    NeedIs(s, key);
    OneWay({}, key.v);
    RootReady(s, key);
  }

  lemma LoadedIsNext(a: World, key: Key, content: Content, b: World)
    requires Loaded(a.s, b.s, key, content) && Inv(b.s) && b.s.t.dead == {} && |b.s.ref| == |a.s.ref| && b.shm == a.shm
    ensures Next(a, Load(key, content), b)
  {
    hide Inv;
  }

  /** The parent with its page, the child without. */
  lemma ForkReady(c: State, d: State, parent: nat, child: nat, v: VPage)
    requires HasOnly(c, Key(parent, v)) && !Special(v) && parent in c.t.place && c.t.place[parent].Root?
    requires OthersSame(c, d, child) && Bare(d, child) && child !in c.t.place && d.t.maps == c.t.maps && d.t.dead == {}
    requires Spots(d.t.place, child) == {}
    ensures Ready(d, parent, child) && Untouched(d, parent, child, 0) && NewTables(d, parent, child) == 2
    ensures forall w: VPage :: Forks(d, parent, 0, ALL_PAGES, w) <==> w == v
  {
    hide Spots;
    assert 0 <= Rank(v) < ALL_PAGES;
    assert forall w: VPage :: Forks(d, parent, 0, ALL_PAGES, w) ==> Key(parent, w) == Key(parent, v);
    assert ForkedPages(d, parent, 0, ALL_PAGES) == {v};
    OneWay({}, v);
  }

  lemma OnePageLost(d: State, parent: nat, child: nat, v: VPage, lost: set<VPage>)
    requires lost != {} && (forall w: VPage :: w in lost ==> Forks(d, parent, 0, ALL_PAGES, w)) && (forall w: VPage :: Forks(d, parent, 0, ALL_PAGES, w) <==> w == v)
    ensures lost == {v}
  {
    hide Forks;
    var w :| w in lost;
    assert lost == {v};
  }
}
