/**
 Copying between the kernel and a process: page by page through the page table, faulting pages in
 and breaking copy-on-write sharing on the way.
 */
module UserCopy {
  import opened PageTables
  import opened PhysicalMemory
  import opened KernelMemory
  import opened AddressSpaces
  import opened CopyOnWrite
  import opened LazyLoading

  const VA_MAX := 0x40_0000_0000

  /** The byte of an address that has no page yet, once it is faulted in. */
  ghost function LazyByte(segs: seq<Segment>, a: nat): Byte {
    if USER_STACK_BOTTOM <= a < USER_STACK_TOP then 0 else ImageByte(segs, a)
  }

  /** What the process with page directory `root` reads at address a. */
  ghost function Seen(s: State, segs: seq<Segment>, root: nat, a: nat): Byte {
    var key := Key(root, PageOf(a));
    if key in s.t.maps && s.t.maps[key].Entry? && s.t.maps[key].ppn < |s.bytes| && a % PAGE_SIZE < |s.bytes[s.t.maps[key].ppn]|
    then s.bytes[s.t.maps[key].ppn][a % PAGE_SIZE]
    else LazyByte(segs, a)
  }

  /** No process sees a difference. */
  ghost predicate SameSight(a: State, b: State, segs: seq<Segment>) {
    forall root: nat, x: nat :: x < VA_MAX ==> Seen(b, segs, root, x) == Seen(a, segs, root, x)
  }

  /** A kernel write at the page stays in this address space: it is unmapped, marked, or mapped once. */
  ghost predicate OwnPage(s: State, key: Key) {
    key in s.t.maps && s.t.maps[key].Entry? && !s.t.maps[key].perm.cow ==> Users(s.t.maps, s.t.maps[key].ppn) == {key}
  }

  /** A kernel write at the page is one of the deep-copy memory, once a marked page has its copy. */
  ghost predicate CleanPage(s: State, key: Key) {
    OwnPage(s, key) || (key in s.t.maps && s.t.maps[key].Entry? && s.t.maps[key].perm.shm)
  }

  /** passiveAlloc finds something to put at the address. */
  ghost predicate Backed(segs: seq<Segment>, va: nat) {
    USER_STACK_BOTTOM <= va < USER_STACK_TOP || exists k :: 0 <= k < |segs| && Overlaps(segs[k], va - va % 0x1000)
  }

  /** A page mapped without the user bit, such as the trampoline, is not one that passiveAlloc would replace. */
  ghost predicate UserPage(s: State, segs: seq<Segment>, root: nat, va: nat) {
    var key := Key(root, PageOf(va));
    key in s.t.maps && s.t.maps[key].Entry? && Backed(segs, va) ==> s.t.maps[key].perm.u
  }

  ghost predicate Segments(segs: seq<Segment>) {
    forall k :: 0 <= k < |segs| ==> segs[k].srcOffset + segs[k].len < 0x1_0000_0000 && !segs[k].perm.cow && !segs[k].perm.shm && segs[k].perm.u == false
  }

  /** Faulting a page in shows the process what it would have seen. */
  lemma LoadedSight(a: State, b: State, segs: seq<Segment>, root: nat, v: VPage, content: Content)
    requires Inv(a) && Loaded(a, b, Key(root, v), content) && Key(root, v) !in a.t.maps && |content| == PAGE_SIZE && |b.bytes| == |a.bytes|
    requires forall i :: 0 <= i < PAGE_SIZE ==> content[i] == LazyByte(segs, AddressOf(v) + i)
    ensures SameSight(a, b, segs)
  {
    hide Good, LazyByte, PageOf, AddressOf;
    forall r: nat, x: nat | x < VA_MAX ensures Seen(b, segs, r, x) == Seen(a, segs, r, x) {
      var key := Key(r, PageOf(x));
      if key == Key(root, v) {
        AddressRoundTrip(v, x);
      } else if key in a.t.maps {
        MappedIsCounted(a, key);
      }
    }
  }

  /** Breaking copy-on-write shows nobody a difference. */
  lemma CowSight(a: State, b: State, segs: seq<Segment>, key: Key)
    requires Inv(a) && CowBroken(a, b, key)
    ensures SameSight(a, b, segs)
  {
    hide Good, LazyByte, PageOf;
    forall r: nat, x: nat | x < VA_MAX ensures Seen(b, segs, r, x) == Seen(a, segs, r, x) {
      if Key(r, PageOf(x)) in a.t.maps {
        MappedIsCounted(a, Key(r, PageOf(x)));
      }
    }
  }

  /** What passiveAlloc puts into the page of va. */
  ghost predicate Faulted(segs: seq<Segment>, va: nat, content: Content) {
    if USER_STACK_BOTTOM <= va < USER_STACK_TOP then content == ZeroPage() else IsImage(segs, va - va % 0x1000, content)
  }

  lemma ImageSight(segs: seq<Segment>, va: nat, content: Content)
    requires va < VA_MAX
    requires Faulted(segs, va, content)
    ensures |content| == PAGE_SIZE
    ensures forall i :: 0 <= i < PAGE_SIZE ==> content[i] == LazyByte(segs, AddressOf(PageOf(va)) + i)
  {
    hide IsImage, ImageByte, PageOf, AddressOf;
    AddressRoundTrip(PageOf(va), va);
    var base := AddressOf(PageOf(va));
    assert base == va / 0x1000 * 0x1000;
    ImageSize(segs, base, content);
    if !(USER_STACK_BOTTOM <= va < USER_STACK_TOP) {
      ImageAtIsImage(segs, PageOf(va), content);
    }
  }

  lemma ImageSize(segs: seq<Segment>, base: nat, content: Content)
    ensures IsImage(segs, base, content) ==> |content| == PAGE_SIZE
  {
  }

  /** Everything but the page that `key` maps, and that page has one mapping. */
  ghost predicate Reached(a: State, b: State, segs: seq<Segment>, key: Key) {
    && Inv(b) && b.t.dead == {} && SameSight(a, b, segs)
    && key in b.t.maps && b.t.maps[key].Entry? && !b.t.maps[key].perm.cow && b.t.maps[key].perm.u
    && (OwnPage(a, key) ==> OwnPage(b, key))
    && (key in a.t.maps && a.t.maps[key].Entry? && !a.t.maps[key].perm.cow ==> b.t.maps[key] == a.t.maps[key])
    && (forall k: Key :: k != key ==> (k in b.t.maps <==> k in a.t.maps) && (k in a.t.maps ==> b.t.maps[k] == a.t.maps[k]))
    && (forall k: Key :: k != key && OwnPage(a, k) ==> OwnPage(b, k))
    && (forall r: nat :: r in a.t.place && a.t.place[r].Root? ==> r in b.t.place && b.t.place[r].Root?)
  }

  lemma ReachedFresh(a: State, b: State, segs: seq<Segment>, key: Key)
    requires Inv(a) && Inv(b) && b.t.dead == {} && SameSight(a, b, segs) && key in b.t.maps && b.t.maps[key].Entry? && b.t.maps[key].ppn in a.free
    requires !b.t.maps[key].perm.cow && b.t.maps[key].perm.u && b.t.maps == a.t.maps[key := b.t.maps[key]]
    requires key in a.t.maps && a.t.maps[key].Entry? ==> a.t.maps[key].perm.cow
    requires forall r: nat :: r in a.t.place && a.t.place[r].Root? ==> r in b.t.place && b.t.place[r].Root?
    ensures Reached(a, b, segs, key)
  {
    hide SameSight, Good, Exact;
    FreeIsUnused(a, b.t.maps[key].ppn);
    assert Users(b.t.maps, b.t.maps[key].ppn) == {key};
    forall k: Key | k != key && OwnPage(a, k) ensures OwnPage(b, k) {
      if k in a.t.maps && a.t.maps[k].Entry? && !a.t.maps[k].perm.cow {
        OwnKept(a, b, key, k);
      }
    }
  }

  lemma OwnKept(a: State, b: State, key: Key, k: Key)
    requires Inv(a) && key in b.t.maps && b.t.maps[key].Entry? && b.t.maps[key].ppn in a.free && b.t.maps == a.t.maps[key := b.t.maps[key]]
    requires k != key && k in a.t.maps && a.t.maps[k].Entry? && Users(a.t.maps, a.t.maps[k].ppn) == {k}
    ensures Users(b.t.maps, a.t.maps[k].ppn) == {k}
  {
    hide Good, Exact;
    MappedIsCounted(a, k);
    var p := a.t.maps[k].ppn;
    forall j: Key | j in Users(b.t.maps, p) ensures j == k {
      if j != key {
        assert j in Users(a.t.maps, p);
      }
    }
    assert k in Users(b.t.maps, p);
  }

  lemma ReachedSelf(a: State, segs: seq<Segment>, key: Key)
    requires Inv(a) && a.t.dead == {} && key in a.t.maps && a.t.maps[key].Entry? && !a.t.maps[key].perm.cow && a.t.maps[key].perm.u
    ensures Reached(a, a, segs, key)
  {
  }

  lemma AliveAll(s: State, key: Key)
    requires Inv(s) && s.t.dead == {} && key.root in s.t.place && s.t.place[key.root].Root?
    ensures Shape(s.t) && Alive(s.t, key) && Missing(s.t, key) <= 2
    ensures key in s.t.maps ==> s.t.maps[key].Entry? && s.t.maps[key].ppn < |s.bytes| && s.t.maps[key].ppn < |s.ref|
                                && |s.bytes[s.t.maps[key].ppn]| == PAGE_SIZE
  {
    if key in s.t.maps {
      MappedIsCounted(s, key);
    }
  }

  /** An address that is mapped for the user, or can be faulted in. */
  ghost predicate Reachable(s: State, segs: seq<Segment>, root: nat, va: nat) {
    var key := Key(root, PageOf(va));
    (key in s.t.maps && s.t.maps[key].Entry? && s.t.maps[key].perm.u) || Backed(segs, va)
  }

  /** What passiveAlloc loads at page v. */
  ghost predicate LazyContent(segs: seq<Segment>, v: VPage, content: Content) {
    |content| == PAGE_SIZE && forall i :: 0 <= i < PAGE_SIZE ==> content[i] == LazyByte(segs, AddressOf(v) + i)
  }

  ghost predicate FaultStep(segs: seq<Segment>, key: Key, st: Step) {
    st == CowFault(key) || (st.Load? && st.at == key && LazyContent(segs, key.v, st.content))
  }

  /** From a to b nothing happened, or one fault at the page. */
  ghost predicate Faulting(a: State, b: State, shm: set<nat>, segs: seq<Segment>, key: Key, st: seq<Step>) {
    if st == [] then b == a else |st| == 1 && FaultStep(segs, key, st[0]) && Next(World(a, shm), st[0], World(b, shm))
  }

  /** va2PA, passiveAlloc, cowHandler: the page behind va, private to this process. */
  method Reach(mem: Memory, root: nat, va: nat, segs: seq<Segment>, ghost shm: set<nat>) returns (ok: bool, page: nat, ghost st: seq<Step>)
    requires mem.Valid() && mem.dead == {} && root in mem.place && mem.place[root].Root? && va < VA_MAX && Segments(segs)
    requires 3 <= |mem.free| && UserPage(mem.View(), segs, root, va)
    modifies mem
    ensures mem.Valid() && (ok <==> Reachable(old(mem.View()), segs, root, va))
    ensures ok ==> Reached(old(mem.View()), mem.View(), segs, Key(root, PageOf(va))) && page == mem.maps[Key(root, PageOf(va))].ppn
    ensures ok ==> |mem.free| + 3 >= |old(mem.free)| && Faulting(old(mem.View()), mem.View(), shm, segs, Key(root, PageOf(va)), st)
    ensures !ok ==> mem.View() == old(mem.View())
  {
    hide Good, Exact, Users, Took, Loose, LowOf, Alive, Missing, Loaded, CowBroken, Reached, SameSight, IsImage, PageOf, LazyByte, Backed;
    var key := Key(root, PageOf(va));
    ghost var a := mem.View();
    st := [];
    AliveAll(a, key);
    var p, low := mem.PageLookup(key);
    if p.Some? && !mem.table[low.value][key.v.k].perm.u {
      return false, 0, [];
    }
    if p.None? {
      ok, st := FaultIn(mem, root, va, segs, shm);
      if !ok {
        return false, 0, [];
      }
    } else if mem.table[low.value][key.v.k].perm.cow {
      ok := CowHandler(mem, key);
      CowReached(a, mem.View(), segs, key);
      CowIsStep(a, mem.View(), shm, key);
      st := [CowFault(key)];
    } else {
      ReachedSelf(a, segs, key);
    }
    ReachedFacts(a, mem.View(), segs, key);
    p, low := mem.PageLookup(key);
    return true, p.value, st;
  }

  lemma CowIsStep(a: State, b: State, shm: set<nat>, key: Key)
    requires Inv(a) && Inv(b) && a.t.dead == {} && CowBroken(a, b, key) && key in a.t.maps && a.t.maps[key].perm.cow
    ensures Next(World(a, shm), CowFault(key), World(b, shm))
  {
    hide Good, Exact;
  }

  /** passiveAlloc, as the copying loops use it. */
  method FaultIn(mem: Memory, root: nat, va: nat, segs: seq<Segment>, ghost shm: set<nat>) returns (ok: bool, ghost st: seq<Step>)
    requires mem.Valid() && mem.dead == {} && root in mem.place && mem.place[root].Root? && va < VA_MAX && Segments(segs)
    requires 3 <= |mem.free| && Key(root, PageOf(va)) !in mem.maps
    modifies mem
    ensures mem.Valid() && (ok <==> Backed(segs, va))
    ensures ok ==> Reached(old(mem.View()), mem.View(), segs, Key(root, PageOf(va))) && |mem.free| + 3 >= |old(mem.free)|
    ensures ok ==> st != [] && Faulting(old(mem.View()), mem.View(), shm, segs, Key(root, PageOf(va)), st)
    ensures !ok ==> mem.View() == old(mem.View())
  {
    hide Good, Exact, Users, Took, Loose, LowOf, Alive, Missing, Loaded, Reached, SameSight, IsImage, PageOf, LazyByte;
    ghost var a := mem.View();
    ghost var key := Key(root, PageOf(va));
    AliveAll(a, key);
    ok := PassiveAlloc(mem, root, va, segs);
    st := [];
    if ok {
      ghost var content :| Loaded(a, mem.View(), Key(root, PageOf(va)), content)
                           && Faulted(segs, va, content);
      LoadedEntry(a, mem.View(), key, content);
      assert mem.maps[key].perm.u;
      LoadReached(a, mem.View(), segs, key, va, content);
      ImageSight(segs, va, content);
      st := [Load(key, content)];
    }
  }

  lemma LoadedEntry(a: State, b: State, key: Key, content: Content)
    requires Loaded(a, b, key, content)
    ensures key in b.t.maps && b.t.maps[key].Entry? && !b.t.maps[key].perm.cow
  {
  }

  lemma CowReached(a: State, b: State, segs: seq<Segment>, key: Key)
    requires Inv(a) && Inv(b) && a.t.dead == {} && CowBroken(a, b, key) && key in a.t.maps && a.t.maps[key].Entry? && a.t.maps[key].perm.u && a.t.maps[key].perm.cow
    ensures Reached(a, b, segs, key)
  {
    CowSight(a, b, segs, key);
    ReachedFresh(a, b, segs, key);
  }

  lemma LoadReached(a: State, b: State, segs: seq<Segment>, key: Key, va: nat, content: Content)
    requires Inv(a) && Inv(b) && b.t.dead == {} && va < VA_MAX && KeepsTables(a, b) && |b.ref| == |a.ref|
    requires Loaded(a, b, key, content) && key !in a.t.maps && key in b.t.maps && b.t.maps[key].Entry? && b.t.maps[key].perm.u
    requires Faulted(segs, va, content) && key.v == PageOf(va)
    ensures Reached(a, b, segs, key)
  {
    hide Good, Exact, IsImage, PageOf, SameSight, Faulted;
    ImageSight(segs, va, content);
    LoadedSight(a, b, segs, key.root, key.v, content);
    ReachedFresh(a, b, segs, key);
  }

  lemma ReachedFacts(a: State, b: State, segs: seq<Segment>, key: Key)
    requires Reached(a, b, segs, key) && key.root in a.t.place && a.t.place[key.root].Root?
    ensures key in b.t.maps && b.t.maps[key].Entry? && Inv(b) && b.t.dead == {} && Shape(b.t) && Alive(b.t, key)
    ensures b.t.maps[key].ppn < |b.bytes| && |b.bytes[b.t.maps[key].ppn]| == PAGE_SIZE
  {
    hide Good, SameSight;
    AliveAll(b, key);
  }

  // ----- faults in any order -----------------------------------------------------------------

  /** The page as loading the whole program at once would have left it. */
  ghost function LazyPage(segs: seq<Segment>, v: VPage): (c: Content)
    ensures LazyContent(segs, v, c)
  {
    seq<Byte>(PAGE_SIZE, (i: nat) requires i < PAGE_SIZE => LazyByte(segs, AddressOf(v) + i))
  }

  /** One of the addresses lies on the page. */
  ghost predicate Touched(root: nat, addrs: seq<nat>, key: Key) {
    key.root == root && !Special(key.v) && exists i :: 0 <= i < |addrs| && PageOf(addrs[i]) == key.v
  }

  /** From d to r the touched pages that were not there came with the image; nothing else changed. */
  ghost predicate Built(d: Deep, r: Deep, root: nat, addrs: seq<nat>, segs: seq<Segment>) {
    && r.shm == d.shm
    && forall key: Key ::
         if Touched(root, addrs, key) && key !in d.spaces then key in r.spaces && r.spaces[key] == Private(LazyPage(segs, key.v))
         else (key in r.spaces <==> key in d.spaces) && (key in d.spaces ==> r.spaces[key] == d.spaces[key])
  }

  lemma TouchedMore(root: nat, addrs: seq<nat>, i: nat, key: Key)
    requires i < |addrs|
    ensures Touched(root, addrs[..i + 1], key) <==> Touched(root, addrs[..i], key) || (key == Key(root, PageOf(addrs[i])) && !Special(key.v))
  {
    hide PageOf;
    var s, t := addrs[..i], addrs[..i + 1];
    assert t == s + [addrs[i]];
    if key == Key(root, PageOf(addrs[i])) && !Special(key.v) {
      assert t[i] == addrs[i] && Touched(root, t, key);
    }
    if Touched(root, s, key) {
      var j :| 0 <= j < |s| && PageOf(s[j]) == key.v;
      assert t[j] == s[j];
    }
  }

  lemma BuiltMore(d: Deep, r: Deep, q: Deep, root: nat, addrs: seq<nat>, segs: seq<Segment>, i: nat, content: Content)
    requires i < |addrs| && Built(d, r, root, addrs[..i], segs)
    requires var key := Key(root, PageOf(addrs[i]));
             if key in r.spaces || Special(key.v) then q == r
             else LazyContent(segs, key.v, content) && q == DeepStep(r, Load(key, content))
    ensures Built(d, q, root, addrs[..i + 1], segs)
  {
    hide PageOf, LazyByte, Touched;
    var at := Key(root, PageOf(addrs[i]));
    if at !in r.spaces && !Special(at.v) {
      assert content == LazyPage(segs, at.v);
    }
    forall key: Key
      ensures if Touched(root, addrs[..i + 1], key) && key !in d.spaces then key in q.spaces && q.spaces[key] == Private(LazyPage(segs, key.v))
              else (key in q.spaces <==> key in d.spaces) && (key in d.spaces ==> q.spaces[key] == d.spaces[key])
    {
      TouchedMore(root, addrs, i, key);
      TouchedPlain(root, addrs[..i], key);
    }
  }

  lemma TouchedPlain(root: nat, addrs: seq<nat>, key: Key)
    ensures Touched(root, addrs, key) ==> key.root == root && !Special(key.v)
  {
  }

  lemma BuiltNone(d: Deep, root: nat, addrs: seq<nat>, segs: seq<Segment>)
    ensures Built(d, d, root, addrs[..0], segs)
  {
  }

  lemma MappedSeen(w: World, key: Key)
    requires CowInv(w)
    ensures key in Alpha(w).spaces <==> key in w.s.t.maps && !Special(key.v)
  {
    hide Good, Exact, WritableAlone, ShmMarked, CowMarked;
    if key in w.s.t.maps {
      MapsToFacts(w, key);
    }
  }

  lemma LoadStep(a: State, b: State, shm: set<nat>, segs: seq<Segment>, key: Key, st: seq<Step>)
    requires CowInv(World(a, shm)) && key !in a.t.maps && st != [] && Faulting(a, b, shm, segs, key, st)
    ensures CowInv(World(b, shm)) && st[0].Load? && st[0].at == key && LazyContent(segs, key.v, st[0].content)
    ensures Alpha(World(b, shm)) == DeepStep(Alpha(World(a, shm)), st[0])
  {
    hide CowInv, Alpha, DeepStep, LazyContent;
    assert Does(World(a, shm), st[0], World(b, shm));
    assert st[0].Load?;
    hide Next, Does;
    StepRefines(World(a, shm), st[0], World(b, shm));
  }

  /**
   User code touches the addresses, in this order, and page faults call passiveAlloc: whatever the
   order and however often, exactly the pages touched come, with the bytes that loading the whole
   program at once would have put there.
   */
  method TouchAll(mem: Memory, root: nat, addrs: seq<nat>, segs: seq<Segment>, ghost shm: set<nat>)
    requires mem.Valid() && CowInv(World(mem.View(), shm)) && root in mem.place && mem.place[root].Root? && Segments(segs)
    requires 3 * |addrs| <= |mem.free| && forall i :: 0 <= i < |addrs| ==> addrs[i] < VA_MAX && Backed(segs, addrs[i])
    modifies mem
    ensures mem.Valid() && CowInv(World(mem.View(), shm))
    ensures Built(Alpha(World(old(mem.View()), shm)), Alpha(World(mem.View(), shm)), root, addrs, segs)
  {
    hide CowInv, Built, Alpha, DeepStep, Segments, Backed, Reached, Faulting, PageOf, LazyContent, Good, Exact, Listed, Special;
    ghost var a := mem.View();
    var i := 0;
    BuiltNone(Alpha(World(a, shm)), root, addrs, segs);
    while i < |addrs|
      invariant 0 <= i <= |addrs| && mem.Valid() && CowInv(World(mem.View(), shm)) && root in mem.place && mem.place[root].Root?
      invariant 3 * (|addrs| - i) <= |mem.free|
      invariant Built(Alpha(World(a, shm)), Alpha(World(mem.View(), shm)), root, addrs[..i], segs)
    {
      ghost var b := mem.View();
      var key := Key(root, PageOf(addrs[i]));
      NothingDead(World(b, shm));
      AliveAll(b, key);
      MappedSeen(World(b, shm), key);
      var p, low := mem.PageLookup(key);
      ghost var content := [];
      if p.None? {
        var ok, st := FaultIn(mem, root, addrs[i], segs, shm);
        ReachedRoot(b, mem.View(), segs, key);
        LoadStep(b, mem.View(), shm, segs, key, st);
        SpecialLoad(Alpha(World(b, shm)), st[0]);
        content := st[0].content;
      }
      BuiltMore(Alpha(World(a, shm)), Alpha(World(b, shm)), Alpha(World(mem.View(), shm)), root, addrs, segs, i, content);
      i := i + 1;
    }
    assert addrs[..i] == addrs;
  }

  lemma NothingDead(w: World)
    requires CowInv(w)
    ensures w.s.t.dead == {}
  {
  }

  lemma ReachedRoot(a: State, b: State, segs: seq<Segment>, key: Key)
    requires Reached(a, b, segs, key)
    ensures forall r: nat :: r in a.t.place && a.t.place[r].Root? ==> r in b.t.place && b.t.place[r].Root?
  {
  }

  lemma SpecialLoad(d: Deep, st: Step)
    ensures st.Load? && Special(st.at.v) ==> DeepStep(d, st) == d
  {
  }

  // ----- the copying loops --------------------------------------------------------------------

  /** Pages that n bytes from va on touch. */
  function Pages(va: nat, n: nat): nat {
    if n == 0 then 0 else (va % PAGE_SIZE + n + PAGE_SIZE - 1) / PAGE_SIZE
  }

  /** Every page of a range can be reached as the copying loops do it. */
  ghost predicate Range(s: State, segs: seq<Segment>, root: nat, va: nat, n: nat) {
    forall x: nat :: va <= x < va + n ==> UserPage(s, segs, root, x)
  }

  /** The pages of a range belong to this process alone. */
  ghost predicate OwnRange(s: State, root: nat, va: nat, n: nat) {
    forall x: nat :: va <= x < va + n ==> OwnPage(s, Key(root, PageOf(x)))
  }

  /** The pages of a range do, or are shared memory. */
  ghost predicate CleanRange(s: State, root: nat, va: nat, n: nat) {
    forall x: nat :: va <= x < va + n ==> CleanPage(s, Key(root, PageOf(x)))
  }

  /** From a to b the process `root` sees data at va; nothing else that anybody sees has changed. */
  ghost predicate Copied(a: State, b: State, segs: seq<Segment>, root: nat, va: nat, data: seq<Byte>) {
    forall r: nat, x: nat :: x < VA_MAX ==>
      Seen(b, segs, r, x) == if r == root && va <= x < va + |data| then data[x - va] else Seen(a, segs, r, x)
  }

  lemma RangeReached(a: State, b: State, segs: seq<Segment>, root: nat, v: VPage, va: nat, n: nat)
    requires Reached(a, b, segs, Key(root, v))
    ensures Range(a, segs, root, va, n) ==> Range(b, segs, root, va, n)
    ensures OwnRange(a, root, va, n) ==> OwnRange(b, root, va, n)
  {
    hide Inv, SameSight, PageOf, OwnPage, Backed;
    if Range(a, segs, root, va, n) {
      forall x: nat | va <= x < va + n ensures UserPage(b, segs, root, x) {
        assert UserPage(a, segs, root, x);
      }
    }
    if OwnRange(a, root, va, n) {
      forall x: nat | va <= x < va + n ensures OwnPage(b, Key(root, PageOf(x))) {
        assert OwnPage(a, Key(root, PageOf(x)));
      }
    }
  }

  lemma CleanReached(w: World, b: State, segs: seq<Segment>, root: nat, v: VPage, va: nat, n: nat)
    requires CowInv(w) && Reached(w.s, b, segs, Key(root, v)) && CleanRange(w.s, root, va, n)
    ensures CleanRange(b, root, va, n)
  {
    hide Inv, SameSight, PageOf, OwnPage, WritableAlone, ShmMarked;
    forall x: nat | va <= x < va + n ensures CleanPage(b, Key(root, PageOf(x))) {
      assert CleanPage(w.s, Key(root, PageOf(x)));
      if Key(root, PageOf(x)) in w.s.t.maps && w.s.t.maps[Key(root, PageOf(x))].Entry? {
        assert MapsTo(w.s, Key(root, PageOf(x)), w.s.t.maps[Key(root, PageOf(x))].ppn);
      }
    }
  }

  /** Addresses of one page, and of others. */
  lemma SamePage(va: nat, x: nat)
    requires va < VA_MAX && x < VA_MAX
    ensures PageOf(x) == PageOf(va) <==> x - x % PAGE_SIZE == va - va % PAGE_SIZE
  {
    AddressRoundTrip(PageOf(va), va);
    AddressRoundTrip(PageOf(x), x);
    ShiftInSteps(x);
    ShiftInSteps(va);
    hide AddressOf;
    if x - x % PAGE_SIZE == va - va % PAGE_SIZE {
      assert x / 0x1000 == va / 0x1000;
    }
  }

  /** Storing into a page that only `key` maps is seen at the addresses written, and nowhere else. */
  lemma StoreSeen(a: State, b: State, segs: seq<Segment>, key: Key, va: nat, data: seq<Byte>)
    requires Inv(a) && key in a.t.maps && a.t.maps[key].Entry? && a.t.maps[key].ppn < |a.bytes| && Users(a.t.maps, a.t.maps[key].ppn) == {key}
    requires va + |data| <= VA_MAX && va < VA_MAX && key.v == PageOf(va) && va % PAGE_SIZE + |data| <= PAGE_SIZE
    requires |a.bytes[a.t.maps[key].ppn]| == PAGE_SIZE
    requires b == a.(bytes := a.bytes[a.t.maps[key].ppn := Put(a.bytes[a.t.maps[key].ppn], va % PAGE_SIZE, data)])
    ensures Inv(b) && Copied(a, b, segs, key.root, va, data)
  {
    hide Good, Exact, PageOf, LazyByte;
    forall r: nat, x: nat | x < VA_MAX
      ensures Seen(b, segs, r, x) == if r == key.root && va <= x < va + |data| then data[x - va] else Seen(a, segs, r, x)
    {
      SamePage(va, x);
      var k := Key(r, PageOf(x));
      if k in a.t.maps {
        MappedIsCounted(a, k);
        if k != key {
          assert k !in Users(a.t.maps, a.t.maps[key].ppn);
        }
      }
      if r == key.root && va <= x < va + |data| {
        InPage(va, x, |data|);
      }
    }
  }

  lemma InPage(va: nat, x: nat, n: nat)
    requires va <= x < va + n && va % PAGE_SIZE + n <= PAGE_SIZE
    ensures x % PAGE_SIZE == va % PAGE_SIZE + (x - va) && x - x % PAGE_SIZE == va - va % PAGE_SIZE
  {
  }

  lemma CopiedMore(a: State, b: State, c: State, d: State, segs: seq<Segment>, root: nat, va: nat, s: seq<Byte>, t: seq<Byte>)
    requires Copied(a, b, segs, root, va, s) && SameSight(b, c, segs) && Copied(c, d, segs, root, va + |s|, t)
    ensures Copied(a, d, segs, root, va, s + t)
  {
    hide Seen;
  }

  /** The steps fault pages in, each when it is reached, and write data piece by piece from va on. */
  ghost predicate Spells(steps: seq<Step>, segs: seq<Segment>, root: nat, va: nat, data: seq<Byte>) {
    if steps == [] then data == []
    else
      var n := |steps| - 1;
      match steps[n] {
        case KernelWrite(_, _, part) =>
          WritesEnd(steps[n], root, va, data) && Spells(steps[..n], segs, root, va, data[..|data| - |part|])
        case _ => FaultStep(segs, Key(root, PageOf(va + |data|)), steps[n]) && Spells(steps[..n], segs, root, va, data)
      }
  }

  lemma SpellsFault(steps: seq<Step>, st: Step, segs: seq<Segment>, root: nat, va: nat, data: seq<Byte>)
    requires Spells(steps, segs, root, va, data) && FaultStep(segs, Key(root, PageOf(va + |data|)), st)
    ensures Spells(steps + [st], segs, root, va, data)
  {
    hide PageOf, LazyContent;
    assert (steps + [st])[..|steps|] == steps;
  }

  /** The last step writes part, which belongs at the end of data. */
  ghost predicate WritesEnd(st: Step, root: nat, va: nat, data: seq<Byte>) {
    && st.KernelWrite? && |st.data| <= |data| && data[|data| - |st.data|..] == st.data
    && st.at == Key(root, PageOf(va + |data| - |st.data|)) && st.off == (va + |data| - |st.data|) % PAGE_SIZE
    && st.off + |st.data| <= PAGE_SIZE
  }

  lemma EndWritten(st: Step, root: nat, va: nat, data: seq<Byte>, part: seq<Byte>, w: nat)
    requires w == va + |data| && st == KernelWrite(Key(root, PageOf(w)), w % PAGE_SIZE, part) && w % PAGE_SIZE + |part| <= PAGE_SIZE
    ensures WritesEnd(st, root, va, data + part)
  {
    hide PageOf;
    var whole := data + part;
    assert whole[|data|..] == part;
    assert va + |whole| - |part| == w;
  }

  lemma SpellsWrite(steps: seq<Step>, segs: seq<Segment>, root: nat, va: nat, data: seq<Byte>, part: seq<Byte>, st: Step)
    requires Spells(steps, segs, root, va, data) && st.KernelWrite? && st.data == part && WritesEnd(st, root, va, data + part)
    ensures Spells(steps + [st], segs, root, va, data + part)
  {
    hide WritesEnd, FaultStep;
    var all, whole := steps + [st], data + part;
    assert all[..|steps|] == steps && all[|steps|] == st && whole[..|whole| - |part|] == data;
  }

  /** The store of one piece, as a step. */
  lemma WriteIsStep(c: State, d: State, shm: set<nat>, key: Key, off: nat, data: seq<Byte>)
    requires CowInv(World(c, shm)) && key in c.t.maps && c.t.maps[key].Entry? && c.t.maps[key].ppn < |c.bytes| && !c.t.maps[key].perm.cow
    requires off + |data| <= PAGE_SIZE && d == c.(bytes := c.bytes[c.t.maps[key].ppn := Put(c.bytes[c.t.maps[key].ppn], off, data)])
    ensures Does(World(c, shm), KernelWrite(key, off, data), World(d, shm)) && CowInv(World(d, shm))
    ensures CleanPage(c, key) ==> Next(World(c, shm), KernelWrite(key, off, data), World(d, shm))
  {
    hide Good, Exact, WritableAlone, ShmMarked, CowMarked, Users;
    KernelWriteKeeps(World(c, shm), key, off, data, World(d, shm));
    if CleanPage(c, key) && !Special(key.v) && !c.t.maps[key].perm.shm {
      SoleUser(World(c, shm), key);
      OnlyOne(Users(c.t.maps, c.t.maps[key].ppn), key);
    }
  }

  /** The fault of one page, as a step. */
  lemma FaultIsStep(a: World, run: seq<World>, steps: seq<Step>, b: State, c: State, shm: set<nat>, segs: seq<Segment>, key: Key, st: seq<Step>)
    returns (run': seq<World>)
    requires Traced(run, steps, a, World(b, shm)) && CowInv(World(b, shm)) && Faulting(b, c, shm, segs, key, st)
    ensures CowInv(World(c, shm)) && Traced(run', steps + st, a, World(c, shm))
    ensures Went(run, steps, a, World(b, shm)) ==> Went(run', steps + st, a, World(c, shm))
  {
    hide CowInv, Next, Does, Went, Traced, FaultStep;
    if st == [] {
      run' := run;
      assert steps + st == steps;
    } else {
      StepRefines(World(b, shm), st[0], World(c, shm));
      NextDoes(World(b, shm), st[0], World(c, shm));
      TracedOn(run, steps, a, World(b, shm), st[0], World(c, shm));
      run' := run + [World(c, shm)];
      assert st == [st[0]];
    }
  }

  lemma NextDoes(a: World, st: Step, b: World)
    requires Next(a, st, b)
    ensures Does(a, st, b)
  {
    hide Does;
  }

  lemma SpellsMaybe(steps: seq<Step>, st: seq<Step>, b: State, c: State, shm: set<nat>, segs: seq<Segment>, root: nat, va: nat, data: seq<Byte>)
    requires Spells(steps, segs, root, va, data) && Faulting(b, c, shm, segs, Key(root, PageOf(va + |data|)), st)
    ensures Spells(steps + st, segs, root, va, data)
  {
    hide Spells, FaultStep, Next, PageOf;
    if st == [] {
      assert steps + st == steps;
    } else {
      SpellsFault(steps, st[0], segs, root, va, data);
      assert st == [st[0]];
    }
  }

  /**
   copyout: false is passiveAlloc's panic, on an address that nothing backs. run and steps are what
   the kernel's memory went through, up to there.
   */
  method Copyout(mem: Memory, root: nat, va0: nat, src: seq<Byte>, segs: seq<Segment>, ghost shm: set<nat>)
    returns (ok: bool, ghost run: seq<World>, ghost steps: seq<Step>)
    requires CowInv(World(mem.View(), shm)) && root in mem.place && mem.place[root].Root? && Segments(segs)
    requires va0 + |src| <= VA_MAX && Range(mem.View(), segs, root, va0, |src|) && 3 * Pages(va0, |src|) <= |mem.free|
    modifies mem
    ensures CowInv(World(mem.View(), shm)) && Traced(run, steps, World(old(mem.View()), shm), World(mem.View(), shm))
    ensures ok ==> Spells(steps, segs, root, va0, src)
    ensures !ok ==> exists x: nat :: va0 <= x < va0 + |src| && !Reachable(mem.View(), segs, root, x) && Spells(steps, segs, root, va0, src[..x - va0])
    ensures old(CleanRange(mem.View(), root, va0, |src|)) ==>
              && Went(run, steps, World(old(mem.View()), shm), World(mem.View(), shm))
              && Alpha(World(mem.View(), shm)) == DeepRun(Alpha(World(old(mem.View()), shm)), steps)
    ensures ok && old(OwnRange(mem.View(), root, va0, |src|)) ==> Copied(old(mem.View()), mem.View(), segs, root, va0, src)
  {
    hide Good, Exact, Users, Loose, Alive, Missing, Reached, Copied, SameSight, PageOf, Range, OwnRange, CleanRange, Reachable, Pages, Segments,
      CowInv, Next, Does, Went, Traced, Spells, Faulting, UserPage, Alpha, DeepRun, WritesEnd, CleanPage, OwnPage;
    ghost var a := mem.View();
    ghost var clean, own := CleanRange(a, root, va0, |src|), OwnRange(a, root, va0, |src|);
    var va, done := va0, 0;
    run, steps := [World(a, shm)], [];
    WentNowhere(World(a, shm));
    CopiedNothing(a, segs, root, va0);
    SpellsNothing(segs, root, va0);
    CowParts(World(a, shm));
    while done < |src|
      invariant 0 <= done <= |src| && va == va0 + done && CowInv(World(mem.View(), shm)) && mem.Valid() && mem.dead == {}
      invariant root in mem.place && mem.place[root].Root?
      invariant Range(mem.View(), segs, root, va0, |src|) && 3 * Pages(va, |src| - done) <= |mem.free|
      invariant Traced(run, steps, World(a, shm), World(mem.View(), shm)) && Spells(steps, segs, root, va0, src[..done])
      invariant clean ==> CleanRange(mem.View(), root, va0, |src|) && Went(run, steps, World(a, shm), World(mem.View(), shm))
      invariant own ==> OwnRange(mem.View(), root, va0, |src|) && Copied(a, mem.View(), segs, root, va0, src[..done])
      decreases |src| - done
    {
      ghost var b, key := mem.View(), Key(root, PageOf(va));
      RangeAt(b, segs, root, va0, |src|, va);
      PagesPositive(va, |src| - done);
      var page;
      ghost var st;
      ok, page, st := Reach(mem, root, va, segs, shm);
      if !ok {
        assert !Reachable(mem.View(), segs, root, va) && Spells(steps, segs, root, va0, src[..va - va0]);
        WentRefines(run, steps, World(a, shm), World(b, shm));
        return false, run, steps;
      }
      ghost var c := mem.View();
      run := FaultIsStep(World(a, shm), run, steps, b, c, shm, segs, key, st);
      SpellsMaybe(steps, st, b, c, shm, segs, root, va0, src[..done]);
      steps := steps + st;
      RangeReached(b, c, segs, root, PageOf(va), va0, |src|);
      if clean {
        CleanReached(World(b, shm), c, segs, root, PageOf(va), va0, |src|);
        CleanAt(c, root, va0, |src|, va);
      }
      ReachedFacts(b, c, segs, key);
      RootStays(b, c, segs, key);
      var n := PAGE_SIZE - va % PAGE_SIZE;
      if n > |src| - done {
        n := |src| - done;
      }
      mem.bytes := mem.bytes[page := Put(mem.bytes[page], va % PAGE_SIZE, src[done..done + n])];
      ghost var d := mem.View();
      WriteIsStep(c, d, shm, key, va % PAGE_SIZE, src[done..done + n]);
      TracedOn(run, steps, World(a, shm), World(c, shm), KernelWrite(key, va % PAGE_SIZE, src[done..done + n]), World(d, shm));
      EndWritten(KernelWrite(key, va % PAGE_SIZE, src[done..done + n]), root, va0, src[..done], src[done..done + n], va);
      SpellsWrite(steps, segs, root, va0, src[..done], src[done..done + n], KernelWrite(key, va % PAGE_SIZE, src[done..done + n]));
      run, steps := run + [World(d, shm)], steps + [KernelWrite(key, va % PAGE_SIZE, src[done..done + n])];
      assert src[..done] + src[done..done + n] == src[..done + n];
      if own {
        OwnedAt(c, root, va0, |src|, va);
        StoreSeen(c, d, segs, key, va, src[done..done + n]);
        CopiedMore(a, b, c, d, segs, root, va0, src[..done], src[done..done + n]);
      }
      RangeBytes(c, d, segs, root, va0, |src|);
      PagesStep(va, |src| - done, n);
      CowParts(World(d, shm));
      done, va := done + n, va + n;
    }
    assert src[..done] == src;
    WentRefines(run, steps, World(a, shm), World(mem.View(), shm));
    ok := true;
  }

  lemma SpellsNothing(segs: seq<Segment>, root: nat, va: nat)
    ensures Spells([], segs, root, va, [])
  {
  }

  /** What Went amounts to. */
  lemma WentRefines(run: seq<World>, steps: seq<Step>, a: World, b: World)
    requires CowInv(a)
    ensures Went(run, steps, a, b) ==> Alpha(b) == DeepRun(Alpha(a), steps) && CowInv(b)
  {
    hide CowInv, Next, Alpha, DeepRun;
    if Went(run, steps, a, b) {
      RunRefines(run, steps);
    }
  }

  lemma CopiedNothing(a: State, segs: seq<Segment>, root: nat, va: nat)
    ensures Copied(a, a, segs, root, va, [])
  {
    hide Seen;
  }

  lemma RangeAt(s: State, segs: seq<Segment>, root: nat, va: nat, n: nat, x: nat)
    requires Range(s, segs, root, va, n) && va <= x < va + n
    ensures UserPage(s, segs, root, x)
  {
    hide UserPage, PageOf;
  }

  lemma CleanAt(s: State, root: nat, va: nat, n: nat, x: nat)
    requires CleanRange(s, root, va, n) && va <= x < va + n
    ensures CleanPage(s, Key(root, PageOf(x)))
  {
    hide CleanPage, PageOf;
  }

  lemma OwnedAt(s: State, root: nat, va: nat, n: nat, x: nat)
    requires OwnRange(s, root, va, n) && va <= x < va + n
    requires var k := Key(root, PageOf(x)); k in s.t.maps && s.t.maps[k].Entry? && !s.t.maps[k].perm.cow
    ensures Users(s.t.maps, s.t.maps[Key(root, PageOf(x))].ppn) == {Key(root, PageOf(x))}
  {
    hide PageOf, Users;
    assert OwnPage(s, Key(root, PageOf(x)));
  }

  lemma RootStays(a: State, b: State, segs: seq<Segment>, key: Key)
    requires Reached(a, b, segs, key) && key.root in a.t.place && a.t.place[key.root].Root?
    ensures key.root in b.t.place && b.t.place[key.root].Root? && !b.t.maps[key].perm.cow && SameSight(a, b, segs)
  {
    hide Inv, SameSight;
  }

  lemma RangeBytes(a: State, b: State, segs: seq<Segment>, root: nat, va: nat, n: nat)
    requires b.t == a.t
    ensures Range(a, segs, root, va, n) ==> Range(b, segs, root, va, n)
    ensures OwnRange(a, root, va, n) ==> OwnRange(b, root, va, n)
    ensures CleanRange(a, root, va, n) ==> CleanRange(b, root, va, n)
  {
    hide PageOf, Backed;
    if Range(a, segs, root, va, n) {
      forall x: nat | va <= x < va + n ensures UserPage(b, segs, root, x) {
        assert UserPage(a, segs, root, x);
      }
    }
    if OwnRange(a, root, va, n) {
      forall x: nat | va <= x < va + n ensures OwnPage(b, Key(root, PageOf(x))) {
        assert OwnPage(a, Key(root, PageOf(x)));
      }
    }
    if CleanRange(a, root, va, n) {
      forall x: nat | va <= x < va + n ensures CleanPage(b, Key(root, PageOf(x))) {
        assert CleanPage(a, Key(root, PageOf(x)));
      }
    }
  }

  lemma PagesPositive(va: nat, n: nat)
    requires n > 0
    ensures Pages(va, n) >= 1
  {
  }

  /** Each turn but the last ends on a page boundary. */
  lemma PagesStep(va: nat, n: nat, m: nat)
    requires n > 0 && m == if PAGE_SIZE - va % PAGE_SIZE > n then n else PAGE_SIZE - va % PAGE_SIZE
    ensures Pages(va + m, n - m) + 1 == Pages(va, n)
  {
    if m < n {
      assert (va + m) % PAGE_SIZE == 0;
    }
  }

  /** copyin: reads what the process sees, and changes nothing that anybody sees. */
  method Copyin(mem: Memory, root: nat, va0: nat, len: nat, segs: seq<Segment>, ghost shm: set<nat>)
    returns (ok: bool, dst: seq<Byte>, ghost run: seq<World>, ghost steps: seq<Step>)
    requires CowInv(World(mem.View(), shm)) && root in mem.place && mem.place[root].Root? && Segments(segs)
    requires va0 + len <= VA_MAX && Range(mem.View(), segs, root, va0, len) && 3 * Pages(va0, len) <= |mem.free|
    modifies mem
    ensures CowInv(World(mem.View(), shm)) && SameSight(old(mem.View()), mem.View(), segs)
    ensures Went(run, steps, World(old(mem.View()), shm), World(mem.View(), shm)) && OnlyFaults(steps, segs, root)
    ensures Alpha(World(mem.View(), shm)) == DeepRun(Alpha(World(old(mem.View()), shm)), steps)
    ensures ok ==> |dst| == len && forall i :: 0 <= i < len ==> dst[i] == Seen(old(mem.View()), segs, root, va0 + i)
    ensures !ok ==> exists x: nat :: va0 <= x < va0 + len && !Reachable(mem.View(), segs, root, x)
  {
    hide Good, Exact, Users, Loose, Alive, Missing, Reached, SameSight, PageOf, Range, Reachable, Pages, Segments, Seen,
      CowInv, Next, Does, Went, Traced, Faulting, UserPage, Alpha, DeepRun, OnlyFaults;
    ghost var a := mem.View();
    dst := [];
    var va, done := va0, 0;
    run, steps := [World(a, shm)], [];
    WentNowhere(World(a, shm));
    SightSelf(a, segs);
    CowParts(World(a, shm));
    NoFaults(segs, root);
    while done < len
      invariant 0 <= done <= len && va == va0 + done && CowInv(World(mem.View(), shm)) && mem.Valid() && mem.dead == {}
      invariant root in mem.place && mem.place[root].Root?
      invariant Traced(run, steps, World(a, shm), World(mem.View(), shm)) && Went(run, steps, World(a, shm), World(mem.View(), shm))
      invariant OnlyFaults(steps, segs, root)
      invariant Range(mem.View(), segs, root, va0, len) && 3 * Pages(va, len - done) <= |mem.free| && SameSight(a, mem.View(), segs)
      invariant |dst| == done && forall i :: 0 <= i < done ==> dst[i] == Seen(a, segs, root, va0 + i)
      decreases len - done
    {
      ghost var b, key := mem.View(), Key(root, PageOf(va));
      RangeAt(b, segs, root, va0, len, va);
      PagesPositive(va, len - done);
      var page;
      ghost var st;
      ok, page, st := Reach(mem, root, va, segs, shm);
      if !ok {
        WentRefines(run, steps, World(a, shm), World(b, shm));
        return false, dst, run, steps;
      }
      ghost var c := mem.View();
      run := FaultIsStep(World(a, shm), run, steps, b, c, shm, segs, key, st);
      MoreFaults(steps, st, b, c, shm, segs, root, va);
      steps := steps + st;
      RangeReached(b, c, segs, root, PageOf(va), va0, len);
      ReachedFacts(b, c, segs, key);
      RootStays(b, c, segs, key);
      SightTrans(a, b, c, segs);
      var n := PAGE_SIZE - va % PAGE_SIZE;
      if n > len - done {
        n := len - done;
      }
      var part := mem.bytes[page][va % PAGE_SIZE..va % PAGE_SIZE + n];
      forall i | 0 <= i < n ensures part[i] == Seen(a, segs, root, va0 + (done + i)) {
        SeenInPage(c, segs, root, va, va + i, n);
        SightAt(a, c, segs, root, va + i);
      }
      PartAdded(dst, part, a, segs, root, va0);
      dst := dst + part;
      PagesStep(va, len - done, n);
      done, va := done + n, va + n;
    }
    WentRefines(run, steps, World(a, shm), World(mem.View(), shm));
    ok := true;
  }

  /** Faults of the process's own pages, and nothing else. */
  ghost predicate OnlyFaults(steps: seq<Step>, segs: seq<Segment>, root: nat) {
    forall i :: 0 <= i < |steps| ==> (steps[i].CowFault? || steps[i].Load?) && steps[i].at.root == root && FaultStep(segs, steps[i].at, steps[i])
  }

  lemma NoFaults(segs: seq<Segment>, root: nat)
    ensures OnlyFaults([], segs, root)
  {
  }

  lemma MoreFaults(steps: seq<Step>, st: seq<Step>, b: State, c: State, shm: set<nat>, segs: seq<Segment>, root: nat, va: nat)
    requires OnlyFaults(steps, segs, root) && Faulting(b, c, shm, segs, Key(root, PageOf(va)), st)
    ensures OnlyFaults(steps + st, segs, root)
  {
    hide Next, LazyContent, PageOf;
  }

  lemma PartAdded(dst: seq<Byte>, part: seq<Byte>, a: State, segs: seq<Segment>, root: nat, va: nat)
    requires forall i :: 0 <= i < |dst| ==> dst[i] == Seen(a, segs, root, va + i)
    requires forall i :: 0 <= i < |part| ==> part[i] == Seen(a, segs, root, va + (|dst| + i))
    ensures forall i :: 0 <= i < |dst + part| ==> (dst + part)[i] == Seen(a, segs, root, va + i)
  {
    hide Seen;
    var all := dst + part;
    forall i | 0 <= i < |all| ensures all[i] == Seen(a, segs, root, va + i) {
      if i >= |dst| {
        assert part[i - |dst|] == Seen(a, segs, root, va + (|dst| + (i - |dst|)));
      }
    }
  }

  lemma SightSelf(a: State, segs: seq<Segment>)
    ensures SameSight(a, a, segs)
  {
    hide Seen;
  }

  lemma SightTrans(a: State, b: State, c: State, segs: seq<Segment>)
    requires SameSight(a, b, segs) && SameSight(b, c, segs)
    ensures SameSight(a, c, segs)
  {
    hide Seen;
  }

  lemma SightAt(a: State, b: State, segs: seq<Segment>, root: nat, x: nat)
    requires SameSight(a, b, segs) && x < VA_MAX
    ensures Seen(b, segs, root, x) == Seen(a, segs, root, x)
  {
    hide Seen;
  }

  lemma SeenInPage(c: State, segs: seq<Segment>, root: nat, va: nat, x: nat, n: nat)
    requires va <= x < va + n && va + n <= VA_MAX && va % PAGE_SIZE + n <= PAGE_SIZE
    requires var k := Key(root, PageOf(va)); k in c.t.maps && c.t.maps[k].Entry? && c.t.maps[k].ppn < |c.bytes| && |c.bytes[c.t.maps[k].ppn]| == PAGE_SIZE
    ensures Seen(c, segs, root, x) == c.bytes[c.t.maps[Key(root, PageOf(va))].ppn][va % PAGE_SIZE + (x - va)]
  {
    InPage(va, x, n);
    SamePage(va, x);
    hide PageOf, LazyByte;
  }
}
