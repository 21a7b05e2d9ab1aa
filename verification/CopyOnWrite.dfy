/**
 Copy-on-write against deep copy. The kernel's memory, with its shared physical pages, simulates
 a memory in which fork copies every private page at once and shared-memory pages are objects of
 their own.
 */
module CopyOnWrite {
  import opened PageTables
  import opened PhysicalMemory
  import opened TableSpots
  import opened KernelMemory
  import opened AddressSpaces
  import opened Teardown

  /** The kernel's memory together with the set of pages that shmAlloc has handed out. */
  datatype World = World(s: State, shm: set<nat>)

  /** The three pages that the kernel maps into every process. */
  predicate Special(v: VPage) {
    v == TRAMPOLINE || v == TRAPFRAME || v == SIGNAL_TRAMPOLINE
  }

  ghost predicate MapsTo(s: State, key: Key, p: nat) {
    key in s.t.maps && s.t.maps[key].Entry? && s.t.maps[key].ppn == p
  }

  /** A page with two mappings is shared memory or mapped without write permission. */
  ghost predicate WritableAlone(s: State) {
    forall key: Key, other: Key, p: nat ::
      MapsTo(s, key, p) && MapsTo(s, other, p) && key != other && !Special(key.v) ==>
      !Special(other.v) && (s.t.maps[key].perm.w ==> s.t.maps[key].perm.shm)
  }

  /** The shared-memory bit marks exactly the mappings of shared-memory pages. */
  ghost predicate ShmMarked(w: World) {
    && (forall key: Key, p: nat :: MapsTo(w.s, key, p) ==>
          if Special(key.v) then p !in w.shm
          else (w.s.t.maps[key].perm.shm <==> p in w.shm) && (p !in w.shm ==> p < |w.s.kernel| && w.s.kernel[p] == 0))
    && (forall p :: p in w.shm ==> p < |w.s.kernel| && w.s.kernel[p] > 0)
  }

  ghost predicate CowMarked(s: State) {
    forall key: Key, p: nat :: MapsTo(s, key, p) && s.t.maps[key].perm.cow ==>
      !s.t.maps[key].perm.w && !s.t.maps[key].perm.shm
  }

  ghost predicate CowInv(w: World) {
    && Inv(w.s) && w.s.t.dead == {}
    && WritableAlone(w.s) && ShmMarked(w) && CowMarked(w.s)
  }

  // ----- the deep-copy memory ----------------------------------------------------------

  type Content = seq<Byte>

  datatype Obj = Private(content: Content) | Shared(id: nat)

  /** Per position a private content or the name of a shared object. */
  datatype Deep = Deep(spaces: map<Key, Obj>, shm: map<nat, Content>)

  datatype Step =
    | Fork(parent: nat, child: nat, lost: set<VPage>)
    | CowFault(at: Key)
    | Store(at: Key, off: nat, data: seq<Byte>)
    | Load(at: Key, content: Content)
    | Unmap(at: Key)
    | Exit(root: nat)
    | ShmAlloc(id: nat, content: Content)
    | ShmAt(at: Key, id: nat)
    | NewSpace(root: nat)
    | KernelPage(page: nat)
    | MapSpecial(at: Key, page: nat)
    | KernelWrite(at: Key, off: nat, data: seq<Byte>)
    | StrayWrite(page: nat, off: nat, data: seq<Byte>)
    | MapFailed

  /** data written over content from off on. */
  function Put(content: Content, off: nat, data: seq<Byte>): Content {
    if off + |data| <= |content| then content[..off] + data + content[off + |data|..] else content
  }

  /** One step of the deep-copy memory. A fork copies every page but the lost ones; a copy-on-write fault is no step at all. */
  function DeepStep(d: Deep, st: Step): Deep {
    match st {
      case Fork(parent, child, lost) =>
        Deep(d.spaces + map key | key in ForkKeys(d.spaces.Keys, parent, child) && key.v !in lost :: d.spaces[Key(parent, key.v)], d.shm)
      case CowFault(_) => d
      case Store(at, off, data) => DeepStore(d, at, off, data)
      case KernelWrite(at, off, data) => DeepStore(d, at, off, data)
      case Load(at, content) => if Special(at.v) then d else Deep(d.spaces[at := Private(content)], d.shm)
      case Unmap(at) => Deep(d.spaces - {at}, d.shm)
      case Exit(root) => Deep(map key | key in d.spaces && key.root != root :: d.spaces[key], d.shm)
      case ShmAlloc(id, content) => Deep(d.spaces, d.shm[id := content])
      case ShmAt(at, id) => Deep(d.spaces[at := Shared(id)], d.shm)
      case NewSpace(_) => d
      case KernelPage(_) => d
      case MapSpecial(_, _) => d
      case StrayWrite(_, _, _) => d
      case MapFailed => d
    }
  }

  /** A write through one position changes the one object that it names. */
  function DeepStore(d: Deep, at: Key, off: nat, data: seq<Byte>): Deep {
    if at !in d.spaces then d
    else if d.spaces[at].Private? then
      Deep(d.spaces[at := Private(Put(d.spaces[at].content, off, data))], d.shm)
    else if d.spaces[at].id in d.shm then
      Deep(d.spaces, d.shm[d.spaces[at].id := Put(d.shm[d.spaces[at].id], off, data)])
    else d
  }

  function ForkKeys(keys: set<Key>, parent: nat, child: nat): (r: set<Key>)
    ensures forall key :: key in r <==> key.root == child && Key(parent, key.v) in keys
  {
    set key | key in keys && key.root == parent :: Key(child, key.v)
  }

  // ----- what the kernel's memory stands for -------------------------------------------

  ghost function ObjAt(w: World, key: Key): Obj
    requires key in w.s.t.maps && w.s.t.maps[key].Entry? && w.s.t.maps[key].ppn < |w.s.bytes|
  {
    if w.s.t.maps[key].perm.shm then Shared(w.s.t.maps[key].ppn) else Private(w.s.bytes[w.s.t.maps[key].ppn])
  }

  ghost predicate Ordinary(s: State, key: Key) {
    key in s.t.maps && !Special(key.v) && s.t.maps[key].Entry? && s.t.maps[key].ppn < |s.bytes|
  }

  ghost function Alpha(w: World): Deep {
    Deep(map key | key in w.s.t.maps && Ordinary(w.s, key) :: ObjAt(w, key),
         map p | p in w.shm && p < |w.s.bytes| :: w.s.bytes[p])
  }

  // ----- the kernel's steps ------------------------------------------------------------

  /** A free page, filled with `content`, is mapped at `key`: stack growth, lazy loading, mmap. */
  ghost predicate Loaded(a: State, b: State, key: Key, content: Content) {
    && key in b.t.maps && b.t.maps[key].Entry? && b.t.maps[key].ppn in a.free && b.t.maps[key].ppn < |b.bytes|
    && b.bytes[b.t.maps[key].ppn] == content && !b.t.maps[key].perm.cow && !b.t.maps[key].perm.shm
    && b.t.maps == a.t.maps[key := b.t.maps[key]] && b.kernel == a.kernel
    && (forall p: nat :: p < |a.ref| && p !in a.free ==> p < |b.bytes| && p < |a.bytes| && b.bytes[p] == a.bytes[p])
  }

  ghost predicate Kept(a: State, b: State) {
    && |a.bytes| == |b.bytes| == |a.ref| && |a.kernel| == |b.kernel|
    && (forall p: nat :: p < |a.ref| && p !in a.free ==> b.bytes[p] == a.bytes[p])
  }

  /** What the kernel does in each step, whether or not the result is what deep copying asks for. */
  ghost predicate Does(a: World, st: Step, b: World) {
    && Inv(b.s) && b.s.t.dead == {} && |b.s.ref| == |a.s.ref|
    && match st {
      case Fork(parent, child, lost) =>
        && Forked(a.s, b.s, parent, child, 0, ALL_PAGES, lost) && parent != child && b.shm == a.shm
        && Served(a.s, b.s, parent, child, 0, ALL_PAGES, lost)
        && (forall v: VPage :: Key(child, v) in a.s.t.maps ==> Special(v))
      case CowFault(at) => CowBroken(a.s, b.s, at) && a.s.t.maps[at].perm.cow && b.shm == a.shm
      case Store(at, off, data) =>
        && at in a.s.t.maps && a.s.t.maps[at].Entry? && a.s.t.maps[at].ppn < |a.s.bytes|
        && a.s.t.maps[at].perm.w && off + |data| <= PAGE_SIZE && b.shm == a.shm
        && b.s == Written(a.s, a.s.t.maps[at].ppn, off, data)
      case Load(at, content) => Loaded(a.s, b.s, at, content) && b.shm == a.shm
      case Unmap(at) => Removed(a.s, b.s, at) && b.shm == a.shm
      case Exit(root) => Cleared(a.s, b.s, root, 0, ALL_PAGES) && b.shm == a.shm
      case ShmAlloc(id, content) =>
        && id in a.s.free && b.shm == a.shm + {id} && id < |b.s.bytes| && b.s.bytes[id] == content
        && b.s.t.maps == a.s.t.maps && Kept(a.s, b.s) && id < |a.s.kernel| && b.s.kernel == a.s.kernel[id := 1]
      case ShmAt(at, id) =>
        && id in a.shm && b.shm == a.shm && !Special(at.v)
        && at in b.s.t.maps && b.s.t.maps[at].Entry? && b.s.t.maps[at].perm.shm && !b.s.t.maps[at].perm.cow
        && Inserted(a.s, b.s, at, b.s.t.maps[at]) && b.s.t.maps[at].ppn == id
      case NewSpace(root) =>
        && root in a.s.free && b.shm == a.shm && root in b.s.t.place && b.s.t.place[root].Root?
        && b.s.t.maps == a.s.t.maps && b.s.kernel == a.s.kernel && Kept(a.s, b.s)
      case KernelPage(page) =>
        && page in a.s.free && b.shm == a.shm && b.s.t.maps == a.s.t.maps && Kept(a.s, b.s)
        && page < |a.s.kernel| && b.s.kernel == a.s.kernel[page := 1]
      case MapSpecial(at, page) =>
        && Special(at.v) && page !in a.shm && page < |a.s.kernel| && a.s.kernel[page] > 0 && b.shm == a.shm
        && at in b.s.t.maps && b.s.t.maps[at].Entry? && b.s.t.maps[at].ppn == page
        && !b.s.t.maps[at].perm.shm && !b.s.t.maps[at].perm.cow && Inserted(a.s, b.s, at, b.s.t.maps[at])
      case KernelWrite(at, off, data) =>
        && at in a.s.t.maps && a.s.t.maps[at].Entry? && a.s.t.maps[at].ppn < |a.s.bytes|
        && off + |data| <= PAGE_SIZE && b.shm == a.shm && b.s == Written(a.s, a.s.t.maps[at].ppn, off, data)
      case StrayWrite(page, off, data) =>
        page < |a.s.bytes| && off + |data| <= PAGE_SIZE && b.shm == a.shm && b.s == Written(a.s, page, off, data)
      case MapFailed => Took(a.s, b.s) && b.shm == a.shm
    }
  }

  /** A kernel write at a mapped position reaches no other private page. */
  ghost predicate StaysHere(s: State, at: Key) {
    at in s.t.maps && s.t.maps[at].Entry? && s.t.maps[at].ppn < |s.ref| ==>
      Special(at.v) || s.t.maps[at].perm.shm || s.ref[s.t.maps[at].ppn] == 1
  }

  /** No process has anything at the page but one of the kernel's. */
  ghost predicate Unseen(w: World, page: nat) {
    page !in w.shm && forall key: Key :: MapsTo(w.s, key, page) ==> Special(key.v)
  }

  /** A step of the kernel that is also one of the deep-copy memory. */
  ghost predicate Next(a: World, st: Step, b: World) {
    Does(a, st, b) && (st.KernelWrite? ==> StaysHere(a.s, st.at)) && (st.StrayWrite? ==> Unseen(a, st.page))
  }

  function Written(s: State, p: nat, off: nat, data: seq<Byte>): State
    requires p < |s.bytes|
  {
    State(s.t, s.bytes[p := Put(s.bytes[p], off, data)], s.ref, s.free, s.kernel)
  }

  /** Everything a step may rely on about a mapped page. */
  lemma MapsToFacts(w: World, key: Key)
    requires CowInv(w) && key in w.s.t.maps
    ensures w.s.t.maps[key].Entry? && MapsTo(w.s, key, w.s.t.maps[key].ppn)
    ensures w.s.t.maps[key].ppn < |w.s.bytes| && w.s.t.maps[key].ppn !in w.s.free
    ensures |w.s.bytes[w.s.t.maps[key].ppn]| == PAGE_SIZE
  {
    hide WritableAlone, ShmMarked, CowMarked, Good, Exact, Listed;
    MappedIsCounted(w.s, key);
  }

  lemma ShmFacts(w: World, p: nat)
    requires CowInv(w) && p in w.shm
    ensures p < |w.s.bytes| && p !in w.s.free && w.s.kernel[p] > 0
  {
    hide WritableAlone, CowMarked, Good;
    forall i | 0 <= i < |w.s.free| ensures w.s.free[i] != p {
      assert w.s.ref[w.s.free[i]] == 0;
    }
  }

  /** A write to a page that no other position maps privately is a write to one object. */
  lemma WriteAloneRefines(a: World, at: Key, off: nat, data: seq<Byte>)
    requires CowInv(a) && Ordinary(a.s, at) && off + |data| <= PAGE_SIZE
    requires a.s.t.maps[at].perm.shm || Users(a.s.t.maps, a.s.t.maps[at].ppn) == {at}
    ensures Alpha(World(Written(a.s, a.s.t.maps[at].ppn, off, data), a.shm)) == DeepStep(Alpha(a), Store(at, off, data))
  {
    hide Inv, WritableAlone, CowMarked;
    MapsToFacts(a, at);
    var p := a.s.t.maps[at].ppn;
    assert MapsTo(a.s, at, p);
    forall key | key in a.s.t.maps && key != at && Ordinary(a.s, key) && !a.s.t.maps[key].perm.shm
      ensures a.s.t.maps[key].ppn != p
    {
      assert MapsTo(a.s, key, a.s.t.maps[key].ppn);
      assert key in Users(a.s.t.maps, a.s.t.maps[key].ppn);
    }
  }

  /** The kernel pages in every space are not part of what the deep-copy memory describes. */
  lemma WriteSpecialRefines(a: World, at: Key, off: nat, data: seq<Byte>)
    requires CowInv(a) && at in a.s.t.maps && Special(at.v) && a.s.t.maps[at].Entry? && a.s.t.maps[at].ppn < |a.s.bytes|
    ensures Alpha(World(Written(a.s, a.s.t.maps[at].ppn, off, data), a.shm)) == DeepStep(Alpha(a), Store(at, off, data))
  {
    hide Inv, CowMarked;
    var p := a.s.t.maps[at].ppn;
    assert MapsTo(a.s, at, p);
    forall key | key in a.s.t.maps && Ordinary(a.s, key) ensures a.s.t.maps[key].ppn != p {
      assert MapsTo(a.s, key, a.s.t.maps[key].ppn);
    }
  }

  lemma StoreRefines(a: World, at: Key, off: nat, data: seq<Byte>, b: World)
    requires CowInv(a) && Next(a, Store(at, off, data), b)
    ensures CowInv(b) && Alpha(b) == DeepStep(Alpha(a), Store(at, off, data))
  {
    hide Good, Exact, Listed, Alpha, DeepStep, ShmMarked, CowMarked;
    StoreKeeps(a, b);
    MapsToFacts(a, at);
    if Special(at.v) {
      WriteSpecialRefines(a, at, off, data);
    } else {
      assert a.s.t.maps[at].perm.shm || Users(a.s.t.maps, a.s.t.maps[at].ppn) == {at} by {
        if !a.s.t.maps[at].perm.shm {
          forall key | key in Users(a.s.t.maps, a.s.t.maps[at].ppn) ensures key == at {
            assert MapsTo(a.s, key, a.s.t.maps[at].ppn);
          }
        }
      }
      WriteAloneRefines(a, at, off, data);
    }
  }

  lemma StoreKeeps(a: World, b: World)
    requires CowInv(a) && b.shm == a.shm && Inv(b.s) && b.s.t == a.s.t && b.s.kernel == a.s.kernel
    ensures CowInv(b)
  {
    hide Good, Exact, Listed;
    assert forall key: Key, p: nat :: MapsTo(a.s, key, p) == MapsTo(b.s, key, p);
  }

  lemma CowFaultRefines(a: World, at: Key, b: World)
    requires CowInv(a) && Next(a, CowFault(at), b)
    ensures CowInv(b) && Alpha(b) == DeepStep(Alpha(a), CowFault(at))
  {
    hide Good, Exact, Listed;
    MapsToFacts(a, at);
    FreshPage(a, b.s.t.maps[at].ppn);
    FreshKeeps(a, b, at);
    SameElsewhere(a, b, at);
    SameShm(a, b);
  }

  lemma LoadRefines(a: World, at: Key, content: Content, b: World)
    requires CowInv(a) && Next(a, Load(at, content), b)
    ensures CowInv(b) && Alpha(b) == DeepStep(Alpha(a), Load(at, content))
  {
    hide Good, Exact, Listed;
    FreshPage(a, b.s.t.maps[at].ppn);
    FreshKeeps(a, b, at);
    SameElsewhere(a, b, at);
    SameShm(a, b);
  }

  lemma FreshPage(a: World, p: nat)
    requires CowInv(a) && p in a.s.free
    ensures p !in a.shm && p < |a.s.kernel| && a.s.kernel[p] == 0
    ensures forall key: Key :: !MapsTo(a.s, key, p)
  {
    hide WritableAlone, CowMarked, Good;
    FreeIsUnused(a.s, p);
    if p in a.shm {
      ShmFacts(a, p);
    }
  }

  /** Mapping one position to a page that nothing maps keeps the invariant. */
  lemma FreshKeeps(a: World, b: World, at: Key)
    requires CowInv(a) && Inv(b.s) && b.s.t.dead == {} && b.shm == a.shm && b.s.kernel == a.s.kernel
    requires at in b.s.t.maps && b.s.t.maps[at].Entry? && b.s.t.maps == a.s.t.maps[at := b.s.t.maps[at]]
    requires var e := b.s.t.maps[at];
             && e.ppn !in a.shm && e.ppn < |a.s.kernel| && a.s.kernel[e.ppn] == 0 && !e.perm.shm && !e.perm.cow
             && forall key: Key :: !MapsTo(a.s, key, e.ppn)
    ensures CowInv(b)
  {
    hide Good, Exact, Listed, Full;
    forall key: Key, p: nat | MapsTo(b.s, key, p) && key != at ensures MapsTo(a.s, key, p) && b.s.t.maps[key] == a.s.t.maps[key] {
    }
  }

  /** Pages in use keep their content, so other positions stand for the same objects. */
  lemma SameElsewhere(a: World, b: World, at: Key)
    requires CowInv(a) && Inv(b.s) && b.shm == a.shm && Kept(a.s, b.s)
    requires at in b.s.t.maps && b.s.t.maps == a.s.t.maps[at := b.s.t.maps[at]]
    ensures forall key: Key :: key != at ==>
              (Ordinary(b.s, key) <==> Ordinary(a.s, key)) && (Ordinary(a.s, key) ==> ObjAt(b, key) == ObjAt(a, key))
  {
    hide WritableAlone, ShmMarked, CowMarked, Good, Exact, Listed;
    forall key: Key | key != at && key in a.s.t.maps
      ensures Ordinary(b.s, key) <==> Ordinary(a.s, key)
      ensures Ordinary(a.s, key) ==> ObjAt(b, key) == ObjAt(a, key)
    {
      MapsToFacts(a, key);
    }
  }

  lemma SameShm(a: World, b: World)
    requires CowInv(a) && b.shm == a.shm && Kept(a.s, b.s)
    ensures Alpha(b).shm == Alpha(a).shm
  {
    hide WritableAlone, CowMarked, Good, Exact, Listed;
    forall p | p in a.shm ensures p < |b.s.bytes| && b.s.bytes[p] == a.s.bytes[p] {
      ShmFacts(a, p);
    }
  }

  lemma ShmAtRefines(a: World, at: Key, id: nat, b: World)
    requires CowInv(a) && Next(a, ShmAt(at, id), b)
    ensures CowInv(b) && Alpha(b) == DeepStep(Alpha(a), ShmAt(at, id))
  {
    hide Good, Exact, Listed;
    ShmFacts(a, id);
    ShmAtKeeps(a, b, at, id);
    SameElsewhere(a, b, at);
    SameShm(a, b);
  }

  lemma ShmAtKeeps(a: World, b: World, at: Key, id: nat)
    requires CowInv(a) && Next(a, ShmAt(at, id), b)
    ensures CowInv(b)
  {
    hide Good, Exact, Listed, Full, Loose;
    forall key: Key, p: nat | MapsTo(b.s, key, p) && key != at ensures MapsTo(a.s, key, p) && b.s.t.maps[key] == a.s.t.maps[key] {
    }
  }

  lemma UnmapRefines(a: World, at: Key, b: World)
    requires CowInv(a) && Next(a, Unmap(at), b)
    ensures CowInv(b) && Alpha(b) == DeepStep(Alpha(a), Unmap(at))
  {
    hide Good, Exact, Listed, Loose;
    FewerKeeps(a, b);
    FewerSame(a, b);
    SameShm(a, b);
  }

  lemma ExitRefines(a: World, root: nat, b: World)
    requires CowInv(a) && Next(a, Exit(root), b)
    ensures CowInv(b) && Alpha(b) == DeepStep(Alpha(a), Exit(root))
  {
    hide Good, Exact, Listed, Loose;
    forall key: Key ensures 0 <= Rank(key.v) < ALL_PAGES {
    }
    forall key: Key ensures key in b.s.t.maps <==> key in a.s.t.maps && key.root != root {
      assert key.root != root ==> SameAt(a.s, b.s, key);
    }
    forall key: Key | key in b.s.t.maps ensures b.s.t.maps[key] == a.s.t.maps[key] {
      assert SameAt(a.s, b.s, key);
    }
    FewerKeeps(a, b);
    FewerSame(a, b);
    SameShm(a, b);
  }

  /** Dropping mappings keeps the invariant. */
  lemma FewerKeeps(a: World, b: World)
    requires CowInv(a) && Inv(b.s) && b.s.t.dead == {} && b.shm == a.shm && b.s.kernel == a.s.kernel
    requires forall key: Key :: key in b.s.t.maps ==> key in a.s.t.maps && b.s.t.maps[key] == a.s.t.maps[key]
    ensures CowInv(b)
  {
    hide Good, Exact, Listed, Full;
    assert forall key: Key, p: nat :: MapsTo(b.s, key, p) ==> MapsTo(a.s, key, p);
  }

  lemma FewerSame(a: World, b: World)
    requires CowInv(a) && Inv(b.s) && b.shm == a.shm && Kept(a.s, b.s)
    requires forall key: Key :: key in b.s.t.maps ==> key in a.s.t.maps && b.s.t.maps[key] == a.s.t.maps[key]
    ensures forall key: Key :: key in b.s.t.maps ==>
              (Ordinary(b.s, key) <==> Ordinary(a.s, key)) && (Ordinary(a.s, key) ==> ObjAt(b, key) == ObjAt(a, key))
  {
    hide WritableAlone, ShmMarked, CowMarked, Good, Exact, Listed;
    forall key: Key | key in b.s.t.maps
      ensures Ordinary(b.s, key) <==> Ordinary(a.s, key)
      ensures Ordinary(a.s, key) ==> ObjAt(b, key) == ObjAt(a, key)
    {
      MapsToFacts(a, key);
    }
  }

  lemma ShmAllocRefines(a: World, id: nat, content: Content, b: World)
    requires CowInv(a) && Next(a, ShmAlloc(id, content), b)
    ensures CowInv(b) && Alpha(b) == DeepStep(Alpha(a), ShmAlloc(id, content))
  {
    hide Good, Exact, Listed, Loose;
    FreshPage(a, id);
    assert forall key: Key, p: nat :: MapsTo(b.s, key, p) == MapsTo(a.s, key, p);
    FewerSame(World(a.s, a.shm), World(b.s, a.shm));
    forall p | p in a.shm ensures p < |b.s.bytes| && b.s.bytes[p] == a.s.bytes[p] && p != id {
      ShmFacts(a, p);
    }
  }

  lemma NewSpaceRefines(a: World, root: nat, b: World)
    requires CowInv(a) && Next(a, NewSpace(root), b)
    ensures CowInv(b) && Alpha(b) == DeepStep(Alpha(a), NewSpace(root))
  {
    hide Good, Exact, Listed, Loose;
    FewerKeeps(a, b);
    FewerSame(a, b);
    SameShm(a, b);
  }

  lemma KernelPageRefines(a: World, page: nat, b: World)
    requires CowInv(a) && Next(a, KernelPage(page), b)
    ensures CowInv(b) && Alpha(b) == DeepStep(Alpha(a), KernelPage(page))
  {
    hide Good, Exact, Listed, Loose;
    FreshPage(a, page);
    assert forall key: Key, p: nat :: MapsTo(b.s, key, p) == MapsTo(a.s, key, p);
    FewerSame(a, b);
    SameShm(a, b);
  }

  lemma MapSpecialRefines(a: World, at: Key, page: nat, b: World)
    requires CowInv(a) && Next(a, MapSpecial(at, page), b)
    ensures CowInv(b) && Alpha(b) == DeepStep(Alpha(a), MapSpecial(at, page))
  {
    hide Good, Exact, Listed, Loose;
    MapSpecialKeeps(a, at, page, b);
    SameElsewhere(a, b, at);
    SameShm(a, b);
  }

  lemma MapSpecialKeeps(a: World, at: Key, page: nat, b: World)
    requires CowInv(a) && Next(a, MapSpecial(at, page), b)
    ensures CowInv(b)
  {
    hide Good, Exact, Listed, Full, Loose;
    forall key: Key, p: nat | MapsTo(b.s, key, p) && key != at ensures MapsTo(a.s, key, p) && b.s.t.maps[key] == a.s.t.maps[key] {
    }
  }

  /** Writing to bytes of a page keeps the invariant, whoever maps it. */
  lemma KernelWriteKeeps(a: World, at: Key, off: nat, data: seq<Byte>, b: World)
    requires CowInv(a) && Does(a, KernelWrite(at, off, data), b)
    ensures CowInv(b)
  {
    hide Good, Exact, Listed, WritableAlone, ShmMarked, CowMarked;
    StoreKeeps(a, b);
  }

  lemma KernelWriteRefines(a: World, at: Key, off: nat, data: seq<Byte>, b: World)
    requires CowInv(a) && Next(a, KernelWrite(at, off, data), b)
    ensures CowInv(b) && Alpha(b) == DeepStep(Alpha(a), KernelWrite(at, off, data))
  {
    hide Inv, CowInv, Alpha, DeepStore, Users;
    KernelWriteKeeps(a, at, off, data, b);
    MapsToFacts(a, at);
    MappedIn(a, at);
    if Special(at.v) {
      WriteSpecialRefines(a, at, off, data);
    } else {
      if !a.s.t.maps[at].perm.shm {
        SoleUser(a, at);
        OnlyOne(Users(a.s.t.maps, a.s.t.maps[at].ppn), at);
      }
      WriteAloneRefines(a, at, off, data);
    }
  }

  /** Where a mapping of the forked state comes from. */
  function OriginOf(a: State, parent: nat, child: nat, key: Key): Key {
    if key.root == child && !Skipped(key.v) && Key(parent, key.v) in a.t.maps then Key(parent, key.v) else key
  }

  /** After fork every mapping is to its origin's page; a page shared by fork is not writable. */
  lemma ForkOrigin(a: World, parent: nat, child: nat, lost: set<VPage>, b: World, key: Key)
    requires CowInv(a) && Next(a, Fork(parent, child, lost), b) && key in b.s.t.maps
    ensures var o := OriginOf(a.s, parent, child, key);
            && o in a.s.t.maps && a.s.t.maps[o].Entry? && b.s.t.maps[key].Entry?
            && b.s.t.maps[key].ppn == a.s.t.maps[o].ppn && b.s.t.maps[key].perm.shm == a.s.t.maps[o].perm.shm
            && (b.s.t.maps[key].perm.w ==> a.s.t.maps[o].perm.w)
            && (b.s.t.maps[key].perm.cow ==> !b.s.t.maps[key].perm.w && !b.s.t.maps[key].perm.shm)
            && (o != key || (key.root == parent && !Skipped(key.v)) ==>
                  b.s.t.maps[key].perm.w ==> b.s.t.maps[key].perm.shm)
  {
    hide Good, Exact, Listed, Loose, Served, WritableAlone, ShmMarked;
    var v := key.v;
    var o := OriginOf(a.s, parent, child, key);
    assert 0 <= Rank(v) < ALL_PAGES;
    if Key(parent, v) in a.s.t.maps {
      MapsToFacts(a, Key(parent, v));
    }
    if Forks(a.s, parent, 0, ALL_PAGES, v) {
      assert SharedAt(a.s, b.s, parent, child, v, v in lost);
      if key.root !in {parent, child} {
        assert SameAt(a.s, b.s, key);
      }
    } else {
      assert SameAt(a.s, b.s, key);
    }
    MapsToFacts(a, o);
  }

  lemma ForkKeeps(a: World, parent: nat, child: nat, lost: set<VPage>, b: World)
    requires CowInv(a) && Next(a, Fork(parent, child, lost), b)
    ensures CowInv(b)
  {
    hide Good, Exact, Listed, Loose, Full, Forked, Served;
    assert b.s.kernel == a.s.kernel by { ForkShape(a, parent, child, lost, b); }
    forall key: Key, p: nat | MapsTo(b.s, key, p)
      ensures MapsTo(a.s, OriginOf(a.s, parent, child, key), p)
      ensures b.s.t.maps[key].perm.shm == a.s.t.maps[OriginOf(a.s, parent, child, key)].perm.shm
      ensures b.s.t.maps[key].perm.cow ==> !b.s.t.maps[key].perm.w && !b.s.t.maps[key].perm.shm
    {
      ForkOrigin(a, parent, child, lost, b, key);
    }
    forall key: Key, other: Key, p: nat | MapsTo(b.s, key, p) && MapsTo(b.s, other, p) && key != other && !Special(key.v)
      ensures !Special(other.v) && (b.s.t.maps[key].perm.w ==> b.s.t.maps[key].perm.shm)
    {
      ForkOrigin(a, parent, child, lost, b, key);
      ForkOrigin(a, parent, child, lost, b, other);
    }
  }

  lemma ForkShape(a: World, parent: nat, child: nat, lost: set<VPage>, b: World)
    requires CowInv(a) && Next(a, Fork(parent, child, lost), b)
    ensures Kept(a.s, b.s) && b.s.kernel == a.s.kernel
  {
    hide Good, Exact, Listed, Loose, Full, Served, WritableAlone, ShmMarked, CowMarked;
  }

  /** fork is a deep copy of the parent's ordinary pages, less those it lost. */
  lemma ForkRefines(a: World, parent: nat, child: nat, lost: set<VPage>, b: World)
    requires CowInv(a) && Next(a, Fork(parent, child, lost), b)
    ensures CowInv(b) && Alpha(b) == DeepStep(Alpha(a), Fork(parent, child, lost))
  {
    hide Good, Exact, Listed, Loose, Full, Forked, Served, WritableAlone, ShmMarked, CowMarked, DeepStep;
    ForkKeeps(a, parent, child, lost, b);
    ForkShape(a, parent, child, lost, b);
    SameShm(a, b);
    var d := DeepStep(Alpha(a), Fork(parent, child, lost));
    forall key: Key
      ensures key in Alpha(b).spaces <==> key in d.spaces
      ensures key in d.spaces && key in Alpha(b).spaces ==> Alpha(b).spaces[key] == d.spaces[key]
    {
      ForkAt(a, parent, child, lost, b, key);
    }
    assert d.shm == Alpha(a).shm by { ForkShm(a, parent, child, lost); }
  }

  lemma ForkShm(a: World, parent: nat, child: nat, lost: set<VPage>)
    ensures DeepStep(Alpha(a), Fork(parent, child, lost)).shm == Alpha(a).shm
  {
    hide ObjAt, Ordinary;
  }

  lemma ForkAt(a: World, parent: nat, child: nat, lost: set<VPage>, b: World, key: Key)
    requires CowInv(a) && Next(a, Fork(parent, child, lost), b) && Kept(a.s, b.s)
    ensures var d := DeepStep(Alpha(a), Fork(parent, child, lost));
            && (key in Alpha(b).spaces <==> key in d.spaces)
            && (key in d.spaces && key in Alpha(b).spaces ==> Alpha(b).spaces[key] == d.spaces[key])
  {
    hide Good, Exact, Listed, Loose, Full, Served, WritableAlone, ShmMarked, CowMarked;
    var v := key.v;
    assert 0 <= Rank(v) < ALL_PAGES;
    var o := Key(parent, v);
    if o in a.s.t.maps {
      MapsToFacts(a, o);
    }
    if key in a.s.t.maps {
      MapsToFacts(a, key);
    }
    if Forks(a.s, parent, 0, ALL_PAGES, v) {
      assert SharedAt(a.s, b.s, parent, child, v, v in lost);
      if key.root !in {parent, child} {
        assert SameAt(a.s, b.s, key);
      }
    } else {
      assert SameAt(a.s, b.s, key);
    }
  }

  /**
   fork is a deep copy of all the parent's ordinary pages exactly if the free pages hold the tables
   that the child still needs. As every process does, the child has its signal trampoline already.
   */
  lemma DeepCopyIff(a: World, parent: nat, child: nat, lost: set<VPage>, b: World)
    requires CowInv(a) && Next(a, Fork(parent, child, lost), b) && Key(child, SIGNAL_TRAMPOLINE) in a.s.t.maps
    ensures Alpha(b) == DeepStep(Alpha(a), Fork(parent, child, {})) <==> NewTables(a.s, parent, child) <= |a.s.free|
  {
    hide CowInv, Alpha, DeepStep, NewTables;
    ForkRefines(a, parent, child, lost, b);
    LostIff(a, parent, child, lost, b);
    if v :| v in lost {
      LostAt(a, parent, child, lost, b, v);
    }
  }

  lemma LostIff(a: World, parent: nat, child: nat, lost: set<VPage>, b: World)
    requires Next(a, Fork(parent, child, lost), b)
    ensures lost == {} <==> NewTables(a.s, parent, child) <= |a.s.free|
  {
    hide Inv, Forked, TablesFor, TooLate;
  }

  lemma LostAt(a: World, parent: nat, child: nat, lost: set<VPage>, b: World, v: VPage)
    requires CowInv(a) && Next(a, Fork(parent, child, lost), b) && Key(child, SIGNAL_TRAMPOLINE) in a.s.t.maps && v in lost
    ensures Ordinary(a.s, Key(parent, v)) && Key(child, v) !in Alpha(b).spaces
    ensures Key(child, v) in DeepStep(Alpha(a), Fork(parent, child, {})).spaces
  {
    hide Good, Exact, Listed, Loose, Full, Served, WritableAlone, ShmMarked, CowMarked;
    assert Forks(a.s, parent, 0, ALL_PAGES, v);
    assert SharedAt(a.s, b.s, parent, child, v, true);
    MapsToFacts(a, Key(parent, v));
    assert Key(child, v) in ForkKeys(Alpha(a).spaces.Keys, parent, child);
  }

  /** A mapping that failed for want of a table page changes nothing that anybody sees. */
  lemma FailedIsNothing(a: World, b: World)
    requires CowInv(a) && Inv(b.s) && b.shm == a.shm && Took(a.s, b.s)
    ensures CowInv(b) && Alpha(b) == Alpha(a)
  {
    hide Good, Exact, Listed, Full, Loose;
    assert forall key: Key, p: nat :: MapsTo(b.s, key, p) == MapsTo(a.s, key, p);
    FailedLooksSame(a, b);
  }

  lemma FailedLooksSame(a: World, b: World)
    requires CowInv(a) && Inv(b.s) && b.shm == a.shm && Took(a.s, b.s)
    ensures Alpha(b) == Alpha(a)
  {
    hide Good, Exact, Listed, Full, Loose, WritableAlone, ShmMarked, CowMarked;
    forall key | key in a.s.t.maps ensures a.s.t.maps[key].Entry? && a.s.t.maps[key].ppn < |a.s.ref| && a.s.t.maps[key].ppn !in a.s.free {
      MappedIsCounted(a.s, key);
    }
    forall p | p in a.shm ensures p < |a.s.ref| && p !in a.s.free {
      ShmFacts(a, p);
    }
  }

  /** A write to a page that nobody sees is no step at all. */
  lemma StrayWriteRefines(a: World, page: nat, off: nat, data: seq<Byte>, b: World)
    requires CowInv(a) && Next(a, StrayWrite(page, off, data), b)
    ensures CowInv(b) && Alpha(b) == DeepStep(Alpha(a), StrayWrite(page, off, data))
  {
    hide Good, Exact, Listed, WritableAlone, ShmMarked, CowMarked;
    StrayKeeps(a, page, off, data, b);
    forall key | key in a.s.t.maps && Ordinary(a.s, key) ensures a.s.t.maps[key].ppn != page {
      assert MapsTo(a.s, key, a.s.t.maps[key].ppn);
    }
  }

  lemma StrayKeeps(a: World, page: nat, off: nat, data: seq<Byte>, b: World)
    requires CowInv(a) && Does(a, StrayWrite(page, off, data), b)
    ensures CowInv(b)
  {
    hide Good, Exact, Listed, WritableAlone, ShmMarked, CowMarked;
    StoreKeeps(a, b);
  }

  /** Writing to a page by its number shows nobody anything, whatever is written, exactly if no process has the page. */
  lemma StrayIff(a: World, page: nat, off: nat)
    requires CowInv(a) && page < |a.s.bytes| && off < PAGE_SIZE
    ensures (forall v: Byte, b: World :: Does(a, StrayWrite(page, off, [v]), b) ==> Alpha(b) == Alpha(a)) <==> Unseen(a, page)
  {
    hide CowInv, Alpha, Written, Put;
    if Unseen(a, page) {
      forall v: Byte, b: World | Does(a, StrayWrite(page, off, [v]), b) ensures Alpha(b) == Alpha(a) {
        StrayWriteRefines(a, page, off, [v], b);
      }
    } else {
      PageFull(a, page);
      var v: Byte := if a.s.bytes[page][off] == 0 then 1 else 0;
      StrayDoes(a, page, off, v);
      StraySeen(a, page, off, v);
      assert Does(a, StrayWrite(page, off, [v]), World(Written(a.s, page, off, [v]), a.shm));
    }
  }

  lemma StrayDoes(a: World, page: nat, off: nat, v: Byte)
    requires CowInv(a) && page < |a.s.bytes| && off < PAGE_SIZE
    ensures Does(a, StrayWrite(page, off, [v]), World(Written(a.s, page, off, [v]), a.shm))
  {
    hide Good, Exact, WritableAlone, ShmMarked, CowMarked;
  }

  lemma PageFull(a: World, page: nat)
    requires CowInv(a) && page < |a.s.bytes|
    ensures |a.s.bytes[page]| == PAGE_SIZE
  {
    hide Good, Exact, WritableAlone, ShmMarked, CowMarked;
  }

  lemma StraySeen(a: World, page: nat, off: nat, v: Byte)
    requires CowInv(a) && !Unseen(a, page) && page < |a.s.bytes| && off < |a.s.bytes[page]| && v != a.s.bytes[page][off]
    ensures Alpha(World(Written(a.s, page, off, [v]), a.shm)) != Alpha(a)
  {
    hide Inv, WritableAlone, CowMarked;
    var b := World(Written(a.s, page, off, [v]), a.shm);
    assert Put(a.s.bytes[page], off, [v])[off] == v;
    if page in a.shm {
      assert Alpha(b).shm[page] != Alpha(a).shm[page];
    } else {
      var key: Key :| MapsTo(a.s, key, page) && !Special(key.v);
      assert Ordinary(a.s, key) && Ordinary(b.s, key);
      AlphaAt(a, key);
      AlphaAt(b, key);
    }
  }

  lemma MapFailedRefines(a: World, b: World)
    requires CowInv(a) && Next(a, MapFailed, b)
    ensures CowInv(b) && Alpha(b) == DeepStep(Alpha(a), MapFailed)
  {
    hide CowInv, Alpha, Took;
    FailedParts(a, b);
    FailedIsNothing(a, b);
  }

  lemma FailedParts(a: World, b: World)
    requires Next(a, MapFailed, b)
    ensures Inv(b.s) && b.shm == a.shm && Took(a.s, b.s)
  {
  }

  /** Every step of the kernel keeps the invariant and is the same step of the deep-copy memory. */
  lemma StepRefines(a: World, st: Step, b: World)
    requires CowInv(a) && Next(a, st, b)
    ensures CowInv(b) && Alpha(b) == DeepStep(Alpha(a), st)
  {
    hide CowInv, Next, DeepStep;
    match st {
      case Fork(parent, child, lost) => ForkRefines(a, parent, child, lost, b);
      case CowFault(at) => CowFaultRefines(a, at, b);
      case Store(at, off, data) => StoreRefines(a, at, off, data, b);
      case Load(at, content) => LoadRefines(a, at, content, b);
      case Unmap(at) => UnmapRefines(a, at, b);
      case Exit(root) => ExitRefines(a, root, b);
      case ShmAlloc(id, content) => ShmAllocRefines(a, id, content, b);
      case ShmAt(at, id) => ShmAtRefines(a, at, id, b);
      case NewSpace(root) => NewSpaceRefines(a, root, b);
      case KernelPage(page) => KernelPageRefines(a, page, b);
      case MapSpecial(at, page) => MapSpecialRefines(a, at, page, b);
      case KernelWrite(at, off, data) => KernelWriteRefines(a, at, off, data, b);
      case StrayWrite(page, off, data) => StrayWriteRefines(a, page, off, data, b);
      case MapFailed => MapFailedRefines(a, b);
    }
  }

  ghost predicate IsRun(run: seq<World>, steps: seq<Step>) {
    |run| == |steps| + 1 && forall i :: 0 <= i < |steps| ==> Next(run[i], steps[i], run[i + 1])
  }

  function DeepRun(d: Deep, steps: seq<Step>): Deep {
    if steps == [] then d else DeepStep(DeepRun(d, steps[..|steps| - 1]), steps[|steps| - 1])
  }

  /** Over any run, the kernel's memory stands for what deep copying would have produced. */
  lemma {:induction false} RunRefines(run: seq<World>, steps: seq<Step>)
    requires IsRun(run, steps) && CowInv(run[0])
    ensures CowInv(run[|steps|]) && Alpha(run[|steps|]) == DeepRun(Alpha(run[0]), steps)
  {
    hide CowInv, Next, DeepStep, Alpha;
    var n := |steps|;
    if n > 0 {
      RunRefines(run[..n], steps[..n - 1]);
      assert run[..n][n - 1] == run[n - 1];
      StepRefines(run[n - 1], steps[n - 1], run[n]);
    }
  }

  lemma CowParts(w: World)
    requires CowInv(w)
    ensures Inv(w.s) && w.s.t.dead == {}
  {
  }

  /** run is what the kernel went through with steps, from a to b. */
  ghost predicate Went(run: seq<World>, steps: seq<Step>, a: World, b: World) {
    IsRun(run, steps) && run[0] == a && run[|steps|] == b
  }

  lemma WentNowhere(a: World)
    ensures Went([a], [], a, a) && Traced([a], [], a, a)
  {
  }

  lemma WentOn(run: seq<World>, steps: seq<Step>, a: World, b: World, st: Step, c: World)
    requires Went(run, steps, a, b) && Next(b, st, c)
    ensures Went(run + [c], steps + [st], a, c)
  {
    hide Next;
  }

  /** The same of steps that need not be ones of the deep-copy memory. */
  ghost predicate Traced(run: seq<World>, steps: seq<Step>, a: World, b: World) {
    && |run| == |steps| + 1 && run[0] == a && run[|steps|] == b
    && forall i :: 0 <= i < |steps| ==> Does(run[i], steps[i], run[i + 1])
  }

  lemma TracedOn(run: seq<World>, steps: seq<Step>, a: World, b: World, st: Step, c: World)
    requires Traced(run, steps, a, b) && Does(b, st, c)
    ensures Traced(run + [c], steps + [st], a, c)
    ensures Went(run, steps, a, b) && Next(b, st, c) ==> Went(run + [c], steps + [st], a, c)
  {
    hide Does;
    if Went(run, steps, a, b) && Next(b, st, c) {
      WentOn(run, steps, a, b, st, c);
    }
  }

  /** From the memory that freePageInit leaves, every run builds what deep copying would have built. */
  lemma BootRuns(s: State, run: seq<World>, steps: seq<Step>)
    requires Inv(s) && s.t.maps == map[] && s.t.dead == {}
    requires IsRun(run, steps) && run[0] == World(s, {})
    ensures CowInv(run[|steps|]) && Alpha(run[|steps|]) == DeepRun(Deep(map[], map[]), steps)
  {
    hide Next, DeepStep, Inv;
    BootInv(s);
    RunRefines(run, steps);
    assert Alpha(run[0]) == Deep(map[], map[]);
  }

  /** The space whose private pages a step may change. */
  function Actor(st: Step): Option<nat> {
    match st {
      case Fork(_, child, _) => Some(child)
      case CowFault(_) => None
      case Store(at, _, _) => Some(at.root)
      case Load(at, _) => Some(at.root)
      case Unmap(at) => Some(at.root)
      case Exit(root) => Some(root)
      case ShmAlloc(_, _) => None
      case ShmAt(at, _) => Some(at.root)
      case NewSpace(_) => None
      case KernelPage(_) => None
      case MapSpecial(_, _) => None
      case StrayWrite(_, _, _) => None
      case MapFailed => None
      case KernelWrite(at, _, _) => Some(at.root)
    }
  }

  lemma {:induction false} DeepIsolation(d: Deep, steps: seq<Step>, key: Key)
    requires forall i :: 0 <= i < |steps| ==> Actor(steps[i]) != Some(key.root)
    ensures key in DeepRun(d, steps).spaces <==> key in d.spaces
    ensures key in d.spaces && key in DeepRun(d, steps).spaces ==> DeepRun(d, steps).spaces[key] == d.spaces[key]
  {
    hide DeepStep;
    if steps != [] {
      var n := |steps| - 1;
      DeepIsolation(d, steps[..n], key);
      StepIsolation(DeepRun(d, steps[..n]), steps[n], key);
    }
  }

  lemma StepIsolation(d: Deep, st: Step, key: Key)
    requires Actor(st) != Some(key.root)
    ensures key in DeepStep(d, st).spaces <==> key in d.spaces
    ensures key in d.spaces && key in DeepStep(d, st).spaces ==> DeepStep(d, st).spaces[key] == d.spaces[key]
  {
  }

  /**
   Whatever other spaces do, forks of this one included, every private page of a space keeps
   its bytes and every shared one its identity.
   */
  lemma Isolation(run: seq<World>, steps: seq<Step>, key: Key)
    requires IsRun(run, steps) && CowInv(run[0])
    requires forall i :: 0 <= i < |steps| ==> Actor(steps[i]) != Some(key.root)
    ensures Ordinary(run[0].s, key) <==> Ordinary(run[|steps|].s, key)
    ensures Ordinary(run[0].s, key) && Ordinary(run[|steps|].s, key) ==> ObjAt(run[|steps|], key) == ObjAt(run[0], key)
  {
    hide CowInv, Next, DeepStep, Ordinary, ObjAt;
    RunRefines(run, steps);
    DeepIsolation(Alpha(run[0]), steps, key);
    AlphaAt(run[0], key);
    AlphaAt(run[|steps|], key);
  }

  lemma AlphaAt(w: World, key: Key)
    ensures Ordinary(w.s, key) <==> key in Alpha(w).spaces
    ensures Ordinary(w.s, key) ==> Alpha(w).spaces[key] == ObjAt(w, key)
  {
  }

  // ----- the trampoline and the trap frame over runs --------------------------------------

  /** Step st is about position key itself, or ends its space. */
  predicate About(st: Step, key: Key) {
    match st {
      case Load(at, _) => at == key
      case Unmap(at) => at == key
      case MapSpecial(at, _) => at == key
      case Exit(root) => root == key.root
      case _ => false
    }
  }

  ghost predicate Unmarked(s: State, key: Key) {
    key in s.t.maps && s.t.maps[key].Entry? ==> !s.t.maps[key].perm.cow
  }

  /** No step marks an unmarked entry of the top two pages copy-on-write; and one that is not about the entry leaves it as it is. */
  lemma TrapPageStep(a: World, st: Step, b: World, key: Key)
    requires Next(a, st, b) && !NotTrapPage(key.v) && Unmarked(a.s, key) && Inv(a.s)
    ensures Unmarked(b.s, key)
    ensures !About(st, key) ==> SameAt(a.s, b.s, key)
  {
    hide Inv, Forked, Cleared, CowBroken, Inserted, Removed, Loaded, Kept, Took, StaysHere, Unseen, Served;
    match st {
      case Fork(parent, child, lost) => ForkIs(a.s, b.s, parent, child, lost); assert key.v == VPage(255, 511, key.v.k) && key.v.k >= 510;
      case CowFault(at) => FaultElsewhere(a.s, b.s, at, key);
      case Load(at, content) => LoadElsewhere(a.s, b.s, at, content, key);
      case Unmap(at) => RemovedElsewhere(a.s, b.s, at, key);
      case Exit(root) => ClearedElsewhere(a.s, b.s, root, key);
      case ShmAt(at, id) => InsertedElsewhere(a.s, b.s, at, b.s.t.maps[at], key);
      case MapSpecial(at, page) => InsertedElsewhere(a.s, b.s, at, b.s.t.maps[at], key);
      case MapFailed => TookElsewhere(a.s, b.s, key);
      case _ =>
    }
  }

  lemma FaultElsewhere(a: State, b: State, at: Key, key: Key)
    requires CowBroken(a, b, at) && a.t.maps[at].perm.cow && Unmarked(a, key)
    ensures Unmarked(b, key) && SameAt(a, b, key)
  {
    hide Loose;
  }

  lemma LoadElsewhere(a: State, b: State, at: Key, content: Content, key: Key)
    requires Loaded(a, b, at, content) && Unmarked(a, key)
    ensures Unmarked(b, key) && (at != key ==> SameAt(a, b, key))
  {
  }

  lemma RemovedElsewhere(a: State, b: State, at: Key, key: Key)
    requires Removed(a, b, at) && Unmarked(a, key)
    ensures Unmarked(b, key) && (at != key ==> SameAt(a, b, key))
  {
    hide Loose;
  }

  lemma ClearedElsewhere(a: State, b: State, root: nat, key: Key)
    requires Cleared(a, b, root, 0, ALL_PAGES) && Unmarked(a, key)
    ensures Unmarked(b, key) && (root != key.root ==> SameAt(a, b, key))
  {
    hide Loose, Users;
    assert 0 <= Rank(key.v) < ALL_PAGES;
  }

  lemma InsertedElsewhere(a: State, b: State, at: Key, e: Pte, key: Key)
    requires Inserted(a, b, at, e) && Unmarked(a, key)
    ensures e.Entry? && !e.perm.cow ==> Unmarked(b, key)
    ensures at != key ==> SameAt(a, b, key)
  {
    hide Loose;
  }

  lemma TookElsewhere(a: State, b: State, key: Key)
    requires Took(a, b) && Unmarked(a, key)
    ensures Unmarked(b, key) && SameAt(a, b, key)
  {
    hide Loose;
  }

  /**
   Over any run the entries at the trampoline and the trap frame of any space are never marked
   copy-on-write; and one that no step is about stays exactly as it is, its write bit included,
   however often its space is forked.
   */
  lemma {:induction false} TrapPagesRun(run: seq<World>, steps: seq<Step>, key: Key)
    requires IsRun(run, steps) && CowInv(run[0]) && !NotTrapPage(key.v) && Unmarked(run[0].s, key)
    ensures Unmarked(run[|steps|].s, key)
    ensures (forall i :: 0 <= i < |steps| ==> !About(steps[i], key)) ==> SameAt(run[0].s, run[|steps|].s, key)
  {
    hide CowInv, Next, Alpha, DeepStep, DeepRun, Unmarked, NotTrapPage, About;
    var n := |steps|;
    if n > 0 {
      TrapPagesRun(run[..n], steps[..n - 1], key);
      RunRefines(run[..n], steps[..n - 1]);
      assert run[..n][n - 1] == run[n - 1];
      CowParts(run[n - 1]);
      TrapPageStep(run[n - 1], steps[n - 1], run[n], key);
    }
  }

  /** So it is from boot, in every space and without any assumption. */
  lemma TrapPagesFromBoot(s: State, run: seq<World>, steps: seq<Step>, root: nat, k: Idx)
    requires Inv(s) && s.t.maps == map[] && s.t.dead == {} && k >= 510
    requires IsRun(run, steps) && run[0] == World(s, {})
    ensures Unmarked(run[|steps|].s, Key(root, VPage(255, 511, k)))
  {
    hide Next, Inv;
    BootInv(s);
    TrapPagesRun(run, steps, Key(root, VPage(255, 511, k)));
  }

  // ----- kernel writes into user memory ------------------------------------------------

  /** copyout reaches any mapped user page, write bit or not; one byte of what it does. */
  ghost function CopiedOut(a: World, at: Key, off: nat, v: Byte): World
    requires Ordinary(a.s, at)
  {
    World(Written(a.s, a.s.t.maps[at].ppn, off, [v]), a.shm)
  }

  lemma SoleUser(a: World, at: Key)
    requires CowInv(a) && Ordinary(a.s, at) && !a.s.t.maps[at].perm.shm
    ensures var p := a.s.t.maps[at].ppn;
            p < |a.s.ref| && a.s.ref[p] == |Users(a.s.t.maps, p)| && at in Users(a.s.t.maps, p)
  {
    hide Good, Listed, WritableAlone, CowMarked;
    MapsToFacts(a, at);
    MappedIsCounted(a.s, at);
  }

  lemma OnlyOne(users: set<Key>, at: Key)
    requires at in users
    ensures |users| == 1 <==> users == {at}
  {
    assert |users - {at}| == |users| - 1;
    assert users == (users - {at}) + {at};
  }

  lemma WriteSharedSeen(a: World, at: Key, other: Key, off: nat, v: Byte)
    requires CowInv(a) && Ordinary(a.s, at) && off < PAGE_SIZE && other != at
    requires !a.s.t.maps[at].perm.shm && other in Users(a.s.t.maps, a.s.t.maps[at].ppn)
    requires off < |a.s.bytes[a.s.t.maps[at].ppn]| && v != a.s.bytes[a.s.t.maps[at].ppn][off]
    ensures Alpha(CopiedOut(a, at, off, v)) != DeepStep(Alpha(a), Store(at, off, [v]))
  {
    hide Good, Exact, Listed, CowMarked;
    MapsToFacts(a, at);
    var p := a.s.t.maps[at].ppn;
    assert MapsTo(a.s, at, p) && MapsTo(a.s, other, p);
    var b := CopiedOut(a, at, off, v);
    AlphaAt(a, other);
    AlphaAt(b, other);
    assert b.s.bytes[p][off] == v;
    assert ObjAt(b, other) != ObjAt(a, other);
    assert DeepStep(Alpha(a), Store(at, off, [v])).spaces[other] == Alpha(a).spaces[other];
  }

  /**
   copyout ignores the write bit. Writing to a page that is not marked copy-on-write stays inside
   its own space exactly when the page is shared memory or has a single reference: a read-only
   page that fork has shared is written for both processes.
   */
  lemma CopyoutIff(a: World, at: Key, off: nat)
    requires CowInv(a) && Ordinary(a.s, at) && off < PAGE_SIZE
    ensures a.s.t.maps[at].ppn < |a.s.ref|
    ensures (forall v: Byte :: Alpha(CopiedOut(a, at, off, v)) == DeepStep(Alpha(a), Store(at, off, [v])))
            <==> a.s.t.maps[at].perm.shm || a.s.ref[a.s.t.maps[at].ppn] == 1
  {
    hide CowInv, Alpha, DeepStep, Users;
    MapsToFacts(a, at);
    MappedIn(a, at);
    var p := a.s.t.maps[at].ppn;
    if !a.s.t.maps[at].perm.shm {
      SoleUser(a, at);
      OnlyOne(Users(a.s.t.maps, p), at);
    }
    if a.s.t.maps[at].perm.shm || a.s.ref[p] == 1 {
      forall v: Byte ensures Alpha(CopiedOut(a, at, off, v)) == DeepStep(Alpha(a), Store(at, off, [v])) {
        WriteAloneRefines(a, at, off, [v]);
      }
    } else {
      var other :| other in Users(a.s.t.maps, p) && other != at;
      var v: Byte := if a.s.bytes[p][off] == 0 then 1 else 0;
      WriteSharedSeen(a, at, other, off, v);
    }
  }

  /** As steps: a kernel write is one of the deep-copy memory, whatever it writes, exactly if it stays here. */
  lemma KernelWriteIff(a: World, at: Key, off: nat)
    requires CowInv(a) && Ordinary(a.s, at) && off < PAGE_SIZE
    ensures (forall v: Byte, b: World :: Does(a, KernelWrite(at, off, [v]), b) ==>
               CowInv(b) && Alpha(b) == DeepStep(Alpha(a), KernelWrite(at, off, [v])))
            <==> StaysHere(a.s, at)
  {
    hide CowInv, Alpha, DeepStore, Written, Put;
    MappedIn(a, at);
    if StaysHere(a.s, at) {
      forall v: Byte, b: World | Does(a, KernelWrite(at, off, [v]), b)
        ensures CowInv(b) && Alpha(b) == DeepStep(Alpha(a), KernelWrite(at, off, [v]))
      {
        KernelWriteRefines(a, at, off, [v], b);
      }
    } else {
      CopyoutIff(a, at, off);
      var v: Byte :| Alpha(CopiedOut(a, at, off, v)) != DeepStep(Alpha(a), Store(at, off, [v]));
      WrittenDoes(a, at, off, v);
      assert Does(a, KernelWrite(at, off, [v]), CopiedOut(a, at, off, v));
    }
  }

  lemma WrittenDoes(a: World, at: Key, off: nat, v: Byte)
    requires CowInv(a) && Ordinary(a.s, at) && off < PAGE_SIZE
    ensures Does(a, KernelWrite(at, off, [v]), CopiedOut(a, at, off, v))
  {
    hide Good, Exact, WritableAlone, ShmMarked, CowMarked;
  }

  lemma MappedIn(a: World, at: Key)
    requires CowInv(a) && at in a.s.t.maps
    ensures a.s.t.maps[at].Entry? && a.s.t.maps[at].ppn < |a.s.ref|
  {
    hide Good, WritableAlone, ShmMarked, CowMarked;
    MappedIsCounted(a.s, at);
  }

  /**
   memsetOut stores through the address that cowHandler returns, which is the old page's: the
   space itself does not see the store, and every other position that shared the page does.
   */
  lemma MemsetOutOnCowPage(a: World, at: Key, b: World, off: nat, v: Byte, other: Key)
    requires CowInv(a) && Next(a, CowFault(at), b) && Ordinary(a.s, at) && off < PAGE_SIZE
    requires off < |a.s.bytes[a.s.t.maps[at].ppn]| && v != a.s.bytes[a.s.t.maps[at].ppn][off]
    ensures var p := a.s.t.maps[at].ppn;
            var c := World(Written(b.s, p, off, [v]), b.shm);
            && Ordinary(c.s, at) && ObjAt(c, at) == ObjAt(a, at)
            && (other in Users(a.s.t.maps, p) && other != at ==> Ordinary(c.s, other) && ObjAt(c, other) != ObjAt(a, other))
            && Alpha(c) != DeepStep(Alpha(a), Store(at, off, [v]))
  {
    hide Good, Exact, Listed;
    MapsToFacts(a, at);
    var p := a.s.t.maps[at].ppn;
    var c := World(Written(b.s, p, off, [v]), b.shm);
    assert MapsTo(a.s, at, p);
    AlphaAt(c, at);
    AlphaAt(a, at);
    assert p != b.s.t.maps[at].ppn;
    assert ObjAt(c, at) == ObjAt(a, at);
    assert Put(a.s.bytes[p], off, [v])[off] == v;
    if other in Users(a.s.t.maps, p) && other != at {
      assert MapsTo(a.s, other, p);
      assert c.s.bytes[p][off] == v;
    }
  }

  /** One byte of memsetOut at a mapped page; c is the memory after cowHandler, if the page was marked. */
  ghost function MemsetByte(a: World, c: World, at: Key, off: nat, v: Byte): World
    requires Ordinary(a.s, at) && |c.s.bytes| == |a.s.bytes|
  {
    if a.s.t.maps[at].perm.cow then World(Written(c.s, a.s.t.maps[at].ppn, off, [v]), c.shm) else CopiedOut(a, at, off, v)
  }

  /** memsetOut writes what it should, and nothing else, exactly at a page that is not marked and where a write stays here. */
  lemma MemsetOutIff(a: World, c: World, at: Key, off: nat)
    requires CowInv(a) && Ordinary(a.s, at) && off < PAGE_SIZE && |c.s.bytes| == |a.s.bytes|
    requires a.s.t.maps[at].perm.cow ==> Next(a, CowFault(at), c)
    ensures (forall v: Byte :: Alpha(MemsetByte(a, c, at, off, v)) == DeepStep(Alpha(a), KernelWrite(at, off, [v])))
            <==> !a.s.t.maps[at].perm.cow && StaysHere(a.s, at)
  {
    hide CowInv, Alpha, DeepStore, Next, Written;
    MapsToFacts(a, at);
    MappedIn(a, at);
    if a.s.t.maps[at].perm.cow {
      var v: Byte := if a.s.bytes[a.s.t.maps[at].ppn][off] == 0 then 1 else 0;
      MemsetOutOnCowPage(a, at, c, off, v, at);
      assert Alpha(MemsetByte(a, c, at, off, v)) != DeepStep(Alpha(a), KernelWrite(at, off, [v]));
    } else {
      CopyoutIff(a, at, off);
      assert forall v: Byte :: MemsetByte(a, c, at, off, v) == CopiedOut(a, at, off, v);
      assert forall v: Byte :: DeepStep(Alpha(a), KernelWrite(at, off, [v])) == DeepStep(Alpha(a), Store(at, off, [v]));
    }
  }

  /** The memory that freePageInit leaves satisfies the invariant. */
  lemma BootInv(s: State)
    requires Inv(s) && s.t.maps == map[] && s.t.dead == {}
    ensures CowInv(World(s, {}))
  {
  }
}
