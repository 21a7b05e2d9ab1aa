/**
 kernel/memory/memory.c as methods over the kernel's own arrays: the page-table entries, the page
 contents, pages[].ref and the free list.
 */
module KernelMemory {
  import opened PageTables
  import opened PhysicalMemory
  import opened TableSpots

  /** VAPPN(va, level), from the page's three fields. */
  function Field(v: VPage, level: int): Idx
    requires 0 <= level <= 2
  {
    if level == 2 then v.i else if level == 1 then v.j else v.k
  }

  /** Where the walk to `key` stands before it reads the entry of the given level. */
  ghost predicate OnPath(t: Tables, key: Key, level: int, f: nat)
    requires Shape(t)
  {
    && key.root in t.place && t.place[key.root].Root? && f in t.place && Alive(t, key)
    && match level {
      case 2 => f == key.root
      case 1 => t.place[f] == Mid(key.root, key.v.i) && t.table[key.root][key.v.i].Entry?
                && t.table[key.root][key.v.i].ppn == f
      case _ => LowOf(t, key) == Some(f)
    }
  }

  function MissingFrom(t: Tables, key: Key, level: int, f: nat): nat
    requires Shape(t) && key.root in t.place && f in t.place
  {
    if level == 2 then Missing(t, key)
    else if level == 1 && t.table[f][key.v.j].Empty? then 1 else 0
  }

  lemma StepDown(t: Tables, key: Key, level: int, f: nat)
    requires Good(t) && 1 <= level <= 2 && OnPath(t, key, level, f)
    ensures t.table[f][Field(key.v, level)].Empty? ==>
      LowOf(t, key) == None && MissingFrom(t, key, level, f) > 0
    ensures t.table[f][Field(key.v, level)].Entry? ==>
      var g := t.table[f][Field(key.v, level)].ppn;
      OnPath(t, key, level - 1, g) && MissingFrom(t, key, level, f) == MissingFrom(t, key, level - 1, g)
  {
  }

  lemma StepAfterLink(s: State, key: Key, level: int, f: nat, p: nat)
    requires Inv(s) && s.t.dead == {} && 1 <= level <= 2 && OnPath(s.t, key, level, f)
    requires s.t.table[f][Field(key.v, level)].Empty? && p !in s.t.place && p < |s.t.table|
    requires s.t.table[p] == ZeroTable()
    ensures var t := Link(s.t, f, Field(key.v, level), p);
            Shape(t) && OnPath(t, key, level, f)
            && MissingFrom(t, key, level, f) + 1 == MissingFrom(s.t, key, level, f)
  {
  }

  lemma WalkStart(s: State, key: Key)
    requires Inv(s) && Alive(s.t, key)
    ensures Shape(s.t) && OnPath(s.t, key, 2, key.root)
  {
  }

  lemma WalkEnd(t: Tables, key: Key, level: int, f: nat)
    requires Shape(t) && 0 <= level <= 2 && OnPath(t, key, level, f)
    ensures Alive(t, key) && (level == 0 ==> LowOf(t, key) == Some(f))
  {
  }

  lemma TookSelf(s: State)
    requires Inv(s)
    ensures Took(s, s)
  {
  }

  lemma InvParts(s: State, f: nat)
    requires Inv(s) && f in s.t.place
    ensures Good(s.t) && Shape(s.t) && f < |s.t.table|
  {
  }

  lemma StepAfterLinked(s: State, key: Key, level: int, f: nat)
    requires Inv(s) && s.t.dead == {} && 1 <= level <= 2 && OnPath(s.t, key, level, f)
    requires s.free != [] && s.t.table[f][Field(key.v, level)].Empty? && !s.t.place[f].Low?
    ensures Shape(Popped(s).t)
    ensures var n := Linked(Popped(s), f, Field(key.v, level), s.free[0]);
            Shape(n.t) && OnPath(n.t, key, level, f) && n.t.table[f][Field(key.v, level)].Entry?
            && MissingFrom(n.t, key, level, f) + 1 == MissingFrom(s.t, key, level, f)
  {
    hide Exact;
    FreeIsUnused(s, s.free[0]);
    PoppedInv(s);
    PopKeepsPath(s, key, level, f);
    StepAfterLink(Popped(s), key, level, f, s.free[0]);
  }

  lemma PopKeepsPath(s: State, key: Key, level: int, f: nat)
    requires s.free != [] && s.free[0] < |s.t.table| && s.free[0] < |s.bytes| && s.free[0] !in s.t.place
    requires Good(s.t) && Inv(Popped(s)) && 1 <= level <= 2 && OnPath(s.t, key, level, f)
    ensures OnPath(Popped(s).t, key, level, f) && Popped(s).t.table[f] == s.t.table[f]
    ensures MissingFrom(Popped(s).t, key, level, f) == MissingFrom(s.t, key, level, f)
  {
  }

  /** pageRemove, seen from outside. */
  ghost predicate Removed(a: State, b: State, key: Key) {
    && key in a.t.maps && a.t.maps[key].Entry? && a.t.maps[key].ppn < |a.ref| && a.ref[a.t.maps[key].ppn] > 0
    && b.t.maps == a.t.maps - {key} && b.t.place == a.t.place && b.t.dead == a.t.dead
    && b.bytes == a.bytes && b.kernel == a.kernel && Loose(b) == Loose(a)
    && b.ref == Dropped(a, a.t.maps[key].ppn).ref && b.free == Dropped(a, a.t.maps[key].ppn).free
  }

  lemma RemovedBy(s: State, f: nat, key: Key)
    requires Inv(s) && key in s.t.maps && LowOf(s.t, key) == Some(f)
    ensures s.t.table[f][key.v.k] == s.t.maps[key] && s.t.maps[key].ppn < |s.ref| && s.ref[s.t.maps[key].ppn] > 0
    ensures Inv(Unmapped(s, f, key)) && Alive(Unmapped(s, f, key).t, key)
    ensures Removed(s, Unmapped(s, f, key), key)
    ensures LowOf(Unmapped(s, f, key).t, key) == Some(f)
  {
    hide Exact, Users, Flat;
    MapsAt(s.t, key);
    LowOfIsKeyOf(s.t, key);
    UnmappedInv(s, f, key);
    SetLeafKeepsWalk(s.t, f, key.v.k, Empty, key);
  }

  /** A mapped position already has its two lower tables. */
  lemma MappedHasTables(s: State, key: Key)
    requires Inv(s) && Alive(s.t, key)
    ensures LowOf(s.t, key).Some? ==> Missing(s.t, key) == 0
    ensures key in s.t.maps ==> LowOf(s.t, key).Some? && s.t.maps[key].Entry?
    ensures LowOf(s.t, key).Some? ==>
      var f := LowOf(s.t, key).value;
      f < |s.t.table| && |s.t.table[f]| == ENTRIES
      && s.t.table[f][key.v.k] == if key in s.t.maps then s.t.maps[key] else Empty
  {
    LookupIsMap(s.t, key);
  }

  lemma InPlace(s: State, f: nat, key: Key, perm: Perm)
    requires Inv(s) && Alive(s.t, key) && key in s.t.maps && LowOf(s.t, key) == Some(f)
    ensures s.t.maps[key].Entry? && f < |s.t.table| && |s.t.table[f]| == ENTRIES
    ensures var e := Entry(s.t.maps[key].ppn, perm);
            var n := State(SetLeaf(s.t, f, key.v.k, e, key), s.bytes, s.ref, s.free, s.kernel);
            Inv(n) && Alive(n.t, key) && Inserted(s, n, key, e)
  {
    hide Exact, Users;
    InsertedInPlace(s, f, key, perm);
    LowOfIsKeyOf(s.t, key);
    SetLeafKeepsWalk(s.t, f, key.v.k, Entry(s.t.maps[key].ppn, perm), key);
  }

  lemma NotTaken(u: State, w: State, p: nat)
    requires Took(u, w) && p !in u.free && p !in u.t.place
    ensures p !in w.free && p !in w.t.place && w.t.maps == u.t.maps && w.t.dead == u.t.dead && |w.ref| == |u.ref|
  {
  }

  lemma InsertedAfterRemoved(a: State, u: State, b: State, key: Key, e: Pte)
    requires Inv(a) && Removed(a, u, key) && Inserted(u, b, key, e)
    requires b.bytes == u.bytes && b.t.place == u.t.place
    ensures Inserted(a, b, key, e)
  {
    hide Good, Exact, Loose;
    MapsAt(a.t, key);
    assert u.t.maps[key := e] == a.t.maps[key := e];
  }

  lemma RootReady(s: State, key: Key)
    requires Inv(s) && s.t.dead == {} && key.root in s.t.place && s.t.place[key.root].Root?
    ensures Shape(s.t) && Alive(s.t, key) && Missing(s.t, key) <= 2
  {
  }

  /** A hollow table page leaves the forest and is listed as free. */
  ghost predicate Released(a: State, b: State, f: nat) {
    && f in a.t.place && f < |a.ref| && a.ref[f] == 1
    && b == State(Uproot(a.t, f), a.bytes, a.ref[f := 0], [f] + a.free, a.kernel)
    && Loose(b) == Loose(a)
  }

  lemma ReleasedInv(s: State, f: nat)
    requires Inv(s) && f in s.t.place && Hollow(s.t, f)
    ensures f < |s.ref| && s.ref[f] == 1 && f !in s.free
    ensures var n := State(Uproot(s.t, f), s.bytes, s.ref[f := 0], [f] + s.free, s.kernel);
            Inv(n) && Released(s, n, f)
  {
    hide Good;
    UprootGood(s.t, f);
    forall key | key in s.t.maps ensures s.t.maps[key].Entry? && s.t.maps[key].ppn != f {
      MappedIsCounted(s, key);
    }
    assert Users(s.t.maps, f) == {};
    assert s.ref[f] == 1;
  }

  lemma BlankInv(s: State)
    requires Sized(s) && Full(s) && s.t.place == map[] && s.t.maps == map[] && s.ref == s.kernel && Listed(s)
    requires forall f: nat :: f < |s.t.table| ==> |s.t.table[f]| == ENTRIES
    ensures Inv(s)
  {
    assert forall p :: Users(s.t.maps, p) == {};
  }

  lemma NothingMapped(s: State, root: nat)
    requires Inv(s) && root !in s.t.place
    ensures forall key: Key :: key.root == root ==> key !in s.t.maps
  {
    forall key | key in s.t.maps ensures key.root != root {
      MapsAt(s.t, key);
    }
  }

  /** A blank page that was handed out becomes a page directory. */
  lemma PlantedInv(s: State, p: nat)
    requires Inv(s) && p in Loose(s) && p < |s.t.table| && s.t.table[p] == ZeroTable()
    ensures p !in s.t.place && p < |s.ref| && s.ref[p] == 0
    ensures Inv(s.(t := s.t.(place := s.t.place[p := Root]), ref := s.ref[p := 1]))
  {
    hide Good, Users;
    FreeIsUnused(s, p);
    PlantGood(s.t, p);
  }

  /** A page that was handed out becomes the kernel's. */
  lemma KeptInv(s: State, p: nat)
    requires Inv(s) && p in Loose(s)
    ensures p < |s.ref| == |s.kernel| && s.ref[p] == 0 == s.kernel[p]
    ensures Inv(s.(ref := s.ref[p := 1], kernel := s.kernel[p := 1]))
  {
    hide Good, Users;
    FreeIsUnused(s, p);
  }

  /** Page p is mapped at key, and nowhere else, by nobody else. */
  ghost predicate OverItself(s: State, key: Key, p: nat) {
    key in s.t.maps && s.t.maps[key].Entry? && s.t.maps[key].ppn == p && p < |s.ref| && s.ref[p] == 1
  }

  /** p is mapped and at the head of the free list at once. */
  ghost predicate MappedFree(a: State, b: State, key: Key, p: nat, perm: Perm) {
    b.free == [p] + a.free && b.t.maps == a.t.maps[key := Entry(p, perm)]
  }

  /** Removing the mapping lists the page exactly if it had no other reference. */
  lemma ListedAgain(a: State, u: State, key: Key, p: nat)
    requires Inv(a) && Removed(a, u, key) && p !in a.free
    ensures p in u.free <==> OverItself(a, key, p)
    ensures OverItself(a, key, p) ==> u.free == [p] + a.free && u.t.maps == a.t.maps - {key}
  {
    hide Good, Exact, Loose, Users;
  }

  lemma TookSize(u: State, w: State)
    requires Took(u, w)
    ensures |w.ref| == |u.ref|
  {
  }

  lemma LeafReady(w: State, key: Key, low: nat)
    requires Inv(w) && Alive(w.t, key) && LowOf(w.t, key) == Some(low)
    ensures low < |w.t.table| && |w.t.table[low]| == ENTRIES
  {
    hide Exact;
    InvParts(w, low);
  }

  lemma LeafStored(w: State, low: nat, key: Key, p: nat, perm: Perm)
    requires Inv(w) && Alive(w.t, key) && key !in w.t.maps && LowOf(w.t, key) == Some(low)
    requires p < |w.ref| && p !in w.t.place && p !in w.free && low < |w.t.table| && |w.t.table[low]| == ENTRIES
    ensures Inv(Mapped(w, low, key, p, perm)) && Loose(Mapped(w, low, key, p, perm)) == Loose(w) - {p}
    ensures Alive(Mapped(w, low, key, p, perm).t, key)
  {
    hide Good, Exact, Users;
    MappedInv(w, low, key, p, perm);
    LowOfIsKeyOf(w.t, key);
    SetLeafKeepsWalk(w.t, low, key.v.k, Entry(p, perm), key);
  }

  lemma ListedIsBroken(w: State, low: nat, key: Key, p: nat, perm: Perm)
    requires Inv(w) && p in w.free && low < |w.t.table| && |w.t.table[low]| == ENTRIES && p < |w.ref|
    ensures !Inv(Mapped(w, low, key, p, perm))
  {
    hide Good, Exact;
    var n := Mapped(w, low, key, p, perm);
    var i :| 0 <= i < |w.free| && w.free[i] == p;
    assert n.ref[n.free[i]] != 0;
  }

  lemma TowardSelf(t: Tables, key: Key)
    ensures Toward(t, t, key)
  {
  }

  lemma TowardPlace(a: Tables, b: Tables, c: Tables, key: Key)
    requires Toward(a, b, key) && c.place == b.place
    ensures Toward(a, c, key)
  {
  }

  /** The page that a creating walk adds hangs on its way. */
  lemma TowardLink(a: Tables, s: State, key: Key, level: int, f: nat)
    requires Inv(s) && s.t.dead == {} && 1 <= level <= 2 && OnPath(s.t, key, level, f) && Toward(a, s.t, key)
    requires s.free != [] && s.t.table[f][Field(key.v, level)].Empty? && !s.t.place[f].Low?
    ensures Shape(Popped(s).t) && s.free[0] < |s.ref|
    ensures Toward(a, Linked(Popped(s), f, Field(key.v, level), s.free[0]).t, key)
  {
    hide Exact, Down, Up, Flat, LowOf, Alive;
    FreeIsUnused(s, s.free[0]);
    PoppedInv(s);
    var n := Linked(Popped(s), f, Field(key.v, level), s.free[0]).t;
    assert n.place == s.t.place[s.free[0] := ChildOf(s.t.place[f], f, Field(key.v, level))];
    forall p: nat | p in n.place && p !in a.place
      ensures Sits(n.place, key.root, MidSpot(key.v.i), p) || Sits(n.place, key.root, LowSpot(key.v.i, key.v.j), p)
    {
      if p != s.free[0] {
        assert Sits(s.t.place, key.root, MidSpot(key.v.i), p) || Sits(s.t.place, key.root, LowSpot(key.v.i, key.v.j), p);
      }
    }
  }

  /** Removing the mapping at key lists its page if nothing else counts it. */
  function Frees(s: State, key: Key): nat {
    if key in s.t.maps && s.t.maps[key].Entry? && s.t.maps[key].ppn < |s.ref| && s.ref[s.t.maps[key].ppn] == 1 then 1 else 0
  }

  function AccessedDirty(p: Perm): Perm {
    p.(a := true, d := true)
  }

  class Memory {
    var table: seq<seq<Pte>>
    var bytes: seq<seq<Byte>>
    var ref: seq<nat>
    var free: seq<nat>

    ghost var place: map<nat, Place>
    ghost var maps: map<Key, Pte>
    ghost var dead: set<(nat, Idx)>
    ghost var kernel: seq<nat>

    ghost function T(): Tables
      reads this
    {
      Tables(table, place, maps, dead)
    }

    ghost function View(): State
      reads this
    {
      State(T(), bytes, ref, free, kernel)
    }

    ghost predicate Valid()
      reads this
    {
      Inv(View())
    }

    /** freePageInit: the kernel image keeps its pages, the others are listed highest first. */
    constructor (pageNum: nat, kernelPages: nat)
      requires kernelPages <= pageNum
      ensures Valid() && place == map[] && maps == map[] && dead == {} && |ref| == pageNum
      ensures kernel == seq(pageNum, (p: nat) => if p < kernelPages then 1 else 0)
      ensures |free| == pageNum - kernelPages && forall k :: 0 <= k < |free| ==> free[k] == pageNum - 1 - k
    {
      table := seq(pageNum, _ => ZeroTable());
      bytes := seq(pageNum, _ => ZeroPage());
      ref := seq(pageNum, _ => 0);
      free := [];
      place, maps, dead := map[], map[], {};
      kernel := seq(pageNum, (p: nat) => if p < kernelPages then 1 else 0);
      new;
      var i := 0;
      while i < kernelPages
        invariant 0 <= i <= kernelPages && |ref| == pageNum
        invariant forall p :: 0 <= p < pageNum ==> ref[p] == if p < i then 1 else 0
        modifies this`ref
      {
        ref := ref[i := 1];
        i := i + 1;
      }
      while i < pageNum
        invariant kernelPages <= i <= pageNum && |ref| == pageNum
        invariant forall p :: 0 <= p < pageNum ==> ref[p] == if p < kernelPages then 1 else 0
        invariant |free| == i - kernelPages && forall k :: 0 <= k < |free| ==> free[k] == i - 1 - k
        modifies this`ref, this`free
      {
        ref := ref[i := 0];
        free := [i] + free;
        i := i + 1;
      }
      BlankInv(View());
    }

    /** Take the first free page and clear it; `ref` is left alone. */
    method PageAlloc() returns (ok: bool, p: nat)
      requires Valid()
      modifies this
      ensures Valid() && ok == (old(free) != [])
      ensures !ok ==> View() == old(View())
      ensures ok ==> p == old(free)[0] && View() == Popped(old(View()))
      ensures ok ==> free == old(free)[1..] && ref == old(ref) && p < |old(table)| == |old(bytes)|
      ensures ok ==> table == old(table)[p := table[p]] && |table[p]| == 512 && forall i :: 0 <= i < 512 ==> table[p][i] == Empty
      ensures ok ==> bytes == old(bytes)[p := bytes[p]] && |bytes[p]| == 4096 && forall i :: 0 <= i < 4096 ==> bytes[p][i] == 0
    {
      if free == [] {
        return false, 0;
      }
      PoppedInv(View());
      p := free[0];
      free := free[1..];
      table := table[p := ZeroTable()];
      bytes := bytes[p := ZeroPage()];
      ok := true;
    }

    /** allocPgdir: a new address space, with nothing mapped. */
    method AllocPgdir() returns (ok: bool, root: nat)
      requires Valid()
      modifies this
      ensures Valid() && ok == (old(free) != [])
      ensures !ok ==> View() == old(View())
      ensures ok ==> root == old(free)[0] && root !in old(place) && place == old(place)[root := Root]
      ensures ok ==> maps == old(maps) && dead == old(dead) && kernel == old(kernel) && free == old(free)[1..]
      ensures ok ==> |bytes| == |old(bytes)| && forall p: nat :: p < |bytes| && p != root ==> bytes[p] == old(bytes)[p]
      ensures ok ==> forall key: Key :: key.root == root ==> key !in maps
    {
      hide Good, Exact;
      if free != [] {
        PoppedInv(View());
        FreeIsUnused(View(), free[0]);
        NothingMapped(View(), free[0]);
      }
      ok, root := PageAlloc();
      if ok {
        PlantedInv(View(), root);
        ref := ref[root := ref[root] + 1];
        place := place[root := Root];
      }
    }

    /** The `ref++` of pageInsert on the kernel's own page directory, for a page nothing maps yet. */
    method KernelKeep(p: nat)
      requires Valid() && p in Loose(View())
      modifies this`ref, this`kernel
      ensures p < |old(ref)| == |old(kernel)| && old(ref)[p] == 0 == old(kernel)[p]
      ensures Valid() && ref == old(ref)[p := 1] && kernel == old(kernel)[p := 1]
    {
      KeptInv(View(), p);
      ref := ref[p := ref[p] + 1];
      kernel := kernel[p := kernel[p] + 1];
    }

    /** The body of pageWalk's loop when an entry is missing and may be created. */
    method LinkNew(u: nat, i: Idx) returns (ok: bool)
      requires Valid() && dead == {} && u in place && !place[u].Low? && table[u][i].Empty?
      modifies this
      ensures Valid() && ok == (old(free) != [])
      ensures !ok ==> View() == old(View())
      ensures ok ==> Shape(Popped(old(View())).t) && old(free)[0] < |ref|
                     && View() == Linked(Popped(old(View())), u, i, old(free)[0]) && Took(old(View()), View())
      ensures ok ==> var p := old(free)[0];
                && p < |old(ref)| == |old(table)| && u < |old(table)| && i < |old(table)[u]| && free == old(free)[1..]
                && ref == old(ref)[p := old(ref)[p] + 1] && place == old(place)[p := if old(place)[u].Root? then Mid(u, i) else Low(u, i)]
                && table == old(table)[p := table[p]][u := old(table)[u][i := Entry(p, Perm(false, false, false, false, false, false, false, false))]]
                && p != u && |table[p]| == 512 && forall j :: 0 <= j < 512 ==> table[p][j] == Empty
    {
      hide Good, Exact, Took;
      if free != [] {
        PopAndLinkTook(View(), u, i);
        FreeIsUnused(View(), free[0]);
        InvParts(View(), u);
      }
      var p;
      ok, p := PageAlloc();
      if !ok {
        return;
      }
      ref := ref[p := ref[p] + 1];
      table := table[u := table[u][i := Entry(p, TABLE_PERM)]];
      place := place[p := ChildOf(place[u], u, i)];
    }

    /**
     pageWalk: `low` is the bottom-level table that holds the entry, or None for the NULL result.
     With `create`, missing tables are hung in; out of pages is the only failure.
     */
    method PageWalk(key: Key, create: bool) returns (ok: bool, low: Option<nat>)
      requires Valid() && Alive(T(), key) && (create ==> dead == {})
      modifies this
      ensures Valid() && Alive(T(), key)
      ensures !create ==> ok && View() == old(View()) && low == LowOf(T(), key)
      ensures create ==> Took(old(View()), View())
      ensures create ==> (ok <==> Missing(old(T()), key) <= |old(free)|)
      ensures create && ok ==> low.Some? && low == LowOf(T(), key)
                               && |free| == |old(free)| - Missing(old(T()), key)
      ensures create && !ok ==> free == [] && LowOf(T(), key) == None
      ensures create && Missing(old(T()), key) == 0 ==> View() == old(View())
      ensures Toward(old(T()), T(), key)
    {
      hide Inv, Took, Good, Alive, Missing, LowOf, Toward;
      var f := key.root;
      var level := 2;
      WalkStart(View(), key);
      TookSelf(View());
      TowardSelf(T(), key);
      while level >= 1
        invariant 0 <= level <= 2 && Valid() && Shape(T()) && (create ==> dead == {}) && OnPath(T(), key, level, f)
        invariant !create ==> View() == old(View())
        invariant create ==> Took(old(View()), View())
        invariant |old(free)| - Missing(old(T()), key) == |free| - MissingFrom(T(), key, level, f)
        invariant create && Missing(old(T()), key) == 0 ==> View() == old(View())
        invariant Toward(old(T()), T(), key)
      {
        var i := Field(key.v, level);
        InvParts(View(), f);
        StepDown(T(), key, level, f);
        if table[f][i].Empty? {
          if !create {
            return true, None;
          }
          ghost var before := View();
          var done := LinkNew(f, i);
          if !done {
            WalkEnd(T(), key, level, f);
            return false, None;
          }
          StepAfterLinked(before, key, level, f);
          TookTrans(old(View()), before, View());
          TowardLink(old(T()), before, key, level, f);
          InvParts(View(), f);
          StepDown(T(), key, level, f);
        }
        f := table[f][i].ppn;
        level := level - 1;
      }
      WalkEnd(T(), key, level, f);
      return true, Some(f);
    }

    /** pageLookup: the mapped page, or None when the walk or the entry is missing. */
    method PageLookup(key: Key) returns (page: Option<nat>, low: Option<nat>)
      requires Valid() && Alive(T(), key)
      modifies this
      ensures View() == old(View())
      ensures page == if key in maps then Some(maps[key].ppn) else None
      ensures low == if key in maps then LowOf(T(), key) else None
      ensures key in maps ==> low.Some? && low.value < |table| && table[low.value][key.v.k] == maps[key]
    {
      hide Down, Up, Exact;
      LookupIsMap(T(), key);
      var ok;
      ok, low := PageWalk(key, false);
      if low.None? || table[low.value][key.v.k].Empty? {
        return None, None;
      }
      page := Some(table[low.value][key.v.k].ppn);
    }

    /** pageRemove: drop the mapping and one reference; an unreferenced page is listed as free. */
    method PageRemove(key: Key) returns (ok: bool)
      requires Valid() && Alive(T(), key)
      modifies this
      ensures Valid() && Alive(T(), key)
      ensures ok == (key in old(maps))
      ensures !ok ==> View() == old(View())
      ensures ok ==> Removed(old(View()), View(), key)
      ensures ok ==> var e := old(maps)[key];
                && e.Entry? && e.ppn < |old(ref)| && old(ref)[e.ppn] > 0 && maps == old(maps) - {key}
                && ref == old(ref)[e.ppn := old(ref)[e.ppn] - 1]
                && free == (if old(ref)[e.ppn] == 1 then [e.ppn] + old(free) else old(free))
      ensures ok ==> LowOf(T(), key) == LowOf(old(T()), key) && |table| == |old(table)|
      ensures ok ==> forall p: nat :: p < |table| && LowOf(T(), key) != Some(p) ==> table[p] == old(table)[p]
    {
      hide Good, Exact, Users;
      MappedHasTables(View(), key);
      var page, low := PageLookup(key);
      if low.None? {
        return false;
      }
      RemovedBy(View(), low.value, key);
      var p := page.value;
      ref := ref[p := ref[p] - 1];
      if ref[p] == 0 {
        free := [p] + free;
      }
      table := table[low.value := table[low.value][key.v.k := Empty]];
      maps := maps - {key};
      return true;
    }

    /** The store of a leaf entry after a creating walk, and the count. */
    method PutLeaf(low: nat, key: Key, p: nat, perm: Perm)
      requires low < |table| && |table[low]| == ENTRIES && p < |ref|
      modifies this
      ensures View() == Mapped(old(View()), low, key, p, perm)
    {
      table := table[low := table[low][key.v.k := Entry(p, perm)]];
      maps := maps[key := Entry(p, perm)];
      ref := ref[p := ref[p] + 1];
    }

    /**
     The tail shared by pageInsert and pageMap: make the tables, store the entry, count it. A page
     that is on the free list, as pageMap may just have put it there, spoils the invariant.
     */
    method MapNew(key: Key, p: nat, perm: Perm) returns (ok: bool)
      requires Valid() && dead == {} && Alive(T(), key) && key !in maps
      requires p < |ref| && p !in place && (p in free ==> LowOf(T(), key).Some?)
      modifies this
      ensures Valid() <==> p !in old(free)
      ensures p !in old(free) ==> Alive(T(), key)
      ensures ok <==> Missing(old(T()), key) <= |old(free)|
      ensures ok && p !in old(free) ==> Inserted(old(View()), View(), key, Entry(p, perm))
      ensures ok ==> maps == old(maps)[key := Entry(p, perm)]
      ensures ok ==> |free| == |old(free)| - Missing(old(T()), key)
      ensures p in old(free) ==> ok && free == old(free) && maps == old(maps)[key := Entry(p, perm)]
      ensures Missing(old(T()), key) == 0 ==> bytes == old(bytes) && place == old(place)
      ensures !ok ==> free == [] && LowOf(T(), key) == None && Took(old(View()), View())
      ensures Toward(old(T()), T(), key)
    {
      hide Good, Exact, Users, Missing, Took, Inserted, Loose, LowOf, Alive, Toward;
      ghost var u := View();
      MappedHasTables(u, key);
      var low;
      ok, low := PageWalk(key, true);
      if !ok {
        return;
      }
      ghost var w := View();
      LeafReady(w, key, low.value);
      TookSize(u, w);
      PutLeaf(low.value, key, p, perm);
      TowardPlace(u.t, w.t, T(), key);
      if p in u.free {
        ListedIsBroken(w, low.value, key, p, perm);
      } else {
        NotTaken(u, w, p);
        LeafStored(w, low.value, key, p, perm);
        InsertedFresh(u, w, low.value, key, p, perm);
      }
    }

    /** pageInsert: map `key` to page p, replacing what was mapped there. */
    method PageInsert(key: Key, p: nat, perm: Perm) returns (ok: bool)
      requires Valid() && dead == {} && Alive(T(), key)
      requires p < |ref| && p !in place && p !in free
      modifies this
      ensures Valid() && Alive(T(), key)
      ensures ok <==> Missing(old(T()), key) <= |old(free)|
      ensures ok ==> Inserted(old(View()), View(), key, Entry(p, AccessedDirty(perm)))
      ensures ok ==> maps == old(maps)[key := Entry(p, perm.(a := true, d := true))]
      ensures ok && key !in old(maps) ==> |free| == |old(free)| - Missing(old(T()), key)
      ensures ok && key in old(maps) ==> |free| >= |old(free)|
      ensures Missing(old(T()), key) == 0 ==> bytes == old(bytes) && place == old(place)
      ensures !ok ==> free == [] && key !in old(maps) && Took(old(View()), View())
      ensures Toward(old(T()), T(), key)
    {
      hide Good, Exact, Users, Missing, Took, Inserted, Loose, LowOf, Alive, Toward;
      ghost var a := View();
      TowardSelf(a.t, key);
      MappedHasTables(a, key);
      var done, low := PageWalk(key, false);
      if low.Some? && table[low.value][key.v.k].Entry? {
        if table[low.value][key.v.k].ppn != p {
          var gone := PageRemove(key);
          ghost var u := View();
          MappedHasTables(u, key);
          ok := MapNew(key, p, AccessedDirty(perm));
          TowardSelf(a.t, key);
          TowardPlace(a.t, a.t, T(), key);
          InsertedAfterRemoved(a, u, View(), key, Entry(p, AccessedDirty(perm)));
          assert ok ==> maps == a.t.maps[key := Entry(p, AccessedDirty(perm))];
        } else {
          InPlace(a, low.value, key, AccessedDirty(perm));
          table := table[low.value := table[low.value][key.v.k := Entry(p, AccessedDirty(perm))]];
          maps := maps[key := Entry(p, AccessedDirty(perm))];
          TowardPlace(a.t, a.t, T(), key);
          return true;
        }
      } else {
        ok := MapNew(key, p, AccessedDirty(perm));
      }
    }

    /**
     pageMap, with kernelPageMap folded in. Unlike pageInsert it drops an existing mapping even
     when that is of the same page. If it was the page's only reference, the page is listed as free
     and then mapped all the same, and the invariant is gone.
     */
    method PageMap(key: Key, p: nat, perm: Perm) returns (ok: bool)
      requires Valid() && dead == {} && Alive(T(), key)
      requires p < |ref| && p !in place && p !in free
      modifies this
      ensures Valid() <==> !OverItself(old(View()), key, p)
      ensures !OverItself(old(View()), key, p) ==> Alive(T(), key)
      ensures ok <==> Missing(old(T()), key) <= |old(free)|
      ensures ok && !OverItself(old(View()), key, p) ==> Inserted(old(View()), View(), key, Entry(p, AccessedDirty(perm)))
      ensures ok ==> maps == old(maps)[key := Entry(p, perm.(a := true, d := true))]
      ensures OverItself(old(View()), key, p) ==> ok && MappedFree(old(View()), View(), key, p, AccessedDirty(perm))
      ensures ok && key !in old(maps) ==> |free| == |old(free)| - Missing(old(T()), key)
      ensures key in old(maps) ==> |free| == |old(free)| + Frees(old(View()), key)
      ensures Missing(old(T()), key) == 0 ==> bytes == old(bytes) && place == old(place)
      ensures !ok ==> free == [] && LowOf(T(), key) == None && key !in old(maps) && Took(old(View()), View())
      ensures Toward(old(T()), T(), key)
    {
      hide Good, Exact, Users, Missing, Took, Inserted, Loose, LowOf, Alive, Toward;
      ghost var a := View();
      TowardSelf(a.t, key);
      MappedHasTables(a, key);
      var done, low := PageWalk(key, false);
      if low.Some? && table[low.value][key.v.k].Entry? {
        var gone := PageRemove(key);
        ghost var u := View();
        MappedHasTables(u, key);
        ListedAgain(a, u, key, p);
        ok := MapNew(key, p, AccessedDirty(perm));
        assert ok ==> maps == a.t.maps[key := Entry(p, AccessedDirty(perm))];
        TowardPlace(a.t, a.t, T(), key);
        if !OverItself(a, key, p) {
          InsertedAfterRemoved(a, u, View(), key, Entry(p, AccessedDirty(perm)));
        }
      } else {
        ok := MapNew(key, p, AccessedDirty(perm));
      }
    }

    /** paDecreaseRef on a table page that maps nothing any more; its assert holds. */
    method PaDecreaseRef(f: nat)
      requires Valid() && f in place && Shape(T()) && Hollow(T(), f)
      modifies this
      ensures Valid() && f < |old(ref)| && old(ref)[f] == 1 && Released(old(View()), View(), f)
      ensures ref == old(ref)[f := 0] && free == [f] + old(free) && place == old(place) - {f} && maps == old(maps)
      ensures table == old(table)
    {
      hide Good, Exact, Users;
      ReleasedInv(View(), f);
      ref := ref[f := ref[f] - 1];
      assert ref[f] == 0;
      if ref[f] == 0 {
        free := [f] + free;
      }
      ghost var t := T();
      place, dead := Uproot(t, f).place, Uproot(t, f).dead;
    }
  }
}
