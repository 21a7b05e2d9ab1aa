/**
 The page allocator and its reference counts: State is the value of the kernel's memory, and each
 elementary change of it is shown to keep the counts exact.
 */
module PhysicalMemory {
  import opened PageTables

  type Byte = b: int | 0 <= b < 256

  const PAGE_SIZE := 4096

  function ZeroPage(): (z: seq<Byte>)
    ensures |z| == PAGE_SIZE && forall i :: 0 <= i < PAGE_SIZE ==> z[i] == 0
  {
    seq(PAGE_SIZE, (i: nat) => 0)
  }

  /** `kernel[p]` counts the references the kernel itself holds to page p, outside user tables. */
  datatype State = State(t: Tables, bytes: seq<seq<Byte>>, ref: seq<nat>, free: seq<nat>, kernel: seq<nat>)

  /** The leaf positions, in all address spaces, that map page p. */
  ghost function Users(maps: map<Key, Pte>, p: nat): set<Key> {
    set key | key in maps && maps[key].Entry? && maps[key].ppn == p
  }

  ghost predicate Sized(s: State) {
    |s.bytes| == |s.ref| == |s.kernel| == |s.t.table|
  }

  /** Reference counts are exact: users, plus one for a table page, plus the kernel's own. */
  ghost predicate Exact(ref: seq<nat>, maps: map<Key, Pte>, place: map<nat, Place>, kernel: seq<nat>) {
    && |kernel| == |ref|
    && (forall p: nat :: p < |ref| ==>
          ref[p] == |Users(maps, p)| + (if p in place then 1 else 0) + kernel[p])
    && (forall p :: p in place ==> p < |ref| && kernel[p] == 0)
  }

  ghost predicate Counted(s: State) {
    Exact(s.ref, s.t.maps, s.t.place, s.kernel)
  }

  ghost predicate Listed(s: State) {
    && (forall i :: 0 <= i < |s.free| ==> s.free[i] < |s.ref| && s.ref[s.free[i]] == 0)
    && (forall i, j :: 0 <= i < j < |s.free| ==> s.free[i] != s.free[j])
  }

  ghost predicate Full(s: State) {
    forall p: nat :: p < |s.bytes| ==> |s.bytes[p]| == PAGE_SIZE
  }

  ghost predicate Inv(s: State) {
    Good(s.t) && Sized(s) && Full(s) && Counted(s) && Listed(s)
  }

  /** Pages that are neither listed as free nor referenced: handed out, not yet mapped. */
  ghost function Loose(s: State): set<nat> {
    set p: nat | p < |s.ref| && s.ref[p] == 0 && p !in s.free
  }

  lemma MappedIsCounted(s: State, key: Key)
    requires Inv(s) && key in s.t.maps
    ensures s.t.maps[key].Entry? && s.t.maps[key].ppn < |s.ref| && s.ref[s.t.maps[key].ppn] > 0
    ensures s.t.maps[key].ppn !in s.free && s.t.maps[key].ppn !in s.t.place
  {
    assert {key} <= Users(s.t.maps, s.t.maps[key].ppn);
    assert |Users(s.t.maps, s.t.maps[key].ppn)| != 0;
  }

  /** A page on the free list is mapped nowhere and is no table page. */
  lemma FreeIsUnused(s: State, p: nat)
    requires Inv(s) && (p in s.free || p in Loose(s))
    ensures p < |s.ref| && p !in s.t.place && s.kernel[p] == 0
    ensures forall key :: key in s.t.maps ==> s.t.maps[key].ppn != p
  {
    assert s.ref[p] == 0;
    forall key | key in s.t.maps ensures s.t.maps[key].ppn != p {
      MappedIsCounted(s, key);
    }
  }

  lemma UsersAdd(maps: map<Key, Pte>, key: Key, e: Pte, p: nat)
    requires key !in maps && e.Entry?
    ensures |Users(maps[key := e], p)| == |Users(maps, p)| + if e.ppn == p then 1 else 0
  {
    if e.ppn == p {
      assert Users(maps[key := e], p) == Users(maps, p) + {key};
    } else {
      assert Users(maps[key := e], p) == Users(maps, p);
    }
  }

  lemma UsersDrop(maps: map<Key, Pte>, key: Key, p: nat)
    requires key in maps && maps[key].Entry?
    ensures |Users(maps - {key}, p)| == |Users(maps, p)| - if maps[key].ppn == p then 1 else 0
  {
    if maps[key].ppn == p {
      assert Users(maps - {key}, p) == Users(maps, p) - {key};
    } else {
      assert Users(maps - {key}, p) == Users(maps, p);
    }
  }

  lemma ExactDrop(ref: seq<nat>, maps: map<Key, Pte>, place: map<nat, Place>, kernel: seq<nat>, key: Key)
    requires Exact(ref, maps, place, kernel) && key in maps && maps[key].Entry?
    requires maps[key].ppn < |ref| && ref[maps[key].ppn] > 0
    ensures Exact(ref[maps[key].ppn := ref[maps[key].ppn] - 1], maps - {key}, place, kernel)
  {
    forall p: nat | p < |ref|
      ensures |Users(maps - {key}, p)| == |Users(maps, p)| - if maps[key].ppn == p then 1 else 0
    {
      UsersDrop(maps, key, p);
    }
  }

  lemma ExactAdd(ref: seq<nat>, maps: map<Key, Pte>, place: map<nat, Place>, kernel: seq<nat>, key: Key, e: Pte)
    requires Exact(ref, maps, place, kernel) && key !in maps && e.Entry? && e.ppn < |ref|
    ensures Exact(ref[e.ppn := ref[e.ppn] + 1], maps[key := e], place, kernel)
  {
    forall p: nat | p < |ref|
      ensures |Users(maps[key := e], p)| == |Users(maps, p)| + if e.ppn == p then 1 else 0
    {
      UsersAdd(maps, key, e, p);
    }
  }

  lemma UsersSame(maps: map<Key, Pte>, key: Key, e: Pte, p: nat)
    requires key in maps && maps[key].Entry? && e.Entry? && e.ppn == maps[key].ppn
    ensures Users(maps[key := e], p) == Users(maps, p)
  {
  }

  // ----- the elementary changes of state -----------------------------------------------

  function Popped(s: State): State
    requires s.free != [] && s.free[0] < |s.t.table| && s.free[0] < |s.bytes|
  {
    State(Clear(s.t, s.free[0]), s.bytes[s.free[0] := ZeroPage()], s.ref, s.free[1..], s.kernel)
  }

  lemma PoppedInv(s: State)
    requires Inv(s) && s.free != []
    ensures Inv(Popped(s)) && Loose(Popped(s)) == Loose(s) + {s.free[0]}
  {
    FreeIsUnused(s, s.free[0]);
    ClearGood(s.t, s.free[0]);
  }

  function Linked(s: State, u: nat, i: Idx, p: nat): State
    requires Shape(s.t) && u in s.t.place && !s.t.place[u].Low? && p < |s.ref|
  {
    State(Link(s.t, u, i, p), s.bytes, s.ref[p := s.ref[p] + 1], s.free, s.kernel)
  }

  lemma LinkedInv(s: State, u: nat, i: Idx, p: nat)
    requires Inv(s) && u in s.t.place && !s.t.place[u].Low? && s.t.table[u][i].Empty? && (u, i) !in s.t.dead
    requires p in Loose(s) && s.t.table[p] == ZeroTable() && s.t.dead == {}
    ensures Inv(Linked(s, u, i, p)) && Loose(Linked(s, u, i, p)) == Loose(s) - {p}
  {
    hide Down, Up, Flat, Users;
    FreeIsUnused(s, p);
    LinkGood(s.t, u, i, p);
  }

  function Dropped(s: State, p: nat): State
    requires p < |s.ref| && s.ref[p] > 0
  {
    State(s.t, s.bytes, s.ref[p := s.ref[p] - 1], if s.ref[p] == 1 then [p] + s.free else s.free, s.kernel)
  }

  function Unmapped(s: State, f: nat, key: Key): State
    requires f < |s.t.table| && key.v.k < |s.t.table[f]| && s.t.table[f][key.v.k].Entry?
    requires s.t.table[f][key.v.k].ppn < |s.ref| && s.ref[s.t.table[f][key.v.k].ppn] > 0
  {
    State(SetLeaf(s.t, f, key.v.k, Empty, key), s.bytes, Dropped(s, s.t.table[f][key.v.k].ppn).ref,
          Dropped(s, s.t.table[f][key.v.k].ppn).free, s.kernel)
  }

  lemma UnmappedInv(s: State, f: nat, key: Key)
    requires Inv(s) && key in s.t.maps && LowOf(s.t, key) == Some(f)
    ensures s.t.table[f][key.v.k] == s.t.maps[key]
    ensures s.t.maps[key].ppn < |s.ref| && s.ref[s.t.maps[key].ppn] > 0
    ensures Inv(Unmapped(s, f, key)) && Loose(Unmapped(s, f, key)) == Loose(s)
  {
    hide Down, Up, Flat, Users, KeyOf;
    MappedIsCounted(s, key);
    MapsAt(s.t, key);
    LowOfIsKeyOf(s.t, key);
    SetLeafGood(s.t, f, key.v.k, Empty);
    ExactDrop(s.ref, s.t.maps, s.t.place, s.kernel, key);
  }

  function Mapped(s: State, f: nat, key: Key, p: nat, perm: Perm): State
    requires f < |s.t.table| && key.v.k < |s.t.table[f]| && p < |s.ref|
  {
    State(SetLeaf(s.t, f, key.v.k, Entry(p, perm), key), s.bytes, s.ref[p := s.ref[p] + 1], s.free, s.kernel)
  }

  lemma MappedInv(s: State, f: nat, key: Key, p: nat, perm: Perm)
    requires Inv(s) && Alive(s.t, key) && key !in s.t.maps && LowOf(s.t, key) == Some(f)
    requires p < |s.ref| && p !in s.t.place && p !in s.free
    ensures Inv(Mapped(s, f, key, p, perm)) && Loose(Mapped(s, f, key, p, perm)) == Loose(s) - {p}
  {
    hide Down, Up, Flat, Users, KeyOf;
    LowOfIsKeyOf(s.t, key);
    SetLeafGood(s.t, f, key.v.k, Entry(p, perm));
    ExactAdd(s.ref, s.t.maps, s.t.place, s.kernel, key, Entry(p, perm));
  }

  lemma RewrittenInv(s: State, f: nat, key: Key, perm: Perm)
    requires Inv(s) && key in s.t.maps && LowOf(s.t, key) == Some(f)
    ensures Inv(State(SetLeaf(s.t, f, key.v.k, Entry(s.t.maps[key].ppn, perm), key), s.bytes, s.ref, s.free, s.kernel))
  {
    hide Down, Up, Flat, KeyOf;
    MapsAt(s.t, key);
    LowOfIsKeyOf(s.t, key);
    MappedIsCounted(s, key);
    var e := Entry(s.t.maps[key].ppn, perm);
    SetLeafGood(s.t, f, key.v.k, e);
    forall p: nat | p < |s.ref|
      ensures Users(s.t.maps[key := e], p) == Users(s.t.maps, p)
    {
      UsersSame(s.t.maps, key, e, p);
    }
  }

  // ----- what a walk that may create tables does ----------------------------------------

  /** From a to b only table pages were taken off the free list and hung into the forest. */
  ghost predicate Took(a: State, b: State) {
    && Sized(a) && Sized(b) && |b.ref| == |a.ref|
    && b.t.maps == a.t.maps && b.kernel == a.kernel && b.t.dead == a.t.dead
    && Loose(b) == Loose(a)
    && |b.free| <= |a.free| && b.free == a.free[|a.free| - |b.free|..]
    && (forall p :: p in a.t.place ==> p in b.t.place && b.t.place[p] == a.t.place[p])
    && (forall p :: p in b.t.place && p !in a.t.place ==> !b.t.place[p].Root? && p in a.free && p !in b.free)
    && |b.t.place| + |b.free| == |a.t.place| + |a.free|
    && (forall p: nat :: p < |a.ref| && p !in a.free ==> b.bytes[p] == a.bytes[p] && b.ref[p] == a.ref[p])
  }

  lemma TookTrans(a: State, b: State, c: State)
    requires Took(a, b) && Took(b, c)
    ensures Took(a, c)
  {
    forall p | p in c.t.place && p !in a.t.place
      ensures !c.t.place[p].Root? && p in a.free && p !in c.free
    {
      if p !in b.t.place {
        assert p in b.free;
      } else {
        assert p !in b.free;
      }
    }
  }

  lemma TookOne(a: State, b: State, at: Place)
    requires Sized(a) && Sized(b) && |b.ref| == |a.ref| && Listed(a) && a.free != []
    requires a.free[0] !in a.t.place && !at.Root? && b.t.place == a.t.place[a.free[0] := at]
    requires b.t.maps == a.t.maps && b.kernel == a.kernel && b.t.dead == a.t.dead && Loose(b) == Loose(a)
    requires b.free == a.free[1..] && b.ref == a.ref[a.free[0] := 1]
    requires forall p: nat :: p < |a.ref| && p != a.free[0] ==> b.bytes[p] == a.bytes[p]
    ensures Took(a, b)
  {
    assert b.t.place.Keys == a.t.place.Keys + {a.free[0]};
    assert |b.t.place.Keys| == |a.t.place.Keys| + 1;
  }

  /** pageAlloc, `ref++` and the store of the new entry, as one step of pageWalk. */
  lemma PopAndLinkTook(s: State, u: nat, i: Idx)
    requires Inv(s) && s.free != [] && s.t.dead == {}
    requires u in s.t.place && !s.t.place[u].Low? && s.t.table[u][i].Empty?
    ensures Inv(Popped(s)) && Shape(Popped(s).t) && s.free[0] !in s.t.place
    ensures Inv(Linked(Popped(s), u, i, s.free[0])) && Took(s, Linked(Popped(s), u, i, s.free[0]))
  {
    hide Down, Up, Flat, Users, Exact, Took, Link;
    PoppedInv(s);
    FreeIsUnused(s, s.free[0]);
    var n := Popped(s);
    assert n.t.table[u] == s.t.table[u];
    LinkedInv(n, u, i, s.free[0]);
    PopAndLinkShape(s, u, i);
  }

  lemma PopAndLinkShape(s: State, u: nat, i: Idx)
    requires Shape(s.t) && Sized(s) && Listed(s) && s.free != [] && s.free[0] !in s.t.place
    requires u in s.t.place && !s.t.place[u].Low?
    requires Shape(Popped(s).t)
    requires Loose(Popped(s)) == Loose(s) + {s.free[0]}
    requires Loose(Linked(Popped(s), u, i, s.free[0])) == Loose(Popped(s)) - {s.free[0]}
    ensures Took(s, Linked(Popped(s), u, i, s.free[0]))
  {
    assert s.free[0] !in Loose(s);
    TookOne(s, Linked(Popped(s), u, i, s.free[0]), ChildOf(s.t.place[u], u, i));
  }

  /** Table pages that a creating walk to `key` has to add. */
  function Missing(t: Tables, key: Key): nat
    requires Shape(t) && key.root in t.place
  {
    if t.table[key.root][key.v.i].Empty? then 2
    else if t.table[key.root][key.v.i].ppn < |t.table| && t.table[t.table[key.root][key.v.i].ppn][key.v.j].Empty? then 1
    else 0
  }

  /** The footprint of mapping `key` to `e`: one position of the flat map, and table pages. */
  ghost predicate Inserted(a: State, b: State, key: Key, e: Pte) {
    && Sized(a) && Sized(b) && |b.ref| == |a.ref| && e.Entry?
    && b.t.maps == a.t.maps[key := e] && b.kernel == a.kernel && b.t.dead == a.t.dead
    && Loose(b) == Loose(a) - {e.ppn}
    && (forall p :: p in a.t.place ==> p in b.t.place && b.t.place[p] == a.t.place[p])
    && (forall p :: p in b.t.place && p !in a.t.place ==> !b.t.place[p].Root? && p in a.free)
    && (forall p: nat :: p < |a.ref| && p !in a.free ==> b.bytes[p] == a.bytes[p])
    && (forall p :: p in b.free ==> p in a.free || (key in a.t.maps && a.t.maps[key].Entry? && a.t.maps[key].ppn == p))
    && (key !in a.t.maps ==> |b.t.place| + |b.free| == |a.t.place| + |a.free|)
  }

  lemma InsertedFresh(a: State, w: State, f: nat, key: Key, p: nat, perm: Perm)
    requires Inv(a) && key !in a.t.maps && Took(a, w) && Inv(w) && f < |w.t.table| && key.v.k < |w.t.table[f]|
    requires p < |a.ref| && p !in a.free && p !in a.t.place
    requires Loose(Mapped(w, f, key, p, perm)) == Loose(w) - {p}
    ensures Inserted(a, Mapped(w, f, key, p, perm), key, Entry(p, perm))
  {
    hide Inv, Loose;
  }

  lemma InsertedInPlace(s: State, f: nat, key: Key, perm: Perm)
    requires Inv(s) && key in s.t.maps && LowOf(s.t, key) == Some(f)
    ensures var e := Entry(s.t.maps[key].ppn, perm);
            var n := State(SetLeaf(s.t, f, key.v.k, e, key), s.bytes, s.ref, s.free, s.kernel);
            Inv(n) && Inserted(s, n, key, e)
  {
    hide Good, Exact, Users;
    MappedIsCounted(s, key);
    RewrittenInv(s, f, key, perm);
  }
}
