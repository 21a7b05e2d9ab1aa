/**
 pgdirFree: unmap every page of an address space, then give back its table pages. While it runs
 the entries of released tables still look valid, which is what Tables.dead accounts for.
 */
module Teardown {
  import opened PageTables
  import opened PhysicalMemory
  import opened KernelMemory
  import opened AddressSpaces

  /** Positions of `root` ranked lo up to hi are gone, all others are as before. */
  ghost predicate Cleared(a: State, b: State, root: nat, lo: int, hi: int) {
    && Sized(a) && Sized(b) && |b.ref| == |a.ref|
    && b.kernel == a.kernel && b.bytes == a.bytes && Loose(b) == Loose(a)
    && (forall key: Key :: key.root == root && lo <= Rank(key.v) < hi ==> key !in b.t.maps)
    && (forall key: Key :: !(key.root == root && lo <= Rank(key.v) < hi) ==> SameAt(a, b, key))
  }

  lemma ClearedNothing(a: State, root: nat, lo: int, hi: int)
    requires Sized(a) && forall key: Key :: key.root == root && lo <= Rank(key.v) < hi ==> key !in a.t.maps
    ensures Cleared(a, a, root, lo, hi)
  {
  }

  lemma ClearedTrans(a: State, b: State, c: State, root: nat, lo: int, mid: int, hi: int)
    requires lo <= mid <= hi && Cleared(a, b, root, lo, mid) && Cleared(b, c, root, mid, hi)
    ensures Cleared(a, c, root, lo, hi)
  {
    hide Loose;
    forall key: Key | key.root == root && lo <= Rank(key.v) < hi ensures key !in c.t.maps {
      if Rank(key.v) < mid {
        assert SameAt(b, c, key);
      }
    }
    forall key: Key | !(key.root == root && lo <= Rank(key.v) < hi) ensures SameAt(a, c, key) {
      assert SameAt(a, b, key) && SameAt(b, c, key);
    }
  }

  lemma ClearedOne(a: State, b: State, root: nat, v: VPage)
    requires Inv(a) && Inv(b) && (if Key(root, v) in a.t.maps then Removed(a, b, Key(root, v)) else b == a)
    ensures Cleared(a, b, root, Rank(v), Rank(v) + 1)
  {
    hide Good, Exact, Loose;
    RankInjective();
  }

  lemma ClearedReleased(a: State, b: State, c: State, root: nat, lo: int, hi: int, f: nat)
    requires Cleared(a, b, root, lo, hi) && Released(b, c, f)
    ensures Cleared(a, c, root, lo, hi)
  {
    hide Loose;
    forall key: Key | !(key.root == root && lo <= Rank(key.v) < hi) ensures SameAt(a, c, key) {
      assert SameAt(a, b, key);
    }
  }

  /** The tables of `root` are still in place from (i, j) on, and reachable. */
  ghost predicate LiveMid(t: Tables, root: nat, i: Idx, m: nat) {
    MidAt(t, root, i, m) && root in t.place && t.place[root].Root? && (root, i) !in t.dead
  }

  ghost predicate LiveLow(t: Tables, root: nat, i: Idx, j: Idx, m: nat, f: nat) {
    LiveMid(t, root, i, m) && f in t.place && t.place[f] == Low(m, j) && (m, j) !in t.dead
  }

  lemma LowReach(s: State, root: nat, i: Idx, j: Idx, k: Idx, m: nat, f: nat)
    requires Inv(s) && LiveLow(s.t, root, i, j, m, f)
    ensures f < |s.t.table| && |s.t.table[f]| == ENTRIES && Shape(s.t)
    ensures Alive(s.t, Key(root, VPage(i, j, k))) && LowOf(s.t, Key(root, VPage(i, j, k))) == Some(f)
    ensures s.t.table[f][k] == if Key(root, VPage(i, j, k)) in s.t.maps then s.t.maps[Key(root, VPage(i, j, k))] else Empty
    ensures s.t.table[f][k].Entry? <==> Key(root, VPage(i, j, k)) in s.t.maps
  {
    hide Exact, Users;
    LowIsLow(s.t, f);
    assert KeyOf(s.t, f, k) == Key(root, VPage(i, j, k));
    LookupIsMap(s.t, KeyOf(s.t, f, k));
    if Key(root, VPage(i, j, k)) in s.t.maps {
      MapsAt(s.t, Key(root, VPage(i, j, k)));
    }
  }

  /** The innermost loop of pgdirFree and the release of one bottom-level table. */
  method FreeLow(mem: Memory, root: nat, i: Idx, j: Idx, m: nat, f: nat)
    requires mem.Valid() && LiveLow(mem.T(), root, i, j, m, f)
    modifies mem
    ensures mem.Valid() && mem.place == old(mem.place) - {f} && mem.dead == old(mem.dead) + {(m, j)}
    ensures forall p: nat :: p < |old(mem.table)| && p != f ==> p < |mem.table| && mem.table[p] == old(mem.table)[p]
    ensures |mem.table| == |old(mem.table)|
    ensures Cleared(old(mem.View()), mem.View(), root, Rank(VPage(i, j, 0)), Rank(VPage(i, j, 0)) + 512)
  {
    hide Inv, Loose, LowOf, Alive, Cleared, Dropped;
    ghost var a := mem.View();
    ghost var base := Rank(VPage(i, j, 0));
    var k := 0;
    SizedInv(a);
    ClearedNothing(a, root, base, base);
    while k < 512
      invariant 0 <= k <= 512 && mem.Valid() && mem.place == old(mem.place) && mem.dead == old(mem.dead)
      invariant LiveLow(mem.T(), root, i, j, m, f)
      invariant |mem.table| == |old(mem.table)|
      invariant forall p: nat :: p < |mem.table| && p != f ==> mem.table[p] == old(mem.table)[p]
      invariant Cleared(a, mem.View(), root, base, base + k)
    {
      ghost var b := mem.View();
      LowReach(b, root, i, j, k, m, f);
      if mem.table[f][k].Entry? {
        var ok := mem.PageRemove(Key(root, VPage(i, j, k)));
        assert Removed(b, mem.View(), Key(root, VPage(i, j, k)));
      }
      ClearedOne(b, mem.View(), root, VPage(i, j, k));
      ClearedTrans(a, b, mem.View(), root, base, base + k, base + k + 1);
      k := k + 1;
    }
    ghost var b := mem.View();
    EmptiedLow(a, b, root, i, j, m, f);
    assert mem.table[f][j := Empty] == mem.table[f];
    mem.table := mem.table[f := mem.table[f][j := Empty]];
    assert mem.table == b.t.table;
    mem.PaDecreaseRef(f);
    ClearedReleased(a, b, mem.View(), root, base, base + 512, f);
  }

  lemma SizedInv(s: State)
    requires Inv(s)
    ensures Sized(s) && Shape(s.t)
  {
  }

  lemma EmptiedLow(a: State, b: State, root: nat, i: Idx, j: Idx, m: nat, f: nat)
    requires Inv(b) && LiveLow(b.t, root, i, j, m, f)
    requires Cleared(a, b, root, Rank(VPage(i, j, 0)), Rank(VPage(i, j, 0)) + 512)
    ensures Shape(b.t) && f < |b.t.table| && |b.t.table[f]| == ENTRIES && Hollow(b.t, f)
    ensures b.t.table[f][j] == Empty
  {
    hide Good, Exact, Loose;
    LowReach(b, root, i, j, 0, m, f);
    forall k: Idx ensures b.t.table[f][k].Empty? {
      LowReach(b, root, i, j, k, m, f);
    }
  }

  lemma MidReach(s: State, root: nat, i: Idx, j: Idx, m: nat)
    requires Inv(s) && LiveMid(s.t, root, i, m) && (m, j) !in s.t.dead
    ensures m < |s.t.table| && |s.t.table[m]| == ENTRIES
    ensures s.t.table[m][j].Entry? ==> LiveLow(s.t, root, i, j, m, s.t.table[m][j].ppn)
    ensures s.t.table[m][j].Empty? ==> forall k: Idx :: Key(root, VPage(i, j, k)) !in s.t.maps
  {
    hide Exact, Users;
    assert HangsFrom(s.t, m, root, i);
    forall k: Idx | s.t.table[m][j].Empty? ensures Key(root, VPage(i, j, k)) !in s.t.maps {
      if Key(root, VPage(i, j, k)) in s.t.maps {
        MapsAt(s.t, Key(root, VPage(i, j, k)));
      }
    }
  }

  lemma RootReach(s: State, root: nat, i: Idx)
    requires Inv(s) && root in s.t.place && s.t.place[root].Root? && (root, i) !in s.t.dead
    ensures root < |s.t.table| && |s.t.table[root]| == ENTRIES
    ensures s.t.table[root][i].Entry? ==> LiveMid(s.t, root, i, s.t.table[root][i].ppn)
    ensures s.t.table[root][i].Empty? ==> forall j: Idx, k: Idx :: Key(root, VPage(i, j, k)) !in s.t.maps
  {
    hide Exact, Users;
    forall j: Idx, k: Idx | s.t.table[root][i].Empty? ensures Key(root, VPage(i, j, k)) !in s.t.maps {
      if Key(root, VPage(i, j, k)) in s.t.maps {
        MapsAt(s.t, Key(root, VPage(i, j, k)));
      }
    }
  }

  lemma ClearedRow(a: State, root: nat, i: Idx, j: Idx)
    requires Inv(a) && forall k: Idx :: Key(root, VPage(i, j, k)) !in a.t.maps
    ensures Cleared(a, a, root, Rank(VPage(i, j, 0)), Rank(VPage(i, j, 0)) + 512)
  {
    hide Good, Exact;
    forall key: Key | key.root == root && Rank(VPage(i, j, 0)) <= Rank(key.v) < Rank(VPage(i, j, 0)) + 512
      ensures key !in a.t.maps
    {
      RankRow(key.v, i, j);
      assert key == Key(root, VPage(i, j, key.v.k));
    }
  }

  lemma ClearedRows(a: State, root: nat, i: Idx)
    requires Inv(a) && forall j: Idx, k: Idx :: Key(root, VPage(i, j, k)) !in a.t.maps
    ensures Cleared(a, a, root, Rank(VPage(i, 0, 0)), Rank(VPage(i, 0, 0)) + 0x4_0000)
  {
    hide Good, Exact;
    forall key: Key | key.root == root && Rank(VPage(i, 0, 0)) <= Rank(key.v) < Rank(VPage(i, 0, 0)) + 0x4_0000
      ensures key !in a.t.maps
    {
      RankRow(key.v, i, 0);
      assert key == Key(root, VPage(i, key.v.j, key.v.k));
    }
  }

  /** Table pages below `root`. */
  ghost predicate Below(t: Tables, root: nat, p: nat) {
    p in t.place && match t.place[p] {
      case Root => false
      case Mid(u, _) => u == root
      case Low(m, _) => m in t.place && t.place[m].Mid? && t.place[m].up == root
    }
  }

  lemma UniqueBelow(s: State, u: nat, i: Idx, p: nat)
    requires Inv(s) && p in s.t.place && (s.t.place[p] == Low(u, i) || s.t.place[p] == Mid(u, i))
    ensures u < |s.t.table| && |s.t.table[u]| == ENTRIES && s.t.table[u][i].Entry? && s.t.table[u][i].ppn == p
    ensures u in s.t.place && (u, i) !in s.t.dead
    ensures s.t.place[p].Low? ==> s.t.place[u].Mid?
    ensures s.t.place[p].Mid? ==> s.t.place[u].Root?
  {
    assert HangsFrom(s.t, p, u, i);
  }

  /** p hangs under one of the entries of u numbered lo up to hi. */
  predicate Under(place: map<nat, Place>, u: nat, lo: int, hi: int, p: nat) {
    p in place && !place[p].Root? && place[p].up == u && lo <= place[p].at < hi
  }

  /** p is such a page, or a bottom-level table below one. */
  predicate Gone(place: map<nat, Place>, u: nat, lo: int, hi: int, p: nat) {
    Under(place, u, lo, hi, p)
    || (p in place && place[p].Low? && Under(place, u, lo, hi, place[p].up) && place[place[p].up].Mid?)
  }

  /** b's table pages are a's, less those below entries lo up to hi of u. */
  ghost predicate Pruned(a: Tables, b: Tables, u: nat, lo: int, hi: int) {
    && |b.table| == |a.table|
    && (forall p :: p in b.place <==> p in a.place && !Gone(a.place, u, lo, hi, p))
    && (forall p :: p in b.place ==>
          b.place[p] == a.place[p] && p < |b.table| && b.table[p] == a.table[p])
    && (forall d :: d in a.dead ==> d in b.dead)
    && (forall d :: d in b.dead ==> d in a.dead || (d.0 == u && lo <= d.1 < hi) || d.0 !in b.place)
    && (forall l: Idx :: lo <= l < hi && u in b.place && |b.table[u]| == ENTRIES ==>
          b.table[u][l].Empty? || (u, l) in b.dead)
  }

  lemma PrunedTrans(a: Tables, b: Tables, c: Tables, u: nat, lo: int, mid: int, hi: int)
    requires lo <= mid <= hi && Pruned(a, b, u, lo, mid) && Pruned(b, c, u, mid, hi)
    ensures Pruned(a, c, u, lo, hi)
  {
  }

  lemma PrunedNothing(s: State, u: nat, lo: int)
    requires Inv(s)
    ensures Pruned(s.t, s.t, u, lo, lo)
  {
  }

  /** One turn of pgdirFree's middle loop. */
  method FreeRow(mem: Memory, root: nat, i: Idx, j: Idx, m: nat)
    requires mem.Valid() && LiveMid(mem.T(), root, i, m) && (m, j) !in mem.dead
    modifies mem
    ensures mem.Valid() && LiveMid(mem.T(), root, i, m)
    ensures Pruned(old(mem.T()), mem.T(), m, j, j + 1)
    ensures forall d :: d in mem.dead ==> d in old(mem.dead) || d == (m, j)
    ensures Cleared(old(mem.View()), mem.View(), root, Rank(VPage(i, j, 0)), Rank(VPage(i, j, 0)) + 512)
  {
    hide Inv, Loose, LowOf, Alive, Cleared, Dropped, Removed;
    ghost var b := mem.View();
    SizedInv(b);
    MidReach(b, root, i, j, m);
    forall p | p in mem.place && mem.place[p] == Low(m, j)
      ensures mem.table[m][j].Entry? && mem.table[m][j].ppn == p
    {
      UniqueBelow(b, m, j, p);
    }
    assert forall p :: Gone(mem.place, m, j, j + 1, p) <==> p in mem.place && mem.place[p] == Low(m, j) by {
      UnderMid(b, m);
    }
    if mem.table[m][j].Entry? {
      FreeLow(mem, root, i, j, m, mem.table[m][j].ppn);
    } else {
      ClearedRow(b, root, i, j);
    }
  }

  lemma UnderMid(s: State, m: nat)
    requires Inv(s) && m in s.t.place && s.t.place[m].Mid?
    ensures forall p :: p in s.t.place && !s.t.place[p].Root? && s.t.place[p].up == m ==> s.t.place[p].Low?
    ensures forall p :: p in s.t.place && s.t.place[p].Low? ==>
              s.t.place[p].up in s.t.place && s.t.place[s.t.place[p].up].Mid?
  {
    forall p | p in s.t.place && !s.t.place[p].Root?
      ensures s.t.place[p].up in s.t.place && (s.t.place[p].Low? <==> s.t.place[s.t.place[p].up].Mid?)
    {
      assert HangsFrom(s.t, p, s.t.place[p].up, s.t.place[p].at);
    }
  }

  /** The middle loop of pgdirFree and the release of one middle table. */
  method FreeMid(mem: Memory, root: nat, i: Idx, m: nat)
    requires mem.Valid() && LiveMid(mem.T(), root, i, m) && forall j: Idx :: (m, j) !in mem.dead
    modifies mem
    ensures mem.Valid() && root in mem.place && Pruned(old(mem.T()), mem.T(), root, i, i + 1)
    ensures Cleared(old(mem.View()), mem.View(), root, Rank(VPage(i, 0, 0)), Rank(VPage(i, 0, 0)) + 0x4_0000)
  {
    hide Inv, Loose, LowOf, Alive, Cleared, Dropped, Pruned, Released;
    ghost var a := mem.View();
    ghost var base := Rank(VPage(i, 0, 0));
    var j := 0;
    SizedInv(a);
    ClearedNothing(a, root, base, base);
    PrunedNothing(a, m, 0);
    while j < 512
      invariant 0 <= j <= 512 && mem.Valid() && LiveMid(mem.T(), root, i, m)
      invariant Pruned(a.t, mem.T(), m, 0, j)
      invariant Cleared(a, mem.View(), root, base, base + j * 512)
    {
      ghost var b := mem.View();
      PrunedAt(a.t, b.t, m, j);
      FreeRow(mem, root, i, j, m);
      PrunedTrans(a.t, b.t, mem.T(), m, 0, j, j + 1);
      ClearedTrans(a, b, mem.View(), root, base, base + j * 512, base + j * 512 + 512);
      j := j + 1;
    }
    ghost var b := mem.View();
    PrunedHollow(b, a.t, m);
    mem.PaDecreaseRef(m);
    ClearedReleased(a, b, mem.View(), root, base, base + 0x4_0000, m);
    PrunedUp(a, b, mem.View(), root, i, m);
  }

  lemma PrunedAt(a: Tables, b: Tables, m: nat, j: Idx)
    requires Pruned(a, b, m, 0, j) && m in b.place && (m, j) !in a.dead
    ensures (m, j) !in b.dead
  {
  }

  lemma PrunedHollow(b: State, a: Tables, m: nat)
    requires Inv(b) && Pruned(a, b.t, m, 0, 512) && m in b.t.place && !b.t.place[m].Low?
    ensures Shape(b.t) && Hollow(b.t, m)
  {
  }

  lemma PrunedUp(a: State, b: State, c: State, root: nat, i: Idx, m: nat)
    requires Inv(a) && LiveMid(a.t, root, i, m) && Pruned(a.t, b.t, m, 0, 512) && Released(b, c, m)
    requires LiveMid(b.t, root, i, m)
    ensures root in c.t.place && Pruned(a.t, c.t, root, i, i + 1)
  {
    hide Inv;
    UnderMid(a, m);
    RootKids(a, root);
    forall p | p in a.t.place && a.t.place[p] == Mid(root, i) ensures p == m {
      UniqueBelow(a, root, i, p);
      UniqueBelow(a, root, i, m);
    }
    forall p ensures Gone(a.t.place, root, i, i + 1, p) <==> p == m || Gone(a.t.place, m, 0, 512, p) {
    }
  }

  lemma RootKids(s: State, root: nat)
    requires Inv(s) && root in s.t.place && s.t.place[root].Root?
    ensures forall p :: p in s.t.place && !s.t.place[p].Root? && s.t.place[p].up == root ==> s.t.place[p].Mid?
  {
    forall p | p in s.t.place && !s.t.place[p].Root? && s.t.place[p].up == root
      ensures s.t.place[p].Mid?
    {
      assert HangsFrom(s.t, p, root, s.t.place[p].at);
    }
  }

  /** pgdirFree: afterwards the space is gone and nothing else has changed. */
  method PgdirFree(mem: Memory, root: nat)
    requires mem.Valid() && mem.dead == {} && root in mem.place && mem.place[root].Root?
    modifies mem
    ensures mem.Valid() && mem.dead == {}
    ensures Cleared(old(mem.View()), mem.View(), root, 0, ALL_PAGES)
    ensures forall p :: p in mem.place <==> p in old(mem.place) && p != root && !Below(old(mem.T()), root, p)
    ensures forall p :: p in mem.place ==> mem.place[p] == old(mem.place)[p]
  {
    hide Inv, Loose, LowOf, Alive, Cleared, Dropped, Pruned, Released;
    ghost var a := mem.View();
    var i := 0;
    SizedInv(a);
    ClearedNothing(a, root, 0, 0);
    PrunedNothing(a, root, 0);
    while i < 512
      invariant 0 <= i <= 512 && mem.Valid() && root in mem.place && mem.place[root].Root?
      invariant Pruned(a.t, mem.T(), root, 0, i)
      invariant Cleared(a, mem.View(), root, 0, i * 0x4_0000)
    {
      ghost var b := mem.View();
      PrunedAt(a.t, b.t, root, i);
      RootReach(b, root, i);
      PrunedLive(a.t, b, root, i);
      if mem.table[root][i].Entry? {
        FreeMid(mem, root, i, mem.table[root][i].ppn);
      } else {
        ClearedRows(b, root, i);
      }
      PrunedTrans(a.t, b.t, mem.T(), root, 0, i, i + 1);
      ClearedTrans(a, b, mem.View(), root, 0, i * 0x4_0000, i * 0x4_0000 + 0x4_0000);
      PrunedRoot(a.t, mem.T(), root, i + 1);
      i := i + 1;
    }
    ghost var b := mem.View();
    PrunedHollow(b, a.t, root);
    mem.PaDecreaseRef(root);
    ClearedReleased(a, b, mem.View(), root, 0, ALL_PAGES, root);
    ghost var c := mem.View();
    Forgotten(a, b, c, root);
    mem.dead := {};
    ClearedForgot(a, c, mem.View(), root);
  }

  lemma PrunedLive(a: Tables, b: State, root: nat, i: Idx)
    requires Inv(b) && Pruned(a, b.t, root, 0, i) && a.dead == {} && root in b.t.place && b.t.place[root].Root?
    requires (root, i) !in b.t.dead
    ensures Shape(b.t)
    ensures b.t.table[root][i].Entry? ==> forall j: Idx :: (b.t.table[root][i].ppn, j) !in b.t.dead
    ensures b.t.table[root][i].Empty? ==> Pruned(b.t, b.t, root, i, i + 1)
  {
    hide Exact, Users;
    assert Down(b.t);
    forall p | p in b.t.place && b.t.place[p] == Mid(root, i)
      ensures b.t.table[root][i].Entry?
    {
      UniqueBelow(b, root, i, p);
    }
    RootKids(b, root);
  }

  lemma PrunedRoot(a: Tables, b: Tables, root: nat, i: int)
    requires root in a.place && a.place[root].Root? && Pruned(a, b, root, 0, i)
    ensures root in b.place && b.place[root].Root?
  {
  }

  lemma Forgotten(a: State, b: State, c: State, root: nat)
    requires Inv(a) && Inv(c) && a.t.dead == {} && root in a.t.place && a.t.place[root].Root?
    requires Pruned(a.t, b.t, root, 0, 512) && Released(b, c, root)
    ensures Inv(c.(t := c.t.(dead := {})))
    ensures forall p :: p in c.t.place <==> p in a.t.place && p != root && !Below(a.t, root, p)
    ensures forall p :: p in c.t.place ==> c.t.place[p] == a.t.place[p]
  {
    hide Exact, Users, Good;
    RootKids(a, root);
    ForgetDead(c.t);
  }

  lemma ClearedForgot(a: State, c: State, d: State, root: nat)
    requires Cleared(a, c, root, 0, ALL_PAGES) && d == c.(t := c.t.(dead := {}))
    ensures Cleared(a, d, root, 0, ALL_PAGES)
  {
    forall key: Key | !(key.root == root && 0 <= Rank(key.v) < ALL_PAGES) ensures SameAt(a, d, key) {
      assert SameAt(a, c, key);
    }
  }

  /** Page p is referenced by mappings of `root` and by nothing else. */
  ghost predicate SolelyOf(s: State, root: nat, p: nat)
    requires p < |s.kernel|
  {
    p !in s.t.place && s.kernel[p] == 0 && Users(s.t.maps, p) != {}
    && forall key :: key in Users(s.t.maps, p) ==> key.root == root
  }

  /** pgdirFree gives back its table pages and exactly the pages that only this space used. */
  lemma FreesExactly(a: State, b: State, root: nat, p: nat)
    requires Inv(a) && Inv(b) && Cleared(a, b, root, 0, ALL_PAGES)
    requires forall q :: q in b.t.place <==> q in a.t.place && q != root && !Below(a.t, root, q)
    requires root in a.t.place && p < |a.ref|
    ensures p in b.free <==> p in a.free || p == root || Below(a.t, root, p) || SolelyOf(a, root, p)
  {
    hide Good;
    forall key: Key ensures 0 <= Rank(key.v) < ALL_PAGES {
    }
    forall key | key in Users(a.t.maps, p) && key.root != root ensures key in Users(b.t.maps, p) {
      assert SameAt(a, b, key);
    }
    forall key | key in Users(b.t.maps, p) ensures key in Users(a.t.maps, p) && key.root != root {
      assert SameAt(a, b, key);
    }
    assert p in Loose(b) <==> p in Loose(a);
    FreedByCount(a, p);
    FreedByCount(b, p);
  }

  lemma FreedByCount(s: State, p: nat)
    requires Inv(s) && p < |s.ref|
    ensures s.ref[p] == 0 <==> Users(s.t.maps, p) == {} && p !in s.t.place && s.kernel[p] == 0
    ensures p in s.free <==> s.ref[p] == 0 && p !in Loose(s)
    ensures p in s.t.place ==> Users(s.t.maps, p) == {} && s.kernel[p] == 0
  {
    hide Good;
    if s.t.place != map[] && p in s.t.place && Users(s.t.maps, p) != {} {
      var key :| key in Users(s.t.maps, p);
      MappedIsCounted(s, key);
    }
  }
}
