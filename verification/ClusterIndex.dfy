/**
 The per-file cluster index: 64 entries in the file's own record, 8 of them direct, 16 naming
 nodes of 64 entries, 40 naming nodes of nodes, all nodes from one pool shared by every file.
 It caches a cluster chain; `chain` below is the list it stands for.
 */
module ClusterIndex {
  const ITEMS := 64
  const SECOND_BASE := 8
  const THIRD_BASE := 24
  const SECOND_BOTTOM := 8
  const THIRD_BOTTOM := 1032
  const THIRD_TOP := 164872

  /** The level boundaries of the header file are these numbers. */
  lemma Boundaries()
    ensures ITEMS == 64 && SECOND_BASE == SECOND_BOTTOM == 8 && THIRD_BASE == 8 + 16
    ensures THIRD_BOTTOM == 8 + 16 * 64 && THIRD_TOP == 8 + 16 * 64 + 40 * 64 * 64
  {
  }

  datatype Meta = Meta(item: seq<nat>, max: nat, cnt: nat, cur: nat)

  /** What a pool node serves: file f's entry i, or sub-entry j of it. */
  datatype Slot = Second(f: nat, i: nat) | Top(f: nat, i: nat) | Leaf(f: nat, i: nat, j: nat)

  datatype Pool = Pool(metas: seq<Meta>, nodes: seq<seq<nat>>, used: seq<bool>,
                       owner: map<nat, Slot>, chain: seq<seq<nat>>)

  // ----- coordinates of a position -----------------------------------------------------

  function Item2(pos: nat): nat
    requires SECOND_BOTTOM <= pos < THIRD_BOTTOM
  {
    SECOND_BASE + (pos - SECOND_BOTTOM) / ITEMS
  }

  function Off2(pos: nat): nat
    requires SECOND_BOTTOM <= pos < THIRD_BOTTOM
  {
    (pos - SECOND_BOTTOM) % ITEMS
  }

  function Item3(pos: nat): nat
    requires THIRD_BOTTOM <= pos < THIRD_TOP
  {
    THIRD_BASE + (pos - THIRD_BOTTOM) / ITEMS / ITEMS
  }

  function Sub3(pos: nat): nat
    requires THIRD_BOTTOM <= pos < THIRD_TOP
  {
    (pos - THIRD_BOTTOM) / ITEMS % ITEMS
  }

  function Off3(pos: nat): nat
    requires THIRD_BOTTOM <= pos < THIRD_TOP
  {
    (pos - THIRD_BOTTOM) % ITEMS
  }

  lemma Coords2(pos: nat)
    requires SECOND_BOTTOM <= pos < THIRD_BOTTOM
    ensures 8 <= Item2(pos) < 24 && Off2(pos) < 64
    ensures pos == 8 + (Item2(pos) - 8) * 64 + Off2(pos)
  {
  }

  lemma Coords3(pos: nat)
    requires THIRD_BOTTOM <= pos < THIRD_TOP
    ensures 24 <= Item3(pos) < 64 && Sub3(pos) < 64 && Off3(pos) < 64
    ensures pos == 1032 + (Item3(pos) - 24) * 4096 + Sub3(pos) * 64 + Off3(pos)
  {
    var d := pos - THIRD_BOTTOM;
    assert d == d / ITEMS * ITEMS + d % ITEMS;
    assert d / ITEMS == d / ITEMS / ITEMS * ITEMS + d / ITEMS % ITEMS;
    assert d / ITEMS / ITEMS < 40;
  }

  // ----- the invariant -----------------------------------------------------------------

  ghost predicate Sized(p: Pool) {
    && |p.metas| == |p.chain| && |p.nodes| == |p.used|
    && (forall f :: 0 <= f < |p.metas| ==>
          |p.metas[f].item| == ITEMS && p.metas[f].max <= THIRD_TOP && |p.chain[f]| == p.metas[f].max)
    && (forall n :: 0 <= n < |p.nodes| ==> |p.nodes[n]| == ITEMS)
  }

  ghost predicate Owns(p: Pool, n: nat, s: Slot) {
    n < |p.nodes| && n in p.owner && p.owner[n] == s
  }

  /** The nodes on the way to position pos of file f are there and belong to it. */
  ghost predicate Reached(p: Pool, f: nat, pos: nat)
    requires Sized(p) && f < |p.metas| && pos < p.metas[f].max
  {
    var item := p.metas[f].item;
    if pos < SECOND_BOTTOM then true
    else if pos < THIRD_BOTTOM then Item2(pos) < ITEMS && Owns(p, item[Item2(pos)], Second(f, Item2(pos)))
    else
      && Item3(pos) < ITEMS && Sub3(pos) < ITEMS && Owns(p, item[Item3(pos)], Top(f, Item3(pos)))
      && Owns(p, p.nodes[item[Item3(pos)]][Sub3(pos)], Leaf(f, Item3(pos), Sub3(pos)))
  }

  /** Every owned node is marked and lies on the way to a cached position of its owner. */
  ghost predicate Anchored(p: Pool, n: nat)
    requires Sized(p) && n in p.owner
  {
    n < |p.used| && p.used[n] && p.owner[n].f < |p.metas|
    && var m := p.metas[p.owner[n].f];
    match p.owner[n] {
      case Second(f, i) =>
        SECOND_BASE <= i < THIRD_BASE && m.item[i] == n && m.max > SECOND_BOTTOM + (i - SECOND_BASE) * ITEMS
      case Top(f, i) =>
        THIRD_BASE <= i < ITEMS && m.item[i] == n && m.max > THIRD_BOTTOM + (i - THIRD_BASE) * 4096
      case Leaf(f, i, j) =>
        THIRD_BASE <= i < ITEMS && j < ITEMS && Owns(p, m.item[i], Top(f, i)) && p.nodes[m.item[i]][j] == n
        && m.max > THIRD_BOTTOM + (i - THIRD_BASE) * 4096 + j * ITEMS
    }
  }

  /** metaFindInode's answer. */
  function Find(p: Pool, f: nat, pos: nat): nat
    requires Sized(p) && f < |p.metas| && pos < p.metas[f].max && Reached(p, f, pos)
  {
    var item := p.metas[f].item;
    if pos < SECOND_BOTTOM then item[pos]
    else if pos < THIRD_BOTTOM then p.nodes[item[Item2(pos)]][Off2(pos)]
    else p.nodes[p.nodes[item[Item3(pos)]][Sub3(pos)]][Off3(pos)]
  }

  ghost predicate Inv(p: Pool) {
    && Sized(p)
    && (forall f: nat, pos: nat :: f < |p.metas| && pos < p.metas[f].max ==>
          Reached(p, f, pos) && Find(p, f, pos) == p.chain[f][pos])
    && (forall n :: n in p.owner ==> Anchored(p, n))
  }

  // ----- appending one cluster ---------------------------------------------------------

  function Poke(s: seq<nat>, i: nat, v: nat): seq<nat>
    requires i < |s|
  {
    s[i := v]
  }

  function Grown(m: Meta, item: seq<nat>): Meta {
    Meta(item, m.max + 1, m.cnt, m.cur)
  }

  ghost function Appended(p: Pool, f: nat, c: nat): seq<seq<nat>>
    requires f < |p.chain|
  {
    p.chain[f := p.chain[f] + [c]]
  }

  ghost function Cache1(p: Pool, f: nat, c: nat): Pool
    requires Sized(p) && f < |p.metas| && p.metas[f].max < SECOND_BOTTOM
  {
    var m := p.metas[f];
    Pool(p.metas[f := Grown(m, Poke(m.item, m.max, c))], p.nodes, p.used, p.owner, Appended(p, f, c))
  }

  /** Node x holds the block of 64 positions; it is new exactly when the block is. */
  ghost function Cache2(p: Pool, f: nat, c: nat, x: nat): Pool
    requires Sized(p) && f < |p.metas| && SECOND_BOTTOM <= p.metas[f].max < THIRD_BOTTOM && x < |p.nodes|
  {
    var m := p.metas[f];
    var i := Item2(m.max);
    Pool(p.metas[f := Grown(m, Poke(m.item, i, x))], p.nodes[x := Poke(p.nodes[x], Off2(m.max), c)], p.used[x := true],
         p.owner[x := Second(f, i)], Appended(p, f, c))
  }

  ghost function Cache3(p: Pool, f: nat, c: nat, t: nat, l: nat): Pool
    requires Sized(p) && f < |p.metas| && THIRD_BOTTOM <= p.metas[f].max < THIRD_TOP
    requires t < |p.nodes| && l < |p.nodes| && t != l
  {
    var m := p.metas[f];
    var i, j := Item3(m.max), Sub3(m.max);
    Pool(p.metas[f := Grown(m, Poke(m.item, i, t))],
         p.nodes[t := Poke(p.nodes[t], j, l)][l := Poke(p.nodes[l], Off3(m.max), c)], p.used[t := true][l := true],
         p.owner[t := Top(f, i)][l := Leaf(f, i, j)], Appended(p, f, c))
  }

  lemma Cache1Inv(p: Pool, f: nat, c: nat)
    requires Inv(p) && f < |p.metas| && p.metas[f].max < SECOND_BOTTOM
    ensures Inv(Cache1(p, f, c))
  {
    var q := Cache1(p, f, c);
    forall n | n in q.owner ensures Anchored(q, n) {
      assert Anchored(p, n);
    }
    forall g: nat, pos: nat | g < |q.metas| && pos < q.metas[g].max
      ensures Reached(q, g, pos) && Find(q, g, pos) == q.chain[g][pos]
    {
      if !(g == f && pos == p.metas[f].max) {
        assert Reached(p, g, pos) && Find(p, g, pos) == p.chain[g][pos];
      }
    }
  }

  ghost function Started(p: Pool, f: nat, c: nat): Pool
    requires Sized(p) && f < |p.metas|
  {
    Pool(p.metas[f := Meta(Poke(p.metas[f].item, 0, c), 1, 0, c)], p.nodes, p.used, p.owner, p.chain[f := [c]])
  }

  lemma StartedInv(p: Pool, f: nat, c: nat)
    requires Inv(p) && f < |p.metas| && p.metas[f].max <= 1
    ensures Inv(Started(p, f, c))
  {
    var q := Started(p, f, c);
    forall n | n in q.owner ensures Anchored(q, n) {
      assert Anchored(p, n);
    }
    forall g: nat, pos: nat | g < |q.metas| && pos < q.metas[g].max
      ensures Reached(q, g, pos) && Find(q, g, pos) == q.chain[g][pos]
    {
      if g != f {
        assert Reached(p, g, pos) && Find(p, g, pos) == p.chain[g][pos];
      }
    }
  }

  ghost predicate Usable2(p: Pool, f: nat, x: nat)
    requires Sized(p) && f < |p.metas| && SECOND_BOTTOM <= p.metas[f].max < THIRD_BOTTOM
  {
    var m := p.metas[f];
    x < |p.nodes| && if Off2(m.max) == 0 then x !in p.owner
                     else Owns(p, x, Second(f, Item2(m.max))) && m.item[Item2(m.max)] == x
  }

  lemma Cache2Inv(p: Pool, f: nat, c: nat, x: nat)
    requires Inv(p) && f < |p.metas| && SECOND_BOTTOM <= p.metas[f].max < THIRD_BOTTOM && Usable2(p, f, x)
    ensures Inv(Cache2(p, f, c, x))
  {
    var q := Cache2(p, f, c, x);
    Coords2(p.metas[f].max);
    forall n | n in q.owner ensures Anchored(q, n) {
      Cache2Anchored(p, f, c, x, n);
    }
    forall g: nat, pos: nat | g < |q.metas| && pos < q.metas[g].max
      ensures Reached(q, g, pos) && Find(q, g, pos) == q.chain[g][pos]
    {
      Cache2Reached(p, f, c, x, g, pos);
    }
  }

  lemma Cache2Anchored(p: Pool, f: nat, c: nat, x: nat, n: nat)
    requires Inv(p) && f < |p.metas| && SECOND_BOTTOM <= p.metas[f].max < THIRD_BOTTOM && Usable2(p, f, x)
    requires n in Cache2(p, f, c, x).owner
    ensures Sized(Cache2(p, f, c, x)) && Anchored(Cache2(p, f, c, x), n)
  {
    Coords2(p.metas[f].max);
    if n != x {
      assert Anchored(p, n);
    }
  }

  lemma Cache2Reached(p: Pool, f: nat, c: nat, x: nat, g: nat, pos: nat)
    requires Inv(p) && f < |p.metas| && SECOND_BOTTOM <= p.metas[f].max < THIRD_BOTTOM && Usable2(p, f, x)
    requires g < |p.metas| && pos < Cache2(p, f, c, x).metas[g].max
    ensures var q := Cache2(p, f, c, x);
            Sized(q) && Reached(q, g, pos) && Find(q, g, pos) == q.chain[g][pos]
  {
    Coords2(p.metas[f].max);
    if SECOND_BOTTOM <= pos < THIRD_BOTTOM {
      Coords2(pos);
    }
    if THIRD_BOTTOM <= pos < THIRD_TOP {
      Coords3(pos);
    }
    if !(g == f && pos == p.metas[f].max) {
      assert Reached(p, g, pos) && Find(p, g, pos) == p.chain[g][pos];
    }
  }

  ghost predicate Usable3(p: Pool, f: nat, t: nat, l: nat)
    requires Sized(p) && f < |p.metas| && THIRD_BOTTOM <= p.metas[f].max < THIRD_TOP
  {
    var m := p.metas[f];
    var i, j, k := Item3(m.max), Sub3(m.max), Off3(m.max);
    && t < |p.nodes| && l < |p.nodes| && t != l
    && (if k == 0 && j == 0 then t !in p.owner else Owns(p, t, Top(f, i)) && i < ITEMS && m.item[i] == t)
    && (if k == 0 then l !in p.owner else Owns(p, l, Leaf(f, i, j)) && j < ITEMS && p.nodes[t][j] == l)
  }

  lemma Cache3Inv(p: Pool, f: nat, c: nat, t: nat, l: nat)
    requires Inv(p) && f < |p.metas| && THIRD_BOTTOM <= p.metas[f].max < THIRD_TOP && Usable3(p, f, t, l)
    ensures Inv(Cache3(p, f, c, t, l))
  {
    hide Item3, Sub3, Off3, Reached, Anchored;
    var q := Cache3(p, f, c, t, l);
    Coords3(p.metas[f].max);
    forall n | n in q.owner ensures Anchored(q, n) {
      Cache3Anchored(p, f, c, t, l, n);
    }
    forall g: nat, pos: nat | g < |q.metas| && pos < q.metas[g].max
      ensures Reached(q, g, pos) && Find(q, g, pos) == q.chain[g][pos]
    {
      Cache3Reached(p, f, c, t, l, g, pos);
    }
  }

  lemma Cache3Anchored(p: Pool, f: nat, c: nat, t: nat, l: nat, n: nat)
    requires Sized(p) && f < |p.metas| && THIRD_BOTTOM <= p.metas[f].max < THIRD_TOP && Usable3(p, f, t, l)
    requires n == t || n == l || (n in p.owner && Anchored(p, n))
    ensures Sized(Cache3(p, f, c, t, l)) && n in Cache3(p, f, c, t, l).owner && Anchored(Cache3(p, f, c, t, l), n)
  {
    hide Item3, Sub3, Off3;
    Coords3(p.metas[f].max);
    var q := Cache3(p, f, c, t, l);
    if n != t && n != l && p.owner[n].Leaf? {
      var g, i := p.owner[n].f, p.owner[n].i;
      assert q.metas[g].item[i] == p.metas[g].item[i];
    }
  }

  lemma Cache3Reached(p: Pool, f: nat, c: nat, t: nat, l: nat, g: nat, pos: nat)
    requires Inv(p) && f < |p.metas| && THIRD_BOTTOM <= p.metas[f].max < THIRD_TOP && Usable3(p, f, t, l)
    requires g < |p.metas| && pos < Cache3(p, f, c, t, l).metas[g].max
    ensures var q := Cache3(p, f, c, t, l);
            Sized(q) && Reached(q, g, pos) && Find(q, g, pos) == q.chain[g][pos]
  {
    Coords3(p.metas[f].max);
    if !(g == f && pos == p.metas[f].max) {
      assert Reached(p, g, pos) && Find(p, g, pos) == p.chain[g][pos];
      if pos < THIRD_BOTTOM {
        Cache3Lower(p, f, c, t, l, g, pos);
      } else {
        Cache3Upper(p, f, c, t, l, g, pos);
      }
    }
  }

  lemma Cache3Lower(p: Pool, f: nat, c: nat, t: nat, l: nat, g: nat, pos: nat)
    requires Sized(p) && f < |p.metas| && THIRD_BOTTOM <= p.metas[f].max < THIRD_TOP && Usable3(p, f, t, l)
    requires g < |p.metas| && pos < p.metas[g].max && pos < THIRD_BOTTOM && Reached(p, g, pos)
    ensures var q := Cache3(p, f, c, t, l);
            Sized(q) && Reached(q, g, pos) && Find(q, g, pos) == Find(p, g, pos) && q.chain[g][pos] == p.chain[g][pos]
  {
    Coords3(p.metas[f].max);
    if pos >= SECOND_BOTTOM {
      Coords2(pos);
    }
  }

  lemma Cache3Upper(p: Pool, f: nat, c: nat, t: nat, l: nat, g: nat, pos: nat)
    requires Sized(p) && f < |p.metas| && THIRD_BOTTOM <= p.metas[f].max < THIRD_TOP && Usable3(p, f, t, l)
    requires g < |p.metas| && THIRD_BOTTOM <= pos < p.metas[g].max && Reached(p, g, pos)
    ensures var q := Cache3(p, f, c, t, l);
            Sized(q) && Reached(q, g, pos) && Find(q, g, pos) == Find(p, g, pos) && q.chain[g][pos] == p.chain[g][pos]
  {
    hide Item3, Sub3, Off3;
    var last := p.metas[f].max;
    Coords3(last);
    Coords3(pos);
    var q := Cache3(p, f, c, t, l);
    var top, leaf := p.metas[g].item[Item3(pos)], p.nodes[p.metas[g].item[Item3(pos)]][Sub3(pos)];
    if g == f {
      assert Item3(pos) == Item3(last) && Sub3(pos) == Sub3(last) ==> Off3(pos) < Off3(last);
      assert Item3(pos) == Item3(last) ==> Sub3(pos) <= Sub3(last);
    }
    assert q.metas[g].item[Item3(pos)] == top;
    assert q.nodes[top][Sub3(pos)] == leaf;
  }

  // ----- the pool and the index as the kernel keeps them ---------------------------------

  function Unused(used: seq<bool>): set<nat> {
    set n: nat | n < |used| && !used[n]
  }

  lemma UnusedTake(used: seq<bool>, n: nat)
    requires n < |used| && !used[n]
    ensures |Unused(used[n := true])| == |Unused(used)| - 1
  {
    assert Unused(used[n := true]) == Unused(used) - {n};
  }

  function Max(x: int, y: int): int { if x >= y then x else y }

  /** Pool nodes that caching position pos takes. */
  function NewNodes(pos: nat): nat {
    if SECOND_BOTTOM <= pos < THIRD_BOTTOM && Off2(pos) == 0 then 1
    else if THIRD_BOTTOM <= pos < THIRD_TOP && Off3(pos) == 0 then (if Sub3(pos) == 0 then 2 else 1)
    else 0
  }

  const INODES := 1024

  function Zeros(): (s: seq<nat>)
    ensures |s| == ITEMS
  {
    seq(ITEMS, _ => 0)
  }

  /** A record as readDentryInfo leaves it, also when the file has no cluster and first is 0. */
  function Fresh(first: nat): Meta {
    Meta(Poke(Zeros(), 0, first), 1, 0, first)
  }

  class Index {
    var metas: seq<Meta>
    var nodes: seq<seq<nat>>
    var used: seq<bool>
    ghost var owner: map<nat, Slot>
    ghost var chain: seq<seq<nat>>

    ghost function View(): Pool
      reads this
    {
      Pool(metas, nodes, used, owner, chain)
    }

    ghost predicate Valid()
      reads this
    {
      Inv(View())
    }

    /** The empty pool, and one record for each file as readDentryInfo makes it: the first cluster counts as cached. */
    constructor (first: seq<nat>)
      ensures Valid() && |metas| == |chain| == |first| && |used| == 1024 && (forall n :: 0 <= n < 1024 ==> !used[n])
      ensures forall f :: 0 <= f < |first| ==> metas[f] == Fresh(first[f]) && chain[f] == [first[f]]
      ensures forall f :: 0 <= f < |first| ==>
                && |metas[f].item| == 64 && metas[f].item[0] == first[f] && metas[f].max == 1 && metas[f].cnt == 0 && metas[f].cur == first[f]
    {
      metas := seq(|first|, (f: nat) requires f < |first| => Fresh(first[f]));
      nodes, used := seq(INODES, _ => Zeros()), seq(INODES, _ => false);
      owner := map[];
      chain := seq(|first|, (f: nat) requires f < |first| => [first[f]]);
    }

    /** inodeAlloc, with a node left to take. */
    method InodeAlloc() returns (n: nat)
      requires Unused(used) != {}
      modifies this`used
      ensures n < |old(used)| && !old(used)[n] && used == old(used)[n := true]
      ensures forall k :: 0 <= k < n ==> old(used)[k]
      ensures |Unused(used)| == |Unused(old(used))| - 1
    {
      n := 0;
      ghost var w :| w in Unused(used);
      while used[n]
        invariant n <= w < |used| && !used[w] && forall k :: 0 <= k < n ==> used[k]
        decreases w - n
      {
        n := n + 1;
      }
      UnusedTake(used, n);
      used := used[n := true];
    }

    /** metaFindInode: position pos of the file becomes its current cluster. */
    method MetaFindInode(f: nat, pos: nat)
      requires Valid() && f < |metas| && pos < metas[f].max
      modifies this`metas
      ensures Valid() && chain == old(chain)
      ensures metas == old(metas)[f := old(metas)[f].(cnt := pos, cur := chain[f][pos])]
    {
      var m := metas[f];
      assert Reached(View(), f, pos) && Find(View(), f, pos) == chain[f][pos];
      var c;
      if pos < SECOND_BOTTOM {
        c := m.item[pos];
      } else if pos < THIRD_BOTTOM {
        c := nodes[m.item[Item2(pos)]][Off2(pos)];
      } else {
        c := nodes[nodes[m.item[Item3(pos)]][Sub3(pos)]][Off3(pos)];
      }
      ghost var p := View();
      metas := metas[f := Meta(m.item, m.max, pos, c)];
      SameIndexInv(p, View());
    }

    /** A plain assignment to curClus and clusCnt. */
    method SetCursor(f: nat, clus: nat, pos: nat)
      requires Valid() && f < |metas|
      modifies this`metas
      ensures Valid() && metas == old(metas)[f := old(metas)[f].(cnt := pos, cur := clus)]
    {
      ghost var p := View();
      var m := metas[f];
      metas := metas[f := Meta(m.item, m.max, pos, clus)];
      SameIndexInv(p, View());
    }

    /** What metaWrite stores in the record of a file that had no cluster, whatever the record had cached. */
    method StartFile(f: nat, clus: nat)
      requires Valid() && f < |metas| && metas[f].max <= 1
      modifies this`metas, this`chain
      ensures Valid() && chain == old(chain)[f := [clus]]
      ensures metas == old(metas)[f := Meta(Poke(old(metas)[f].item, 0, clus), 1, 0, clus)]
    {
      hide Inv, Reached, Anchored;
      ghost var p := View();
      SizedInv(p);
      StartedInv(p, f, clus);
      var m := metas[f];
      metas := metas[f := Meta(m.item[0 := clus], 1, 0, clus)];
      chain := chain[f := [clus]];
    }

    /** metaCacheInode: the file's list grows by one cluster, no other list changes. */
    method MetaCacheInode(f: nat, clus: nat)
      requires Valid() && f < |metas| && metas[f].cnt == metas[f].max < 164872
      requires NewNodes(metas[f].max) <= |Unused(used)|
      modifies this
      ensures Valid() && f < |old(chain)| && chain == old(chain)[f := old(chain)[f] + [clus]]
      ensures |metas| == |old(metas)| && metas[f].max == old(metas)[f].max + 1
      ensures metas[f].cnt == old(metas)[f].cnt && metas[f].cur == old(metas)[f].cur
      ensures forall g :: 0 <= g < |metas| && g != f ==> metas[g] == old(metas)[g]
      ensures metas[f].item[0] == if old(metas)[f].max == 0 then clus else old(metas)[f].item[0]
      ensures |Unused(used)| == |Unused(old(used))| - NewNodes(old(metas)[f].max)
    {
      hide Inv, Reached, Anchored;
      var m := metas[f];
      var pos := m.cnt;
      ghost var p := View();
      SizedInv(p);
      if pos < SECOND_BOTTOM {
        Cache1Inv(p, f, clus);
        metas := metas[f := Meta(m.item[pos := clus], m.max + 1, m.cnt, m.cur)];
        chain := Appended(p, f, clus);
        assert View() == Cache1(p, f, clus);
      } else if pos < THIRD_BOTTOM {
        CacheSecond(f, clus);
      } else {
        CacheThird(f, clus);
      }
    }

    method CacheSecond(f: nat, clus: nat)
      requires Valid() && f < |metas| && SECOND_BOTTOM <= metas[f].max < THIRD_BOTTOM
      requires NewNodes(metas[f].max) <= |Unused(used)|
      modifies this
      ensures Valid() && Sized(old(View())) && exists x: nat :: x < |nodes| == |old(nodes)| && View() == Cache2(old(View()), f, clus, x)
      ensures |Unused(used)| == |Unused(old(used))| - NewNodes(old(metas)[f].max)
    {
      hide Inv, Anchored, Cache2, Item2, Off2;
      var m := metas[f];
      var pos := m.max;
      ghost var p := View();
      SizedInv(p);
      Coords2(pos);
      var idx1, idx2 := Item2(pos), Off2(pos);
      if idx2 == 0 {
        var n := InodeAlloc();
        UnusedIsFree(p, n);
        metas := metas[f := Meta(m.item[idx1 := n], m.max, m.cnt, m.cur)];
      } else {
        BlockHas2(p, f);
      }
      ghost var x := metas[f].item[idx1];
      var l := metas[f].item[idx1];
      nodes := nodes[l := Poke(nodes[l], idx2, clus)];
      metas := metas[f := Meta(metas[f].item, m.max + 1, m.cnt, m.cur)];
      owner, chain := owner[x := Second(f, idx1)], Appended(p, f, clus);
      assert used == p.used[x := true];
      assert metas[f].item == Poke(m.item, idx1, x);
      Cache2Is(p, f, clus, x, View());
      Cache2Inv(p, f, clus, x);
    }

    /** The allocations of metaCacheInode's third branch. */
    method OpenThird(f: nat) returns (ghost t: nat, ghost l: nat)
      requires Valid() && f < |metas| && THIRD_BOTTOM <= metas[f].max < THIRD_TOP
      requires NewNodes(metas[f].max) <= |Unused(used)|
      modifies this`metas, this`nodes, this`used
      ensures Sized(old(View())) && Usable3(old(View()), f, t, l)
      ensures var m := old(metas)[f];
              var i, j := Item3(m.max), Sub3(m.max);
              && i < ITEMS && j < ITEMS && metas == old(metas)[f := Meta(Poke(m.item, i, t), m.max, m.cnt, m.cur)]
              && nodes == old(nodes)[t := Poke(old(nodes)[t], j, l)] && used == old(used)[t := true][l := true]
      ensures |Unused(used)| == |Unused(old(used))| - NewNodes(old(metas)[f].max)
    {
      hide Inv, Anchored, Item3, Sub3, Off3;
      var m := metas[f];
      ghost var p := View();
      SizedInv(p);
      Coords3(m.max);
      var idx1, idx2, idx3 := Item3(m.max), Sub3(m.max), Off3(m.max);
      if idx3 == 0 {
        if idx2 == 0 {
          var n := InodeAlloc();
          UnusedIsFree(p, n);
          metas := metas[f := Meta(m.item[idx1 := n], m.max, m.cnt, m.cur)];
        } else {
          BlockHas3(p, f);
        }
        var n := InodeAlloc();
        UnusedIsFree(p, n);
        var top := metas[f].item[idx1];
        nodes := nodes[top := Poke(nodes[top], idx2, n)];
      } else {
        BlockHas3(p, f);
      }
      t := metas[f].item[idx1];
      l := nodes[t][idx2];
      assert metas[f].item == Poke(m.item, idx1, t);
      assert p.nodes[t][idx2 := l] == nodes[t];
    }

    method CacheThird(f: nat, clus: nat)
      requires Valid() && f < |metas| && THIRD_BOTTOM <= metas[f].max < THIRD_TOP
      requires NewNodes(metas[f].max) <= |Unused(used)|
      modifies this
      ensures Valid() && Sized(old(View()))
      ensures exists t: nat, l: nat :: t < |nodes| == |old(nodes)| && l < |nodes| && t != l && View() == Cache3(old(View()), f, clus, t, l)
      ensures |Unused(used)| == |Unused(old(used))| - NewNodes(old(metas)[f].max)
    {
      hide Inv, Anchored, Cache3, Item3, Sub3, Off3;
      ghost var p := View();
      SizedInv(p);
      Coords3(metas[f].max);
      ghost var t, leaf := OpenThird(f);
      var m := metas[f];
      var idx1, idx2, idx3 := Item3(m.max), Sub3(m.max), Off3(m.max);
      var l := nodes[m.item[idx1]][idx2];
      nodes := nodes[l := Poke(nodes[l], idx3, clus)];
      metas := metas[f := Meta(m.item, m.max + 1, m.cnt, m.cur)];
      owner, chain := owner[t := Top(f, idx1)][leaf := Leaf(f, idx1, idx2)], Appended(p, f, clus);
      Cache3Is(p, f, clus, t, leaf, View());
      Cache3Inv(p, f, clus, t, leaf);
    }

    /** inodeFree; its assert holds. */
    method InodeFree(n: nat)
      requires n < |used| && used[n]
      modifies this`used
      ensures used == old(used)[n := false]
    {
      used := used[n := false];
    }

    /** The first loop of metaFreeInode. */
    method FreeSecond(f: nat)
      requires Valid() && f < |metas|
      modifies this`used
      ensures |used| == |old(used)|
      ensures forall n: nat :: n < |used| ==> (used[n] <==> old(used)[n] && !(n in owner && owner[n].Second? && owner[n].f == f))
    {
      hide Reached;
      var m := metas[f];
      var i := SECOND_BASE;
      while i < THIRD_BASE && m.max > SECOND_BOTTOM + (i - SECOND_BASE) * ITEMS
        invariant SECOND_BASE <= i <= THIRD_BASE && |used| == |old(used)|
        invariant forall n: nat :: n < |used| ==>
                    (used[n] <==> old(used)[n] && !(n in owner && owner[n].Second? && owner[n].f == f && owner[n].i < i))
      {
        HasSecond(old(View()), f, i);
        OneNode(old(View()), f);
        InodeFree(m.item[i]);
        i := i + 1;
      }
      forall n | n in owner && owner[n].Second? && owner[n].f == f ensures owner[n].i < i {
        assert Anchored(old(View()), n);
      }
    }

    /** One turn of the second loop of metaFreeInode: a node of nodes and its children. */
    method FreeTop(f: nat, i: nat, ghost p: Pool)
      requires Inv(p) && metas == p.metas && nodes == p.nodes && |used| == |p.used|
      requires f < |metas| && THIRD_BASE <= i < ITEMS && metas[f].max > Base(i)
      requires forall n: nat :: n in p.owner && InTop(p.owner[n], f, i) ==> n < |used| && used[n]
      modifies this`used
      ensures |used| == |old(used)|
      ensures forall n: nat :: n < |used| ==>
                (used[n] <==> old(used)[n] && !(n in p.owner && InTop(p.owner[n], f, i) && FreedSlot(p.metas[f].max, p.owner[n])))
    {
      hide Reached;
      var m := metas[f];
      var base := Base(i);
      var j := 0;
      while j < ITEMS && m.max > base + j * ITEMS
        invariant 0 <= j <= ITEMS && |used| == |old(used)| && (j == 0 || m.max > base + (j - 1) * ITEMS)
        invariant forall n: nat :: n < |used| ==>
                    (used[n] <==> old(used)[n] && !(n in p.owner && p.owner[n].Leaf? && InTop(p.owner[n], f, i) && p.owner[n].j < j))
      {
        HasLeaf(p, f, i, j);
        InodeFree(nodes[m.item[i]][j]);
        j := j + 1;
      }
      HasTop(p, f, i);
      InodeFree(m.item[i]);
    }

    /** metaFreeInode, with the bases its second loop really uses. */
    method MetaFreeInode(f: nat)
      requires Valid() && f < |metas|
      modifies this
      ensures Valid() && metas == old(metas)[f := old(metas)[f].(max := 0)] && chain == old(chain)[f := []]
      ensures nodes == old(nodes) && |used| == |old(used)|
      ensures forall n: nat :: n < |used| ==> (used[n] <==> old(used)[n] && !Frees(old(View()), f, n))
      ensures forall n: nat :: n < |used| ==>
                (used[n] <==> old(used)[n]
                              && (n in old(owner) && old(owner)[n].f == f ==>
                                    match old(owner)[n]
                                    case Second(_, _) => false
                                    case Top(_, i) => i < 8 || old(metas)[f].max <= 1032 + (i - 8) * 4096
                                    case Leaf(_, i, j) => i < 8 || old(metas)[f].max <= 1032 + (i - 8) * 4096 + j * 64))
    {
      hide Inv, Reached, Anchored;
      var m := metas[f];
      ghost var p := View();
      SizedInv(p);
      OwnedUsed(p);
      FreeSecond(f);
      var i := THIRD_BASE;
      while i < ITEMS && m.max > Base(i)
        invariant THIRD_BASE <= i <= ITEMS && |used| == |p.used|
        invariant metas == p.metas && nodes == p.nodes && owner == p.owner && chain == p.chain
        invariant forall n: nat :: n < |used| ==> (used[n] <==> p.used[n] && !(Frees(p, f, n) && (p.owner[n].Second? || p.owner[n].i < i)))
      {
        FreeTop(f, i, p);
        i := i + 1;
      }
      NothingBeyond(p, f, i);
      metas := metas[f := Meta(m.item, 0, m.cnt, m.cur)];
      owner := map n | n in owner && owner[n].f != f :: owner[n];
      chain := chain[f := []];
      ForgetInv(p, f, View());
    }
  }

  /** The base position that metaFreeInode computes for entry i: 16 blocks of 4096 too high. */
  function Base(i: nat): nat
    requires i >= SECOND_BASE
  {
    THIRD_BOTTOM + (i - SECOND_BASE) * 4096
  }

  predicate InTop(s: Slot, f: nat, i: nat) {
    !s.Second? && s.f == f && s.i == i
  }

  /** metaFreeInode reaches the node that serves s, for a file with max cached clusters. */
  predicate FreedSlot(max: nat, s: Slot) {
    match s {
      case Second(_, _) => true
      case Top(_, i) => i >= SECOND_BASE && max > Base(i)
      case Leaf(_, i, j) => i >= SECOND_BASE && max > Base(i) + j * ITEMS
    }
  }

  predicate Frees(p: Pool, f: nat, n: nat) {
    f < |p.metas| && n in p.owner && p.owner[n].f == f && FreedSlot(p.metas[f].max, p.owner[n])
  }

  lemma HasSecond(p: Pool, f: nat, i: nat)
    requires Inv(p) && f < |p.metas| && SECOND_BASE <= i < THIRD_BASE
    requires p.metas[f].max > SECOND_BOTTOM + (i - SECOND_BASE) * ITEMS
    ensures Owns(p, p.metas[f].item[i], Second(f, i)) && p.used[p.metas[f].item[i]]
  {
    var pos := SECOND_BOTTOM + (i - SECOND_BASE) * ITEMS;
    Coords2(pos);
    assert Item2(pos) == i;
    assert Reached(p, f, pos);
    assert Anchored(p, p.metas[f].item[i]);
  }

  /** Two nodes that serve the same second-level entry are one node. */
  lemma OneNode(p: Pool, f: nat)
    requires Inv(p) && f < |p.metas|
    ensures forall n :: n in p.owner && p.owner[n].Second? && p.owner[n].f == f ==>
              p.owner[n].i < ITEMS && p.metas[f].item[p.owner[n].i] == n
  {
    forall n | n in p.owner && p.owner[n].Second? && p.owner[n].f == f
      ensures p.owner[n].i < ITEMS && p.metas[f].item[p.owner[n].i] == n
    {
      assert Anchored(p, n);
    }
  }

  lemma HasTop(p: Pool, f: nat, i: nat)
    requires Inv(p) && f < |p.metas| && THIRD_BASE <= i < ITEMS && p.metas[f].max > Base(i)
    ensures Owns(p, p.metas[f].item[i], Top(f, i)) && p.used[p.metas[f].item[i]]
    ensures forall n :: n in p.owner && p.owner[n] == Top(f, i) ==> n == p.metas[f].item[i]
    ensures forall n :: n in p.owner && p.owner[n].Leaf? && InTop(p.owner[n], f, i) ==>
              p.owner[n].j < ITEMS && p.nodes[p.metas[f].item[i]][p.owner[n].j] == n
  {
    var pos := THIRD_BOTTOM + (i - THIRD_BASE) * 4096;
    Coords3(pos);
    assert Item3(pos) == i;
    assert Reached(p, f, pos);
    assert Anchored(p, p.metas[f].item[i]);
    forall n | n in p.owner && InTop(p.owner[n], f, i)
      ensures p.owner[n].Top? ==> n == p.metas[f].item[i]
      ensures p.owner[n].Leaf? ==> p.owner[n].j < ITEMS && p.nodes[p.metas[f].item[i]][p.owner[n].j] == n
    {
      assert Anchored(p, n);
    }
  }

  lemma HasLeaf(p: Pool, f: nat, i: nat, j: nat)
    requires Inv(p) && f < |p.metas| && THIRD_BASE <= i < ITEMS && j < ITEMS && p.metas[f].max > Base(i) + j * ITEMS
    ensures Owns(p, p.metas[f].item[i], Top(f, i))
    ensures var n := p.nodes[p.metas[f].item[i]][j];
            Owns(p, n, Leaf(f, i, j)) && p.used[n]
    ensures forall n :: n in p.owner && p.owner[n] == Leaf(f, i, j) ==> n == p.nodes[p.metas[f].item[i]][j]
  {
    HasTop(p, f, i);
    var pos := THIRD_BOTTOM + (i - THIRD_BASE) * 4096 + j * ITEMS;
    Coords3(pos);
    assert Item3(pos) == i && Sub3(pos) == j;
    assert Reached(p, f, pos);
    assert Anchored(p, p.nodes[p.metas[f].item[i]][j]);
  }

  lemma OwnedUsed(p: Pool)
    requires Inv(p)
    ensures forall n :: n in p.owner ==> n < |p.used| && p.used[n] && (p.owner[n].Second? || p.owner[n].i >= THIRD_BASE)
  {
    forall n | n in p.owner ensures n < |p.used| && p.used[n] && (p.owner[n].Second? || p.owner[n].i >= THIRD_BASE) {
      assert Anchored(p, n);
    }
  }

  lemma NothingBeyond(p: Pool, f: nat, i: nat)
    requires Inv(p) && f < |p.metas| && THIRD_BASE <= i <= ITEMS && (i == ITEMS || p.metas[f].max <= Base(i))
    ensures forall n :: Frees(p, f, n) && !p.owner[n].Second? ==> p.owner[n].i < i
  {
    forall n | Frees(p, f, n) && !p.owner[n].Second? ensures p.owner[n].i < i {
      assert Anchored(p, n);
    }
  }

  lemma ForgetInv(p: Pool, f: nat, q: Pool)
    requires Inv(p) && f < |p.metas| && q.nodes == p.nodes && |q.used| == |p.used|
    requires q.metas == p.metas[f := p.metas[f].(max := 0)] && q.chain == p.chain[f := []]
    requires q.owner == map n | n in p.owner && p.owner[n].f != f :: p.owner[n]
    requires forall n: nat :: n < |q.used| ==> (q.used[n] <==> p.used[n] && !Frees(p, f, n))
    ensures Inv(q)
  {
    forall n | n in q.owner ensures Anchored(q, n) {
      assert Anchored(p, n);
    }
    forall g: nat, pos: nat | g < |q.metas| && pos < q.metas[g].max
      ensures Reached(q, g, pos) && Find(q, g, pos) == q.chain[g][pos]
    {
      assert Reached(p, g, pos) && Find(p, g, pos) == p.chain[g][pos];
    }
  }

  /**
   metaFreeInode returns every node of the file exactly when the file has no third level: the base
   it computes for third-level entries is measured from the first second-level entry.
   */
  lemma FreesAllIff(p: Pool, f: nat)
    requires Inv(p) && f < |p.metas|
    ensures (forall n :: n in p.owner && p.owner[n].f == f ==> Frees(p, f, n)) <==> p.metas[f].max <= 1032
  {
    var max := p.metas[f].max;
    if max <= THIRD_BOTTOM {
      forall n | n in p.owner && p.owner[n].f == f ensures Frees(p, f, n) {
        assert Anchored(p, n);
      }
    } else {
      Coords3(max - 1);
      assert Reached(p, f, max - 1);
      var n := p.metas[f].item[Item3(max - 1)];
      assert p.owner[n] == Top(f, Item3(max - 1)) && !Frees(p, f, n);
    }
  }

  /** A file one cluster past the second level already loses its two third-level nodes. */
  lemma LeakWitness(p: Pool, f: nat)
    requires Inv(p) && f < |p.metas| && p.metas[f].max == 1033
    ensures exists n, l :: n in p.owner && l in p.owner && p.owner[n] == Top(f, 24) && p.owner[l] == Leaf(f, 24, 0)
                           && !Frees(p, f, n) && !Frees(p, f, l)
  {
    Coords3(THIRD_BOTTOM);
    assert Reached(p, f, THIRD_BOTTOM);
    var n := p.metas[f].item[THIRD_BASE];
    assert !Frees(p, f, n) && !Frees(p, f, p.nodes[n][0]);
  }

  lemma SizedInv(p: Pool)
    requires Inv(p)
    ensures Sized(p)
  {
  }

  lemma SameIndexInv(p: Pool, q: Pool)
    requires Inv(p) && |q.metas| == |p.metas| && q == Pool(q.metas, p.nodes, p.used, p.owner, p.chain)
    requires forall f :: 0 <= f < |p.metas| ==> q.metas[f].item == p.metas[f].item && q.metas[f].max == p.metas[f].max
    ensures Inv(q)
  {
    forall n | n in q.owner ensures Anchored(q, n) {
      assert Anchored(p, n);
    }
    forall f: nat, pos: nat | f < |q.metas| && pos < q.metas[f].max
      ensures Reached(q, f, pos) && Find(q, f, pos) == q.chain[f][pos]
    {
      assert Reached(p, f, pos) && Find(p, f, pos) == p.chain[f][pos];
    }
  }

  lemma UnusedIsFree(p: Pool, n: nat)
    requires Inv(p) && n < |p.used| && !p.used[n]
    ensures n !in p.owner
  {
    assert n in p.owner ==> Anchored(p, n);
  }

  /** In the middle of a block the block's nodes are already there. */
  lemma BlockHas2(p: Pool, f: nat)
    requires Inv(p) && f < |p.metas| && SECOND_BOTTOM <= p.metas[f].max < THIRD_BOTTOM && Off2(p.metas[f].max) > 0
    ensures Item2(p.metas[f].max) < ITEMS
    ensures var x := p.metas[f].item[Item2(p.metas[f].max)];
            Owns(p, x, Second(f, Item2(p.metas[f].max))) && p.used[x]
  {
    var last := p.metas[f].max - 1;
    Coords2(p.metas[f].max);
    Coords2(last);
    assert Reached(p, f, last);
    assert Anchored(p, p.metas[f].item[Item2(last)]);
  }

  lemma BlockHas3(p: Pool, f: nat)
    requires Inv(p) && f < |p.metas| && THIRD_BOTTOM <= p.metas[f].max < THIRD_TOP
    requires Off3(p.metas[f].max) > 0 || Sub3(p.metas[f].max) > 0
    ensures Item3(p.metas[f].max) < ITEMS && Sub3(p.metas[f].max) < ITEMS
    ensures var t := p.metas[f].item[Item3(p.metas[f].max)];
            && Owns(p, t, Top(f, Item3(p.metas[f].max))) && p.used[t]
            && (Off3(p.metas[f].max) > 0 ==>
                  var l := p.nodes[t][Sub3(p.metas[f].max)];
                  Owns(p, l, Leaf(f, Item3(p.metas[f].max), Sub3(p.metas[f].max))) && p.used[l])
  {
    hide Item3, Sub3, Off3;
    var last := p.metas[f].max - 1;
    Coords3(p.metas[f].max);
    Coords3(last);
    assert Reached(p, f, last);
    var t := p.metas[f].item[Item3(last)];
    assert Anchored(p, t);
    assert Anchored(p, p.nodes[t][Sub3(last)]);
  }

  lemma Cache2Is(p: Pool, f: nat, c: nat, x: nat, q: Pool)
    requires Sized(p) && f < |p.metas| && SECOND_BOTTOM <= p.metas[f].max < THIRD_BOTTOM && x < |p.nodes|
    requires Item2(p.metas[f].max) < ITEMS && Off2(p.metas[f].max) < ITEMS
    requires q.metas == p.metas[f := Grown(p.metas[f], Poke(p.metas[f].item, Item2(p.metas[f].max), x))]
    requires q.nodes == p.nodes[x := Poke(p.nodes[x], Off2(p.metas[f].max), c)] && q.used == p.used[x := true]
    requires q.owner == p.owner[x := Second(f, Item2(p.metas[f].max))] && q.chain == Appended(p, f, c)
    ensures q == Cache2(p, f, c, x)
  {
  }

  lemma Cache3Is(p: Pool, f: nat, c: nat, t: nat, l: nat, q: Pool)
    requires Sized(p) && f < |p.metas| && THIRD_BOTTOM <= p.metas[f].max < THIRD_TOP && t < |p.nodes| && l < |p.nodes| && t != l
    requires Item3(p.metas[f].max) < ITEMS && Sub3(p.metas[f].max) < ITEMS && Off3(p.metas[f].max) < ITEMS
    requires q.metas == p.metas[f := Grown(p.metas[f], Poke(p.metas[f].item, Item3(p.metas[f].max), t))]
    requires q.nodes == p.nodes[t := Poke(p.nodes[t], Sub3(p.metas[f].max), l)][l := Poke(p.nodes[l], Off3(p.metas[f].max), c)]
    requires q.used == p.used[t := true][l := true]
    requires q.owner == p.owner[t := Top(f, Item3(p.metas[f].max))][l := Leaf(f, Item3(p.metas[f].max), Sub3(p.metas[f].max))]
    requires q.chain == Appended(p, f, c)
    ensures q == Cache3(p, f, c, t, l)
  {
  }
}
