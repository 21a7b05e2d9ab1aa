/**
 Reading, writing and truncating files of a mounted FAT volume: files as byte sequences.
 */
module FatFiles {
  import opened FatHeap
  import opened FatVolume
  import CI = ClusterIndex

  const U32 := 0x1_0000_0000

  /** Byte q of file f's clusters; zero where it has no cluster yet. */
  ghost function ByteOf(v: Vol, f: nat, q: nat): Byte
    requires Formed(v) && f < |v.h.chain|
  {
    if q / ClusBytes(v) < |v.h.chain[f]| then FileByte(v, f, q) else 0
  }

  /** The first n bytes of file f. */
  ghost function Contents(v: Vol, f: nat, n: nat): (s: seq<Byte>)
    requires Formed(v) && f < |v.h.chain|
    ensures |s| == n
  {
    seq<Byte>(n, (q: nat) requires q < n => ByteOf(v, f, q))
  }

  /** s with src laid over it from byte off on. */
  function Spliced(s: seq<Byte>, off: nat, src: seq<Byte>): seq<Byte>
    requires off <= |s|
  {
    s[..off] + src + if off + |src| <= |s| then s[off + |src|..] else []
  }

  /** From a to b the bytes of f in [off, off + |src|) became src; no other byte of any file changed. */
  ghost predicate Wrote(a: Vol, b: Vol, f: nat, off: nat, src: seq<Byte>) {
    && Formed(a) && Formed(b) && b.spc == a.spc && |b.h.fat| == |a.h.fat| && f < |a.h.chain|
    && |b.h.chain| == |a.h.chain| && a.h.chain[f] <= b.h.chain[f] && b.h.chain == a.h.chain[f := b.h.chain[f]]
    && Orphans(b.h) == Orphans(a.h)
    && |Free(b.h.taken)| + |b.h.chain[f]| == |Free(a.h.taken)| + |a.h.chain[f]|
    && (src != [] ==> (off + |src| - 1) / ClusBytes(a) < |b.h.chain[f]|)
    && forall g: nat, q: nat :: g < |a.h.chain| ==>
         ByteOf(b, g, q) == if g == f && off <= q < off + |src| then src[q - off] else ByteOf(a, g, q)
  }

  lemma GrewWrote(a: Vol, b: Vol, f: nat, off: nat)
    requires Grew(a, b, f)
    ensures Wrote(a, b, f, off, [])
  {
    hide FileByte, Orphans, Free;
    forall g: nat, q: nat | g < |a.h.chain| ensures ByteOf(b, g, q) == ByteOf(a, g, q) {
      if q / ClusBytes(a) < |b.h.chain[g]| {
        GrewBytes(a, b, f, g, q);
      }
    }
  }

  lemma WroteTrans(a: Vol, b: Vol, c: Vol, f: nat, off: nat, s: seq<Byte>, t: seq<Byte>)
    requires Wrote(a, b, f, off, s) && Wrote(b, c, f, off + |s|, t)
    ensures Wrote(a, c, f, off, s + t)
  {
    hide Formed, ByteOf, Orphans, Free;
    forall g: nat, q: nat | g < |a.h.chain|
      ensures Formed(a) && Formed(c) && ByteOf(c, g, q) == if g == f && off <= q < off + |s + t| then (s + t)[q - off] else ByteOf(a, g, q)
    {
      assert ByteOf(b, g, q) == if g == f && off <= q < off + |s| then s[q - off] else ByteOf(a, g, q);
    }
  }

  /** One cluster rewritten is a write of the file. */
  lemma ClusterWrote(a: Vol, b: Vol, f: nat, off: nat, src: seq<Byte>, c: nat)
    requires Formed(a) && f < |a.h.chain| && off / ClusBytes(a) < |a.h.chain[f]| && c == a.h.chain[f][off / ClusBytes(a)]
    requires c < |a.data| && off % ClusBytes(a) + |src| <= ClusBytes(a)
    requires b.h == a.h && b.spc == a.spc && |b.data| == |a.data|
    requires WrittenInto(a.data[c], b.data[c], a.spc, off % ClusBytes(a), src)
    requires forall d :: 0 <= d < |a.data| && d != c ==> b.data[d] == a.data[d]
    ensures Wrote(a, b, f, off, src)
  {
    hide Inv, Orphans, Free;
    assert Formed(b);
    SameClus(a.spc * SECTOR, off, |src|);
    forall g: nat, q: nat | g < |a.h.chain|
      ensures ByteOf(b, g, q) == if g == f && off <= q < off + |src| then src[q - off] else ByteOf(a, g, q)
    {
      if q / ClusBytes(a) < |a.h.chain[g]| {
        ClusterByte(a, b, f, off, src, c, g, q);
      }
    }
  }

  lemma ClusterByte(a: Vol, b: Vol, f: nat, off: nat, src: seq<Byte>, c: nat, g: nat, q: nat)
    requires Formed(a) && Formed(b) && f < |a.h.chain| && off / ClusBytes(a) < |a.h.chain[f]| && c == a.h.chain[f][off / ClusBytes(a)]
    requires c < |a.data| && off % ClusBytes(a) + |src| <= ClusBytes(a)
    requires b.h == a.h && b.spc == a.spc && |b.data| == |a.data|
    requires WrittenInto(a.data[c], b.data[c], a.spc, off % ClusBytes(a), src)
    requires forall d :: 0 <= d < |a.data| && d != c ==> b.data[d] == a.data[d]
    requires g < |a.h.chain| && q / ClusBytes(a) < |a.h.chain[g]|
    ensures FileByte(b, g, q) == if g == f && off <= q < off + |src| then src[q - off] else FileByte(a, g, q)
  {
    hide Inv;
    var cb := ClusBytes(a);
    InFile(a, g, q / cb);
    InFile(a, f, off / cb);
    SameClus(cb, off, |src|);
    if g == f && q / cb == off / cb {
      SameQuotient(cb, off, q);
      assert ByteAt(b.data[c], a.spc, q % cb)
          == if off % cb <= q % cb < off % cb + |src| then src[q % cb - off % cb] else ByteAt(a.data[c], a.spc, q % cb);
    } else {
      assert a.h.chain[g][q / cb] != c;
    }
  }

  lemma SameClus(cb: nat, off: nat, n: nat)
    requires cb > 0 && off % cb + n <= cb
    ensures forall q :: off <= q < off + n ==> q / cb == off / cb
  {
    forall q | off <= q < off + n ensures q / cb == off / cb {
      QuotientIs(cb, off / cb, q, off % cb + (q - off));
    }
  }

  lemma QuotientIs(cb: nat, k: nat, q: nat, r: nat)
    requires cb > 0 && r < cb && q == k * cb + r
    ensures q / cb == k && q % cb == r
  {
    var d := q / cb - k;
    assert q == q / cb * cb + q % cb;
    assert d * cb == r - q % cb;
    assert (d > 0 ==> d * cb >= cb) && (d < 0 ==> d * cb <= 0 - cb);
  }

  lemma SameQuotient(cb: nat, p: nat, q: nat)
    requires cb > 0 && p / cb == q / cb
    ensures q - p == q % cb - p % cb
  {
  }

  // ----- the file operations --------------------------------------------------------------

  /** Clusters that hold the first n bytes. */
  function Clusters(n: nat, cb: nat): nat
    requires cb > 0
  {
    if n == 0 then 0 else (n - 1) / cb + 1
  }

  /** Free index nodes and clusters suffice to reach the first k clusters of file f. */
  ghost predicate Room(ix: CI.Pool, h: Heap, f: nat, k: nat, alloc: bool) {
    && k <= CI.THIRD_TOP && f < |ix.metas| && f < |h.chain|
    && NodesNeeded(ix.metas[f].max, k) <= |CI.Unused(ix.used)|
    && (alloc ==> k - |h.chain[f]| <= |Free(h.taken)|)
  }

  lemma RoomKept(ix: CI.Pool, a: Vol, jx: CI.Pool, b: Vol, f: nat, k: nat, to: nat, alloc: bool)
    requires Room(ix, a.h, f, k, alloc) && to <= k && f < |jx.metas| && Grew(a, b, f)
    requires jx.metas[f].max == CI.Max(ix.metas[f].max, to)
    requires |CI.Unused(jx.used)| == |CI.Unused(ix.used)| - NodesNeeded(ix.metas[f].max, to)
    ensures Room(jx, b.h, f, k, alloc)
  {
    hide Orphans, Formed;
    GrewFree(a, b, f);
    if ix.metas[f].max <= to {
      NodesSplit(ix.metas[f].max, to, k);
    }
  }

  lemma RoomFor(ix: CI.Pool, h: Heap, f: nat, k: nat, to: nat, alloc: bool)
    requires Room(ix, h, f, k, alloc) && to <= k
    ensures Room(ix, h, f, to, alloc)
  {
    if ix.metas[f].max <= to {
      NodesSplit(ix.metas[f].max, to, k);
    }
  }

  /** rwClus writing into the cluster where relocClus left the file. */
  method RwAt(vol: Volume, f: nat, off: nat, src: seq<Byte>)
    requires vol.Valid() && f < |vol.first| && vol.first[f] != 0 && off / (vol.spc * SECTOR) < |vol.chain[f]|
    requires vol.index.metas[f].cur == vol.chain[f][off / (vol.spc * SECTOR)]
    requires off % (vol.spc * SECTOR) + |src| <= vol.spc * SECTOR
    modifies vol`data
    ensures vol.Valid() && vol.V().h == old(vol.V().h) && Wrote(old(vol.V()), vol.V(), f, off, src)
  {
    hide FatHeap.Inv, CI.Inv, Wrote, WrittenInto;
    ghost var b := vol.V();
    var c := vol.index.metas[f].cur;
    AtFile(b, f, off);
    var after := RwClusWrite(vol.data[c], vol.spc, src, off % (vol.spc * SECTOR));
    vol.data := vol.data[c := after];
    ClusterWrote(b, vol.V(), f, off, src, c);
    TiedWrote(vol.index.View(), b, vol.V(), vol.first, vol.size, f, off, src);
  }

  /** One turn of the write loop: relocClus, then as many bytes as the cluster takes. */
  method WriteStep(vol: Volume, f: nat, off: nat, src: seq<Byte>, ghost k: nat)
    requires vol.Valid() && f < |vol.first| && vol.first[f] != 0 && Room(vol.index.View(), vol.V().h, f, k, true)
    requires off / (vol.spc * SECTOR) < k && off % (vol.spc * SECTOR) + |src| <= vol.spc * SECTOR
    modifies vol`fat, vol`taken, vol`data, vol`chain, vol`home, vol.index
    ensures vol.Valid() && Room(vol.index.View(), vol.V().h, f, k, true) && Wrote(old(vol.V()), vol.V(), f, off, src)
    ensures |vol.chain[f]| == CI.Max(|old(vol.chain[f])|, off / (vol.spc * SECTOR) + 1)
  {
    hide FatHeap.Inv, CI.Inv, Grew, Wrote, Tied;
    ghost var a := vol.V();
    ghost var ix := vol.index.View();
    ghost var to := off / (vol.spc * SECTOR) + 1;
    RoomFor(ix, a.h, f, k, to, true);
    var at := vol.RelocClus(f, off, true);
    ghost var b := vol.V();
    RoomKept(ix, a, vol.index.View(), b, f, k, to, true);
    GrewWrote(a, b, f, off);
    RwAt(vol, f, off, src);
    WroteTrans(a, b, vol.V(), f, off, [], src);
    assert [] + src == src;
  }

  lemma AtFile(v: Vol, f: nat, q: nat)
    requires Formed(v) && f < |v.h.chain| && v.spc > 0 && q / (v.spc * SECTOR) < |v.h.chain[f]|
    ensures v.h.chain[f][q / (v.spc * SECTOR)] < |v.data| && ClusterOk(v.data[v.h.chain[f][q / (v.spc * SECTOR)]], v.spc)
  {
    InFile(v, f, q / (v.spc * SECTOR));
  }

  lemma TiedWrote(ix: CI.Pool, a: Vol, b: Vol, first: seq<nat>, size: seq<nat>, f: nat, off: nat, src: seq<Byte>)
    requires AllTied(ix, a, first, size) && f < |first| && Wrote(a, b, f, off, src) && a.h.chain[f] != []
    ensures AllTied(ix, b, first, size)
  {
    hide Orphans, Free, ByteOf;
    forall g: nat | g < |first| ensures Tied(ix, b, first, size, g) {
      assert Tied(ix, a, first, size, g);
    }
  }

  /** metaWrite's first branch: a file without clusters gets one. */
  method FirstCluster(vol: Volume, f: nat)
    requires vol.Valid() && f < |vol.first| && vol.first[f] == 0 && Free(vol.taken) != {}
    modifies vol`fat, vol`taken, vol`data, vol`chain, vol`home, vol`first, vol.index
    ensures vol.Valid() && Grew(old(vol.V()), vol.V(), f) && |vol.chain[f]| == 1
    ensures vol.first == old(vol.first)[f := vol.chain[f][0]] && vol.first[f] != 0
    ensures |vol.index.metas| == |old(vol.index.metas)| && vol.index.metas[f].max == 1 && vol.index.used == old(vol.index.used)
  {
    hide CI.Inv, FatHeap.Inv, Grew, Zeroed;
    ghost var a := vol.V();
    ghost var ix := vol.index.View();
    NoCluster(ix, a, vol.first, vol.size, f);
    var c := vol.AllocClus();
    ghost var mid := vol.V();
    FormedSizes(mid);
    JoinGrew(a, mid, f, c);
    vol.index.StartFile(f, c);
    vol.chain, vol.home := vol.chain[f := vol.chain[f] + [c]], vol.home[c := (f, |vol.chain[f]|)];
    assert vol.V() == Vol(Joined(mid.h, f, c), mid.data, mid.spc);
    MarkedLow(a, c);
    CI.SizedInv(ix);
    CI.SizedInv(vol.index.View());
    ghost var was := vol.first;
    vol.first := vol.first[f := c];
    TiedStart(ix, vol.index.View(), a, vol.V(), was, vol.size, f, c);
  }

  lemma NoCluster(ix: CI.Pool, v: Vol, first: seq<nat>, size: seq<nat>, f: nat)
    requires AllTied(ix, v, first, size) && f < |first| && first[f] == 0
    ensures CI.Inv(ix) && f < |ix.metas| == |v.h.chain| && v.h.chain[f] == [] && ix.metas[f].max <= 1
  {
    assert Tied(ix, v, first, size, f);
    if v.h.chain[f] != [] {
      FirstLow(v, f);
    }
  }

  lemma FirstLow(v: Vol, f: nat)
    requires Formed(v) && f < |v.h.chain| && v.h.chain[f] != []
    ensures 2 <= v.h.chain[f][0] < |v.h.fat| <= EOC
  {
    assert InChain(v.h, f, 0) && LinkAt(v.h, f, 0);
  }

  lemma MarkedLow(a: Vol, c: nat)
    requires Formed(a) && c < |a.h.taken| && !a.h.taken[c]
    ensures 2 <= c < EOC
  {
  }

  lemma TiedStart(ix: CI.Pool, jx: CI.Pool, a: Vol, b: Vol, first: seq<nat>, size: seq<nat>, f: nat, c: nat)
    requires AllTied(ix, a, first, size) && f < |first| && Grew(a, b, f) && a.h.chain[f] == [] && b.h.chain[f] == [c] && 2 <= c < EOC
    requires CI.Inv(jx) && |jx.metas| == |ix.metas| && f < |ix.chain| && jx.chain == ix.chain[f := [c]]
    requires forall g :: 0 <= g < |ix.metas| && g != f ==> jx.metas[g] == ix.metas[g]
    requires CI.Sized(jx) && jx.metas[f].max == 1 && jx.metas[f].item[0] == c == jx.metas[f].cur
    ensures AllTied(jx, b, first[f := c], size)
  {
    hide Orphans, Free, CI.Inv, FatHeap.Inv, Zeroed;
    CI.SizedInv(ix);
    var now := first[f := c];
    forall g: nat | g < |now| ensures Tied(jx, b, now, size, g) {
      assert Tied(ix, a, first, size, g);
      assert g != f ==> b.h.chain[g] == a.h.chain[g] && jx.chain[g] == ix.chain[g];
    }
  }

  /** The file's new size covers only bytes that have a cluster. */
  lemma TiedSize(ix: CI.Pool, v: Vol, first: seq<nat>, size: seq<nat>, f: nat, n: nat)
    requires AllTied(ix, v, first, size) && f < |first| && n > 0 && Clusters(n, ClusBytes(v)) <= |v.h.chain[f]|
    ensures AllTied(ix, v, first, size[f := n])
  {
    hide FatHeap.Inv, CI.Inv;
    CI.SizedInv(ix);
    var now := size[f := n];
    assert (n - 1) / ClusBytes(v) < |v.h.chain[f]|;
    forall g: nat | g < |first| ensures Tied(ix, v, first, now, g) {
      assert Tied(ix, v, first, size, g);
    }
  }

  /** Clusters that an access to n bytes from off on has to reach. */
  function Reach(off: nat, n: nat, cb: nat): nat
    requires cb > 0
  {
    if n == 0 then 0 else Clusters(off + n, cb)
  }

  lemma SizeHeld(ix: CI.Pool, v: Vol, first: seq<nat>, size: seq<nat>, f: nat)
    requires AllTied(ix, v, first, size) && f < |first|
    ensures Clusters(size[f], ClusBytes(v)) <= |v.h.chain[f]| && v.spc > 0
    ensures v.h.chain[f] == [] <==> first[f] == 0
    ensures first[f] != 0 ==> f < |ix.metas| && ix.metas[f].cur < EOC
  {
    assert Tied(ix, v, first, size, f);
    if v.h.chain[f] != [] {
      FirstLow(v, f);
    }
  }

  /** The bytes up to a position inside the written range lie in the clusters it reaches. */
  lemma Within(off: nat, n: nat, cb: nat, p: nat)
    requires cb > 0 && p < off + n
    ensures p / cb < Clusters(off + n, cb)
  {
    assert p <= off + n - 1;
  }

  lemma FitsCluster(cb: nat, p: nat, m: nat)
    requires cb > 0 && m <= cb - p % cb
    ensures p % cb + m <= cb
  {
  }

  /** metaWrite. */
  method MetaWrite(vol: Volume, f: nat, readOnly: bool, off: nat, src: seq<Byte>) returns (r: int)
    requires vol.Valid() && f < |vol.first| && off < U32 && |src| < U32 && vol.spc > 0
    requires !readOnly && off + |src| < U32 ==>
               Room(vol.index.View(), vol.V().h, f, CI.Max(Reach(off, |src|, vol.spc * SECTOR), if vol.first[f] == 0 then 1 else 0), true)
    modifies vol`fat, vol`taken, vol`data, vol`chain, vol`home, vol`first, vol`size, vol.index
    ensures vol.Valid() && |vol.size| == |old(vol.size)| == |vol.chain|
    ensures r == if readOnly || off + |src| >= 0x1_0000_0000 then -1 else |src|
    ensures r == -1 ==> vol.V() == old(vol.V()) && vol.size == old(vol.size) && vol.first == old(vol.first)
    ensures r != -1 ==> Wrote(old(vol.V()), vol.V(), f, off, src)
                        && vol.size == old(vol.size)[f := if src == [] || old(vol.size)[f] >= off + |src| then old(vol.size)[f] else off + |src|]
  {
    hide Formed, FatHeap.Inv, CI.Inv, Grew, Wrote, Tied, Room;
    var n, o := |src|, off;
    if (off + n) % U32 < off || off + n > 0xffff_ffff || readOnly {
      return -1;
    }
    ghost var a := vol.V();
    ghost var k := Reach(off, n, vol.spc * SECTOR);
    SizeHeld(vol.index.View(), a, vol.first, vol.size, f);
    if vol.first[f] == 0 {
      StartRoom(vol, f, k);
    } else {
      GrewSelf(a, f);
      RoomFor(vol.index.View(), vol.V().h, f, CI.Max(k, 0), k, true);
    }
    GrewWrote(a, vol.V(), f, off);
    var tot := 0;
    while tot < n
      invariant 0 <= tot <= n && o == off + tot && vol.Valid() && Wrote(a, vol.V(), f, off, src[..tot])
      invariant Room(vol.index.View(), vol.V().h, f, k, true)
      invariant vol.size == old(vol.size) && |vol.first| == |old(vol.first)| && vol.first[f] != 0
    {
      var m := vol.spc * SECTOR - o % (vol.spc * SECTOR);
      if n - tot < m {
        m := n - tot;
      }
      Within(off, n, vol.spc * SECTOR, o);
      FitsCluster(vol.spc * SECTOR, o, m);
      ghost var b := vol.V();
      WriteStep(vol, f, o, src[tot..tot + m], k);
      WroteTrans(a, b, vol.V(), f, off, src[..tot], src[tot..tot + m]);
      assert src[..tot] + src[tot..tot + m] == src[..tot + m];
      tot, o := tot + m, o + m;
    }
    assert src[..tot] == src;
    if n > 0 && o > vol.size[f] {
      WroteReach(a, vol.V(), f, off, src);
      ghost var was := vol.size;
      vol.size := vol.size[f := o];
      TiedSize(vol.index.View(), vol.V(), vol.first, was, f, o);
    }
    WroteShape(a, vol.V(), f, off, src);
    return n;
  }

  lemma WroteShape(a: Vol, b: Vol, f: nat, off: nat, src: seq<Byte>)
    requires Wrote(a, b, f, off, src)
    ensures |b.h.chain| == |a.h.chain|
  {
  }

  lemma WroteReach(a: Vol, b: Vol, f: nat, off: nat, src: seq<Byte>)
    requires Wrote(a, b, f, off, src) && src != [] && a.spc > 0
    ensures Clusters(off + |src|, ClusBytes(a)) <= |b.h.chain[f]| && ClusBytes(b) == ClusBytes(a)
  {
  }

  method StartRoom(vol: Volume, f: nat, ghost k: nat)
    requires vol.Valid() && f < |vol.first| && vol.first[f] == 0 && Room(vol.index.View(), vol.V().h, f, CI.Max(k, 1), true)
    modifies vol`fat, vol`taken, vol`data, vol`chain, vol`home, vol`first, vol.index
    ensures vol.Valid() && Grew(old(vol.V()), vol.V(), f) && Room(vol.index.View(), vol.V().h, f, k, true)
    ensures |vol.first| == |old(vol.first)| && vol.first[f] != 0
  {
    hide FatHeap.Inv, CI.Inv, Grew, Tied;
    ghost var a := vol.V();
    ghost var ix := vol.index.View();
    NoCluster(ix, a, vol.first, vol.size, f);
    FirstCluster(vol, f);
    GrewFree(a, vol.V(), f);
    RoomFor(ix, a.h, f, CI.Max(k, 1), k, true);
    NodesSplit(0, 1, CI.Max(k, 1));
  }

  /** One turn of the read loop. */
  method ReadStep(vol: Volume, f: nat, off: nat, m: nat, ghost k: nat) returns (dst: seq<Byte>)
    requires vol.Valid() && f < |vol.first| && vol.first[f] != 0 && Room(vol.index.View(), vol.V().h, f, k, false)
    requires off / (vol.spc * SECTOR) < k <= |vol.chain[f]| && off % (vol.spc * SECTOR) + m <= vol.spc * SECTOR
    modifies vol`fat, vol`taken, vol`data, vol`chain, vol`home, vol.index
    ensures vol.Valid() && vol.V() == old(vol.V()) && Room(vol.index.View(), vol.V().h, f, k, false)
    ensures |dst| == m && forall i :: 0 <= i < m ==> dst[i] == ByteOf(vol.V(), f, off + i)
  {
    hide FatHeap.Inv, CI.Inv, Grew, Tied;
    ghost var a := vol.V();
    ghost var ix := vol.index.View();
    ghost var to := off / (vol.spc * SECTOR) + 1;
    RoomFor(ix, a.h, f, k, to, false);
    var at := vol.RelocClus(f, off, false);
    RoomKept(ix, a, vol.index.View(), a, f, k, to, false);
    var c := vol.index.metas[f].cur;
    AtFile(a, f, off);
    dst := RwClusRead(vol.data[c], vol.spc, off % (vol.spc * SECTOR), m);
    forall i | 0 <= i < m ensures dst[i] == ByteOf(a, f, off + i) {
      QuotientIs(vol.spc * SECTOR, off / (vol.spc * SECTOR), off + i, off % (vol.spc * SECTOR) + i);
    }
  }

  /** How many of n bytes from off on lie within a file of the given size. */
  function Clipped(off: nat, n: nat, size: nat): nat
    requires off <= size
  {
    if off + n > size then size - off else n
  }

  lemma ReachInside(off: nat, n: nat, size: nat, cb: nat)
    requires cb > 0 && off + n <= size
    ensures Reach(off, n, cb) <= Clusters(size, cb)
  {
    if n > 0 {
      Within(0, size, cb, off + n - 1);
    }
  }

  /** The read loop, cluster by cluster. */
  method ReadSpan(vol: Volume, f: nat, off: nat, n: nat) returns (dst: seq<Byte>)
    requires vol.Valid() && f < |vol.first| && vol.spc > 0 && off + n <= vol.size[f]
    requires Room(vol.index.View(), vol.V().h, f, Reach(off, n, vol.spc * SECTOR), false)
    modifies vol`fat, vol`taken, vol`data, vol`chain, vol`home, vol.index
    ensures vol.Valid() && vol.V() == old(vol.V())
    ensures |dst| == n && forall i :: 0 <= i < n ==> dst[i] == ByteOf(vol.V(), f, off + i)
  {
    hide FatHeap.Inv, CI.Inv, Grew, Tied, ByteOf, Room, Reach, Clusters;
    dst := [];
    ghost var a := vol.V();
    ghost var k := Reach(off, n, vol.spc * SECTOR);
    var o, tot := off, 0;
    SizeHeld(vol.index.View(), a, vol.first, vol.size, f);
    ReachInside(off, n, vol.size[f], vol.spc * SECTOR);
    HasCluster(vol.index.View(), a, vol.first, vol.size, f);
    while tot < n && vol.index.metas[f].cur < EOC
      invariant 0 <= tot <= n && o == off + tot && |dst| == tot && vol.Valid() && vol.V() == a
      invariant Room(vol.index.View(), a.h, f, k, false)
      invariant n > 0 ==> vol.first[f] != 0 && f < |vol.index.metas| && vol.index.metas[f].cur < EOC
      invariant forall i :: 0 <= i < tot ==> dst[i] == ByteOf(a, f, off + i)
      decreases n - tot
    {
      var m := vol.spc * SECTOR - o % (vol.spc * SECTOR);
      if n - tot < m {
        m := n - tot;
      }
      WithinReach(off, n, vol.spc * SECTOR, o);
      FitsCluster(vol.spc * SECTOR, o, m);
      var part := ReadStep(vol, f, o, m, k);
      dst := dst + part;
      tot, o := tot + m, o + m;
      SizeHeld(vol.index.View(), a, vol.first, vol.size, f);
    }
  }

  lemma HasCluster(ix: CI.Pool, v: Vol, first: seq<nat>, size: seq<nat>, f: nat)
    requires AllTied(ix, v, first, size) && f < |first|
    ensures f < |ix.metas| && (size[f] > 0 ==> first[f] != 0)
  {
    SizeHeld(ix, v, first, size, f);
    assert Tied(ix, v, first, size, f);
  }

  lemma WithinReach(off: nat, n: nat, cb: nat, p: nat)
    requires cb > 0 && off <= p < off + n
    ensures p / cb < Reach(off, n, cb)
  {
    Within(off, n, cb, p);
  }

  /** metaRead of an ordinary file or directory. */
  method MetaRead(vol: Volume, f: nat, directory: bool, off: nat, n: nat) returns (dst: seq<Byte>)
    requires vol.Valid() && f < |vol.first| && off < U32 && n < U32 && vol.spc > 0
    requires off <= vol.size[f] ==>
               Room(vol.index.View(), vol.V().h, f, Reach(off, Clipped(off, n, vol.size[f]), vol.spc * SECTOR), false)
    modifies vol`fat, vol`taken, vol`data, vol`chain, vol`home, vol.index
    ensures vol.Valid() && vol.V() == old(vol.V())
    ensures dst == if off > vol.size[f] || off + n >= 0x1_0000_0000 || directory then []
                   else Contents(vol.V(), f, vol.size[f])[off..if off + n > vol.size[f] then vol.size[f] else off + n]
  {
    hide FatHeap.Inv, CI.Inv, Tied, ByteOf, Room, Reach;
    if off > vol.size[f] || (off + n) % U32 < off || directory {
      return [];
    }
    var len := n;
    if off + n > vol.size[f] {
      len := vol.size[f] - off;
    }
    dst := ReadSpan(vol, f, off, len);
  }

  // ----- truncation -----------------------------------------------------------------------

  /** Table and bitmap with the first i clusters of chain f given back. */
  ghost predicate Freed(h: Heap, fat: seq<nat>, taken: seq<bool>, f: nat, i: nat) {
    && |fat| == |h.fat| && |taken| == |h.taken|
    && forall c: nat :: c < |h.fat| && c < |h.taken| ==>
         if c in h.home && h.home[c].0 == f && h.home[c].1 < i then fat[c] == 0 && !taken[c]
         else fat[c] == h.fat[c] && taken[c] == h.taken[c]
  }

  /** The loop of metaTrunc follows the table it is clearing; every entry is read before it is cleared. */
  lemma FreedNext(h: Heap, fat: seq<nat>, taken: seq<bool>, f: nat, i: nat)
    requires Inv(h) && InChain(h, f, i) && Freed(h, fat, taken, f, i)
    ensures var c := h.chain[f][i];
            && 2 <= c < |fat| && c < |taken| && |h.fat| <= EOC
            && (if i + 1 < |h.chain[f]| then fat[c] == h.chain[f][i + 1] && 2 <= fat[c] < EOC else fat[c] >= EOC)
            && Freed(h, fat[c := 0], taken[c := false], f, i + 1)
  {
    var c := h.chain[f][i];
    assert LinkAt(h, f, i);
    if i + 1 < |h.chain[f]| {
      assert InChain(h, f, i + 1) && LinkAt(h, f, i + 1);
    }
    forall d: nat | d in h.home && h.home[d].0 == f && h.home[d].1 == i ensures d == c {
      assert InChain(h, h.home[d].0, h.home[d].1);
    }
  }

  /** freeClus. */
  method FreeClus(vol: Volume, cluster: nat)
    requires cluster < |vol.fat| && cluster < |vol.taken|
    modifies vol`fat, vol`taken
    ensures vol.fat == old(vol.fat)[cluster := 0] && vol.taken == old(vol.taken)[cluster := false]
  {
    var done := vol.WriteFat(cluster, 0);
    vol.taken := vol.taken[cluster := false];
  }

  /** The loop of metaTrunc. */
  method FreeChain(vol: Volume, f: nat)
    requires vol.Valid() && f < |vol.first|
    modifies vol`fat, vol`taken, vol`chain, vol`home
    ensures Emptied(old(vol.V()).h, vol.V().h, f) && vol.chain == old(vol.chain)[f := []] && FatHeap.Inv(vol.V().h)
  {
    hide FatHeap.Inv, CI.Inv, Tied, Freed, Emptied, Formed;
    ghost var a := vol.V();
    ChainStart(vol.index.View(), a, vol.first, vol.size, f);
    FreedStart(a.h, f);
    var clus := vol.first[f];
    ghost var i := 0;
    while 2 <= clus < EOC
      invariant i <= |a.h.chain[f]| && Freed(a.h, vol.fat, vol.taken, f, i)
      invariant if i < |a.h.chain[f]| then clus == a.h.chain[f][i] && 2 <= clus < EOC else !(2 <= clus < EOC)
      decreases |a.h.chain[f]| - i
      modifies vol`fat, vol`taken
    {
      FreedNext(a.h, vol.fat, vol.taken, f, i);
      var next := vol.ReadFat(clus);
      FreeClus(vol, clus);
      clus := next;
      i := i + 1;
    }
    vol.home := map c | c in vol.home && vol.home[c].0 != f :: vol.home[c];
    vol.chain := vol.chain[f := []];
    FreedAll(a.h, vol.V().h, f);
    EmptiedInv(a.h, vol.V().h, f);
  }

  /** metaTrunc: exactly the file's clusters become free, and no other file notices. */
  method MetaTrunc(vol: Volume, f: nat)
    requires vol.Valid() && f < |vol.first|
    modifies vol`fat, vol`taken, vol`chain, vol`home, vol`first, vol`size, vol.index
    ensures vol.Valid() && vol.first == old(vol.first)[f := 0] && vol.size == old(vol.size)[f := 0]
    ensures Truncated(old(vol.V()), vol.V(), f)
  {
    hide FatHeap.Inv, CI.Inv, Tied, Emptied, Formed, Truncated;
    ghost var a := vol.V();
    ghost var ix := vol.index.View();
    ghost var first, size := vol.first, vol.size;
    ChainStart(ix, a, first, size, f);
    FreeChain(vol, f);
    EmptiedTruncated(a, vol.V(), f);
    vol.size := vol.size[f := 0];
    vol.first := vol.first[f := 0];
    vol.index.MetaFreeInode(f);
    TiedEmptied(ix, vol.index.View(), a, vol.V(), first, size, f);
  }

  /** File f gave back its clusters and nothing else changed. */
  ghost predicate Truncated(a: Vol, b: Vol, f: nat) {
    && Formed(a) && Formed(b) && f < |a.h.chain| && b.h.chain == a.h.chain[f := []] && b.spc == a.spc
    && Emptied(a.h, b.h, f) && Orphans(b.h) == Orphans(a.h)
    && Free(b.h.taken) == Free(a.h.taken) + (set i: nat | i < |a.h.chain[f]| :: a.h.chain[f][i])
    && forall g: nat, n: nat :: g < |b.h.chain| && g != f ==> Contents(b, g, n) == Contents(a, g, n)
  }

  lemma FreedStart(h: Heap, f: nat)
    requires Inv(h)
    ensures Freed(h, h.fat, h.taken, f, 0)
  {
  }

  lemma ChainStart(ix: CI.Pool, v: Vol, first: seq<nat>, size: seq<nat>, f: nat)
    requires AllTied(ix, v, first, size) && f < |first|
    ensures f < |v.h.chain| && f < |ix.metas| == |ix.chain| && CI.Inv(ix) && Formed(v) && Inv(v.h)
    ensures if v.h.chain[f] == [] then first[f] == 0 else first[f] == v.h.chain[f][0] && 2 <= first[f] < EOC
  {
    assert Tied(ix, v, first, size, f);
    if v.h.chain[f] != [] {
      FirstLow(v, f);
    }
  }

  lemma FreedAll(h: Heap, n: Heap, f: nat)
    requires Inv(h) && f < |h.chain| && Freed(h, n.fat, n.taken, f, |h.chain[f]|)
    requires n.chain == h.chain[f := []] && n.home == map c | c in h.home && h.home[c].0 != f :: h.home[c]
    ensures Emptied(h, n, f)
  {
    forall c: nat | c < |h.fat| && c in h.home && h.home[c].0 == f
      ensures n.fat[c] == 0 && !n.taken[c]
    {
      assert InChain(h, h.home[c].0, h.home[c].1);
    }
  }

  lemma EmptiedTruncated(a: Vol, b: Vol, f: nat)
    requires Formed(a) && f < |a.h.chain| && Emptied(a.h, b.h, f) && b.data == a.data && b.spc == a.spc
    ensures Truncated(a, b, f) && Formed(b)
  {
    hide Inv;
    EmptiedInv(a.h, b.h, f);
    assert Formed(b);
    forall g: nat, n: nat | g < |b.h.chain| && g != f ensures Contents(b, g, n) == Contents(a, g, n) {
      assert forall q: nat :: ByteOf(b, g, q) == ByteOf(a, g, q);
    }
  }

  lemma TiedEmptied(ix: CI.Pool, jx: CI.Pool, a: Vol, b: Vol, first: seq<nat>, size: seq<nat>, f: nat)
    requires AllTied(ix, a, first, size) && f < |first| && Formed(b) && b.h.chain == a.h.chain[f := []] && b.spc == a.spc
    requires CI.Inv(jx) && |jx.metas| == |ix.metas| && f < |ix.chain| && jx.chain == ix.chain[f := []] && jx.metas[f].max == 0
    requires forall g :: 0 <= g < |ix.metas| && g != f ==> jx.metas[g] == ix.metas[g]
    ensures AllTied(jx, b, first[f := 0], size[f := 0])
  {
    hide FatHeap.Inv, CI.Inv;
    CI.SizedInv(ix);
    CI.SizedInv(jx);
    var p, s := first[f := 0], size[f := 0];
    forall g: nat | g < |p| ensures Tied(jx, b, p, s, g) {
      assert Tied(ix, a, first, size, g);
    }
  }

  // ----- files as byte sequences ------------------------------------------------------------

  /**
   A write at or before the end of a file makes its contents the old ones with src laid over them;
   every other file keeps its contents.
   */
  lemma WriteSplices(a: Vol, b: Vol, f: nat, off: nat, src: seq<Byte>, size: nat)
    requires Wrote(a, b, f, off, src) && off <= size
    ensures Contents(b, f, CI.Max(size, off + |src|)) == Spliced(Contents(a, f, size), off, src)
  {
    hide Formed, ByteOf, Orphans, Free;
    var new_, old_ := Contents(b, f, CI.Max(size, off + |src|)), Contents(a, f, size);
    forall q: nat | q < |new_| ensures new_[q] == Spliced(old_, off, src)[q] {
      assert ByteOf(b, f, q) == if off <= q < off + |src| then src[q - off] else ByteOf(a, f, q);
    }
  }

  lemma WriteKeeps(a: Vol, b: Vol, f: nat, off: nat, src: seq<Byte>, g: nat, size: nat)
    requires Wrote(a, b, f, off, src) && g < |a.h.chain| && g != f
    ensures Contents(b, g, size) == Contents(a, g, size)
  {
    hide Formed, ByteOf, Orphans, Free;
    forall q: nat | q < size ensures Contents(b, g, size)[q] == Contents(a, g, size)[q] {
      assert ByteOf(b, g, q) == ByteOf(a, g, q);
    }
  }

  /** Reading back a range just written gives the bytes written, wherever the write began. */
  lemma ReadsBack(a: Vol, b: Vol, f: nat, off: nat, src: seq<Byte>, size: nat)
    requires Wrote(a, b, f, off, src) && off + |src| <= size
    ensures Contents(b, f, size)[off..off + |src|] == src
  {
    hide Formed, ByteOf, Orphans, Free;
    var now := Contents(b, f, size);
    forall i: nat | i < |src| ensures now[off..off + |src|][i] == src[i] {
      assert ByteOf(b, f, off + i) == src[i];
    }
  }
}
