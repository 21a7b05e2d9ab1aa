/**
 A mounted FAT volume: allocation, the walk from a file offset to a cluster, and the sector and
 cluster loops of reading and writing. Files stand for byte sequences.
 */
module FatVolume {
  import opened FatHeap
  import CI = ClusterIndex

  type Byte = b: int | 0 <= b < 256
  const SECTOR := 512

  /** A cluster is its sectors; sector k of cluster c is the device's SectorNumber below. */
  type Cluster = seq<seq<Byte>>

  /** firstSecOfClus plus the sector's place in the cluster. */
  function SectorNumber(firstDataSec: nat, spc: nat, c: nat, k: nat): nat
    requires c >= 2
  {
    (c - 2) * spc + firstDataSec + k
  }

  /** Different sectors of the data area have different numbers, so a pair names a sector. */
  lemma SectorsDistinct(firstDataSec: nat, spc: nat, c: nat, k: nat, d: nat, l: nat)
    requires c >= 2 && d >= 2 && k < spc && l < spc
    requires SectorNumber(firstDataSec, spc, c, k) == SectorNumber(firstDataSec, spc, d, l)
    ensures c == d && k == l
  {
    if c < d {
      NextCluster(c - 2, d - 2, spc);
    } else if d < c {
      NextCluster(d - 2, c - 2, spc);
    }
  }

  /** Cluster 2 begins where the data area does; sectors follow one another, and clusters follow after spc sectors. */
  lemma SectorsInOrder(firstDataSec: nat, spc: nat, c: nat, k: nat)
    requires c >= 2
    ensures SectorNumber(firstDataSec, spc, 2, 0) == firstDataSec
    ensures SectorNumber(firstDataSec, spc, c, k + 1) == SectorNumber(firstDataSec, spc, c, k) + 1
    ensures SectorNumber(firstDataSec, spc, c + 1, k) == SectorNumber(firstDataSec, spc, c, k) + spc
  {
    assert (c + 1 - 2) * spc == (c - 2) * spc + spc;
  }

  lemma NextCluster(a: nat, b: nat, spc: nat)
    requires a < b
    ensures a * spc + spc <= b * spc
  {
    var n := b - a;
    assert b * spc == a * spc + n * spc;
    assert n * spc == spc + (n - 1) * spc;
  }

  ghost predicate ClusterOk(c: Cluster, spc: nat) {
    |c| == spc && forall k :: 0 <= k < spc ==> |c[k]| == SECTOR
  }

  /** Byte o of a cluster. */
  function ByteAt(c: Cluster, spc: nat, o: nat): Byte
    requires ClusterOk(c, spc) && o < spc * SECTOR
  {
    c[o / SECTOR][o % SECTOR]
  }

  function ZeroSector(): (s: seq<Byte>)
    ensures |s| == SECTOR && forall i :: 0 <= i < SECTOR ==> s[i] == 0
  {
    seq<Byte>(SECTOR, _ => 0)
  }

  /** The cluster with src written from byte off on. */
  ghost predicate WrittenInto(before: Cluster, after: Cluster, spc: nat, off: nat, src: seq<Byte>) {
    && ClusterOk(before, spc) && ClusterOk(after, spc)
    && forall o: nat :: o < spc * SECTOR ==>
         ByteAt(after, spc, o) == if off <= o < off + |src| then src[o - off] else ByteAt(before, spc, o)
  }

  lemma SectorStep(before: Cluster, mid: Cluster, after: Cluster, spc: nat, off: nat, src: seq<Byte>, tot: nat, m: nat)
    requires off + |src| <= spc * SECTOR && tot + m <= |src| && WrittenInto(before, mid, spc, off, src[..tot])
    requires (off + tot) / SECTOR < spc && (off + tot) % SECTOR + m <= SECTOR
    requires after == mid[(off + tot) / SECTOR :=
               mid[(off + tot) / SECTOR][..(off + tot) % SECTOR] + src[tot..tot + m] + mid[(off + tot) / SECTOR][(off + tot) % SECTOR + m..]]
    ensures WrittenInto(before, after, spc, off, src[..tot + m])
  {
    var k, at := (off + tot) / SECTOR, (off + tot) % SECTOR;
    SameSector(off + tot, m);
    forall o: nat | o < spc * SECTOR
      ensures ByteAt(after, spc, o) == if off <= o < off + tot + m then src[o - off] else ByteAt(before, spc, o)
    {
      assert ByteAt(mid, spc, o) == if off <= o < off + tot then src[..tot][o - off] else ByteAt(before, spc, o);
      if o / SECTOR == k {
        assert o == k * SECTOR + o % SECTOR && off + tot == k * SECTOR + at;
      }
    }
  }

  /** rwClus writing: sector by sector, each read, patched and written back. */
  method RwClusWrite(cluster: Cluster, spc: nat, src: seq<Byte>, off: nat) returns (after: Cluster)
    requires ClusterOk(cluster, spc) && off + |src| <= spc * 512
    ensures WrittenInto(cluster, after, spc, off, src)
    ensures |after| == |cluster| == spc && forall k :: 0 <= k < spc ==> |after[k]| == |cluster[k]| == 512
    ensures forall k: nat, i: nat :: k < spc && i < 512 ==>
              after[k][i] == if off <= k * 512 + i < off + |src| then src[k * 512 + i - off] else cluster[k][i]
  {
    hide WrittenInto;
    after := cluster;
    var sec: nat, o: nat := off / SECTOR, off % SECTOR;
    var tot := 0;
    NothingWritten(cluster, spc, off, src);
    while tot < |src|
      invariant 0 <= tot <= |src| && WrittenInto(cluster, after, spc, off, src[..tot]) && ClusterOk(after, spc)
      invariant tot < |src| ==> sec == (off + tot) / SECTOR && o % SECTOR == (off + tot) % SECTOR
    {
      var m := SECTOR - o % SECTOR;
      if |src| - tot < m {
        m := |src| - tot;
      }
      InsideCluster(spc, off, |src|, tot);
      ghost var mid := after;
      after := after[sec := after[sec][..o % SECTOR] + src[tot..tot + m] + after[sec][o % SECTOR + m..]];
      SectorStep(cluster, mid, after, spc, off, src, tot, m);
      NextSector(off, tot, o, m, |src|);
      tot, o, sec := tot + m, o + m, sec + 1;
      StillOk(cluster, after, spc, off, src[..tot]);
    }
    assert src[..tot] == src;
    WrittenAt(cluster, after, spc, off, src);
  }

  /** The same by sector and place. */
  lemma WrittenAt(before: Cluster, after: Cluster, spc: nat, off: nat, src: seq<Byte>)
    requires WrittenInto(before, after, spc, off, src)
    ensures |after| == |before| == spc && forall k :: 0 <= k < spc ==> |after[k]| == |before[k]| == 512
    ensures forall k: nat, i: nat :: k < spc && i < 512 ==>
              after[k][i] == if off <= k * 512 + i < off + |src| then src[k * 512 + i - off] else before[k][i]
  {
    forall k: nat, i: nat | k < spc && i < 512
      ensures after[k][i] == if off <= k * 512 + i < off + |src| then src[k * 512 + i - off] else before[k][i]
    {
      var o := k * 512 + i;
      assert o / 512 == k && o % 512 == i;
      assert ByteAt(after, spc, o) == if off <= o < off + |src| then src[o - off] else ByteAt(before, spc, o);
    }
  }

  lemma NothingWritten(c: Cluster, spc: nat, off: nat, src: seq<Byte>)
    requires ClusterOk(c, spc)
    ensures WrittenInto(c, c, spc, off, src[..0])
  {
  }

  lemma StillOk(before: Cluster, after: Cluster, spc: nat, off: nat, src: seq<Byte>)
    requires WrittenInto(before, after, spc, off, src)
    ensures ClusterOk(after, spc)
  {
  }

  lemma InsideCluster(spc: nat, off: nat, n: nat, tot: nat)
    requires off + n <= spc * SECTOR && tot < n
    ensures (off + tot) / SECTOR < spc
  {
  }

  /** Every turn but the last ends on a sector boundary. */
  lemma NextSector(off: nat, tot: nat, o: nat, m: nat, n: nat)
    requires o % SECTOR == (off + tot) % SECTOR && tot < n
    requires m == if n - tot < SECTOR - o % SECTOR then n - tot else SECTOR - o % SECTOR
    ensures tot + m < n ==> (off + tot) / SECTOR + 1 == (off + tot + m) / SECTOR && (o + m) % SECTOR == (off + tot + m) % SECTOR
  {
    if tot + m < n {
      var p := off + tot;
      assert p + m == (p / SECTOR + 1) * SECTOR;
      assert o + m == (o / SECTOR + 1) * SECTOR;
    }
  }

  /** rwClus reading. */
  method RwClusRead(cluster: Cluster, spc: nat, off: nat, n: nat) returns (dst: seq<Byte>)
    requires ClusterOk(cluster, spc) && off + n <= spc * SECTOR
    ensures |dst| == n && forall i :: 0 <= i < n ==> dst[i] == ByteAt(cluster, spc, off + i)
  {
    dst := [];
    var sec: nat, o: nat := off / SECTOR, off % SECTOR;
    var tot := 0;
    while tot < n
      invariant 0 <= tot <= n && |dst| == tot
      invariant forall i :: 0 <= i < tot ==> dst[i] == ByteAt(cluster, spc, off + i)
      invariant tot < n ==> sec == (off + tot) / SECTOR && o % SECTOR == (off + tot) % SECTOR
    {
      var m := SECTOR - o % SECTOR;
      if n - tot < m {
        m := n - tot;
      }
      InsideCluster(spc, off, n, tot);
      SameSector(off + tot, m);
      dst := dst + cluster[sec][o % SECTOR..o % SECTOR + m];
      NextSector(off, tot, o, m, n);
      tot, o, sec := tot + m, o + m, sec + 1;
    }
  }

  lemma SameSector(p: nat, m: nat)
    requires p % SECTOR + m <= SECTOR
    ensures forall i :: p <= i < p + m ==> i / SECTOR == p / SECTOR && i % SECTOR == p % SECTOR + (i - p)
  {
    forall i | p <= i < p + m ensures i / SECTOR == p / SECTOR && i % SECTOR == p % SECTOR + (i - p) {
      assert i == p / SECTOR * SECTOR + (p % SECTOR + (i - p));
    }
  }

  /** zeroClus. */
  method ZeroClus(cluster: Cluster, spc: nat) returns (after: Cluster)
    requires ClusterOk(cluster, spc)
    ensures ClusterOk(after, spc) && forall o: nat :: o < spc * SECTOR ==> ByteAt(after, spc, o) == 0
  {
    after := cluster;
    var i := 0;
    while i < spc
      invariant 0 <= i <= spc && ClusterOk(after, spc)
      invariant forall k :: 0 <= k < i ==> after[k] == ZeroSector()
    {
      after := after[i := ZeroSector()];
      i := i + 1;
    }
  }

  // ----- the volume as a value ----------------------------------------------------------

  datatype Vol = Vol(h: Heap, data: seq<Cluster>, spc: nat)

  ghost predicate Formed(v: Vol) {
    && Inv(v.h) && v.spc > 0 && |v.data| == |v.h.fat|
    && forall c :: 0 <= c < |v.data| ==> ClusterOk(v.data[c], v.spc)
  }

  function ClusBytes(v: Vol): nat {
    v.spc * SECTOR
  }

  /** Byte q of the clusters of file f, whether or not it is within the file's size. */
  ghost function FileByte(v: Vol, f: nat, q: nat): Byte
    requires Formed(v) && f < |v.h.chain| && q / ClusBytes(v) < |v.h.chain[f]|
  {
    InFile(v, f, q / ClusBytes(v));
    ByteAt(v.data[v.h.chain[f][q / ClusBytes(v)]], v.spc, q % ClusBytes(v))
  }

  lemma InFile(v: Vol, f: nat, i: nat)
    requires Formed(v) && f < |v.h.chain| && i < |v.h.chain[f]|
    ensures v.h.chain[f][i] < |v.data| && ClusterOk(v.data[v.h.chain[f][i]], v.spc)
    ensures v.h.chain[f][i] in v.h.home && v.h.home[v.h.chain[f][i]] == (f, i)
  {
    assert InChain(v.h, f, i) && LinkAt(v.h, f, i);
  }

  ghost predicate Zeroed(c: Cluster, spc: nat) {
    ClusterOk(c, spc) && forall o: nat :: o < spc * SECTOR ==> ByteAt(c, spc, o) == 0
  }

  /** From a to b file f has at most gained zeroed clusters at its end; nothing else changed. */
  ghost predicate Grew(a: Vol, b: Vol, f: nat) {
    && Formed(a) && Formed(b) && b.spc == a.spc && |b.h.fat| == |a.h.fat| && f < |a.h.chain|
    && |b.h.chain| == |a.h.chain| && a.h.chain[f] <= b.h.chain[f] && b.h.chain == a.h.chain[f := b.h.chain[f]]
    && Orphans(b.h) == Orphans(a.h)
    && |Free(b.h.taken)| + |b.h.chain[f]| == |Free(a.h.taken)| + |a.h.chain[f]|
    && (forall c :: c in a.h.home ==> c < |a.data| && b.data[c] == a.data[c])
    && (forall i :: |a.h.chain[f]| <= i < |b.h.chain[f]| ==> b.h.chain[f][i] < |b.data| && Zeroed(b.data[b.h.chain[f][i]], b.spc))
  }

  lemma GrewSelf(a: Vol, f: nat)
    requires Formed(a) && f < |a.h.chain|
    ensures Grew(a, a, f)
  {
    HomeInside(a.h);
  }

  lemma GrewTrans(a: Vol, b: Vol, c: Vol, f: nat)
    requires Grew(a, b, f) && Grew(b, c, f)
    ensures Grew(a, c, f)
  {
    hide Orphans, Free, Zeroed;
    forall d | d in a.h.home ensures c.data[d] == a.data[d] && d < |a.data| {
      GrewHome(a, b, f, d);
    }
    forall i | |a.h.chain[f]| <= i < |c.h.chain[f]|
      ensures c.h.chain[f][i] < |c.data| && Zeroed(c.data[c.h.chain[f][i]], c.spc)
    {
      if i < |b.h.chain[f]| {
        InFile(b, f, i);
        assert c.h.chain[f][i] == b.h.chain[f][i];
      }
    }
  }

  lemma GrewHome(a: Vol, b: Vol, f: nat, d: nat)
    requires Grew(a, b, f) && d in a.h.home
    ensures d in b.h.home && b.h.home[d] == a.h.home[d]
  {
    var g, i := a.h.home[d].0, a.h.home[d].1;
    assert InChain(a.h, g, i) && InChain(b.h, g, i);
    assert b.h.chain[g][i] == d;
  }

  /** Growing a file keeps every byte of every file; the new bytes are zero. */
  lemma GrewBytes(a: Vol, b: Vol, f: nat, g: nat, q: nat)
    requires Grew(a, b, f) && g < |a.h.chain| && q / ClusBytes(a) < |b.h.chain[g]|
    ensures FileByte(b, g, q) == if q / ClusBytes(a) < |a.h.chain[g]| then FileByte(a, g, q) else 0
  {
    hide Orphans, Free;
    var i := q / ClusBytes(a);
    if i < |a.h.chain[g]| {
      InFile(a, g, i);
      assert b.h.chain[g][i] == a.h.chain[g][i];
    }
  }

  // ----- the kernel's view: tables, index and file records -------------------------------

  /**
   File f's record and cached index agree with its chain. A file without clusters may have one
   position cached all the same: readDentryInfo puts cluster number 0 there.
   */
  ghost predicate Tied(ix: CI.Pool, v: Vol, first: seq<nat>, size: seq<nat>, f: nat)
    requires CI.Sized(ix) && Formed(v) && |ix.metas| == |v.h.chain| == |first| == |size| && f < |first|
  {
    && (if v.h.chain[f] == [] then first[f] == 0 && size[f] == 0 && ix.metas[f].max <= 1
        else ix.chain[f] <= v.h.chain[f] && first[f] == v.h.chain[f][0] && ix.metas[f].max > 0 && ix.metas[f].item[0] == first[f] && ix.metas[f].cur < EOC)
    && (size[f] > 0 ==> (size[f] - 1) / ClusBytes(v) < |v.h.chain[f]|)
  }

  ghost predicate AllTied(ix: CI.Pool, v: Vol, first: seq<nat>, size: seq<nat>) {
    && CI.Inv(ix) && Formed(v) && |ix.metas| == |v.h.chain| == |first| == |size|
    && forall f: nat :: f < |first| ==> Tied(ix, v, first, size, f)
  }

  class Volume {
    const spc: nat
    const index: CI.Index
    var fat: seq<nat>
    var taken: seq<bool>
    var data: seq<Cluster>
    var first: seq<nat>
    var size: seq<nat>
    ghost var chain: seq<seq<nat>>
    ghost var home: map<nat, (nat, nat)>

    ghost function V(): Vol
      reads this
    {
      Vol(Heap(fat, taken, chain, home), data, spc)
    }

    ghost predicate Valid()
      reads this, index
    {
      AllTied(index.View(), V(), first, size)
    }

    /**
     fatInit on a table and records as readDentryInfo reads them: the bitmap loop sets a bit exactly for
     a non-zero entry. If the table is well formed, chain and home saying how, the volume is ready.
     */
    constructor (spc: nat, index: CI.Index, fat: seq<nat>, data: seq<Cluster>, first: seq<nat>, size: seq<nat>,
                 ghost chain: seq<seq<nat>>, ghost home: map<nat, (nat, nat)>)
      requires index.Valid() && |index.metas| == |index.chain| == |chain| == |first| == |size|
      requires forall f :: 0 <= f < |first| ==> index.metas[f] == CI.Fresh(first[f]) && index.chain[f] == [first[f]]
      ensures this.spc == spc && this.index == index && this.fat == fat && this.data == data
      ensures this.first == first && this.size == size && this.chain == chain && this.home == home
      ensures |taken| == |fat| && forall c :: 0 <= c < |fat| ==> (taken[c] <==> fat[c] != 0)
      ensures Formed(V()) && (forall f: nat :: f < |first| ==> Recorded(V(), first[f], size[f], f)) ==> Valid()
    {
      this.spc, this.index, this.fat, this.data := spc, index, fat, data;
      this.first, this.size, this.chain, this.home := first, size, chain, home;
      taken := [];
      new;
      var no := 0;
      while no < |fat|
        invariant 0 <= no <= |fat| && |taken| == no
        invariant forall c :: 0 <= c < no ==> (taken[c] <==> fat[c] != 0)
        modifies this`taken
      {
        taken := taken + [fat[no] != 0];
        no := no + 1;
      }
      if Formed(V()) && forall f: nat :: f < |first| ==> Recorded(V(), first[f], size[f], f) {
        Mounted(index.View(), V(), first, size);
      }
    }

    method ReadFat(cluster: nat) returns (next: nat)
      ensures next == if cluster >= 0x0FFF_FFF8 then cluster else if cluster >= |fat| then 0 else fat[cluster]
    {
      if cluster >= EOC {
        return cluster;
      }
      if cluster >= |fat| {
        return 0;
      }
      return fat[cluster];
    }

    method WriteFat(cluster: nat, content: nat) returns (ok: bool)
      modifies this`fat
      ensures ok == (cluster < |old(fat)|)
      ensures fat == if ok then old(fat)[cluster := content] else old(fat)
    {
      if cluster >= |fat| {
        return false;
      }
      fat := fat[cluster := content];
      return true;
    }

    /** allocClus: the lowest clear bit, marked as an end and zeroed; |taken| stands for the panic when no bit is clear. */
    method AllocClus() returns (c: nat)
      requires Formed(V())
      modifies this`fat, this`taken, this`data
      ensures c <= |old(taken)| && (c == |old(taken)| <==> Free(old(taken)) == {})
      ensures c == |old(taken)| ==> V() == old(V())
      ensures c < |old(taken)| ==> !old(taken)[c] && forall d :: 0 <= d < c ==> old(taken)[d]
      ensures Formed(V()) && (c < |old(taken)| ==> V().h == Marked(old(V()).h, c))
      ensures c < |old(taken)| ==> c < |old(fat)| && taken == old(taken)[c := true] && fat == old(fat)[c := 0x0FFF_FFFF]
      ensures |data| == |old(data)| && (c < |old(taken)| ==> c < |data| && Zeroed(data[c], spc))
      ensures forall d :: 0 <= d < |data| && d != c ==> data[d] == old(data)[d]
    {
      hide Inv;
      c := 0;
      while c < |taken| && taken[c]
        invariant c <= |taken| && forall d :: 0 <= d < c ==> taken[d]
      {
        c := c + 1;
      }
      if c == |taken| {
        assert Free(taken) == {};
        return;
      }
      assert c in Free(taken);
      FormedSizes(V());
      MarkedInv(V().h, c);
      taken := taken[c := true];
      fat := fat[c := EOC + 7];
      var z := ZeroClus(data[c], spc);
      data := data[c := z];
    }

    /** relocClus at the end of a chain: a new cluster becomes the tail's successor. */
    method ExtendChain(f: nat, tail: nat) returns (c: nat)
      requires Formed(V()) && f < |chain| && chain[f] != [] && tail == chain[f][|chain[f]| - 1] && Free(taken) != {}
      modifies this`fat, this`taken, this`data, this`chain, this`home
      ensures Grew(old(V()), V(), f) && chain[f] == old(chain[f]) + [c] && c < EOC
    {
      hide Inv, Zeroed, Grew;
      ghost var a := V();
      FormedSizes(a);
      TailFormed(a, f);
      c := AllocClus();
      ghost var mid := V();
      FormedSizes(mid);
      JoinGrew(a, mid, f, c);
      var done := WriteFat(tail, c);
      chain, home := chain[f := chain[f] + [c]], home[c := (f, |chain[f]|)];
      assert V() == Vol(Joined(mid.h, f, c), mid.data, spc);
    }

    /** metas[f] stands at the last cached cluster of the file. */
    ghost predicate AtEnd(f: nat)
      reads this, index
    {
      && Valid() && f < |first| && first[f] != 0
      && index.metas[f].cnt + 1 == index.metas[f].max && index.metas[f].cnt < |chain[f]|
      && index.metas[f].cur == chain[f][index.metas[f].cnt]
    }

    /** One turn of relocClus's loop: read the table, extend the chain if asked to, cache. */
    method Advance(f: nat, alloc: bool) returns (ok: bool)
      requires AtEnd(f) && index.metas[f].max < CI.THIRD_TOP
      requires CI.NewNodes(index.metas[f].max) <= |CI.Unused(index.used)|
      requires alloc && index.metas[f].max == |chain[f]| ==> Free(taken) != {}
      modifies this`fat, this`taken, this`data, this`chain, this`home, index
      ensures Valid() && Grew(old(V()), V(), f)
      ensures ok <==> alloc || old(index.metas[f].max) < |old(chain[f])|
      ensures ok ==> AtEnd(f) && index.metas[f].max == old(index.metas[f].max) + 1
                     && |chain[f]| == CI.Max(|old(chain[f])|, index.metas[f].max)
                     && |CI.Unused(index.used)| == |CI.Unused(old(index.used))| - CI.NewNodes(old(index.metas[f].max))
      ensures !ok ==> chain == old(chain) && index.metas[f].cur == first[f] && index.metas[f].cnt == 0
                      && index.metas[f].max == |chain[f]|
      ensures !alloc ==> V() == old(V())
    {
      hide Formed, FatHeap.Inv, CI.Inv, Grew;
      ghost var a := V();
      AtChain(index.View(), a, first, size, f);
      var m := index.metas[f];
      var clus := ReadFat(m.cur);
      if clus >= EOC {
        if !alloc {
          index.SetCursor(f, first[f], 0);
          GrewSelf(a, f);
          TiedCursor(old(index.View()), index.View(), a, first, size, f);
          return false;
        }
        clus := ExtendChain(f, m.cur);
        TiedGrew(index.View(), a, V(), first, size, f);
      } else {
        GrewSelf(a, f);
      }
      ghost var ix := index.View();
      CachesNext(ix, V(), first, size, f, clus);
      index.SetCursor(f, clus, m.cnt + 1);
      index.MetaCacheInode(f, clus);
      TiedCached(ix, index.View(), V(), first, size, f, clus);
      return true;
    }

    /**
     relocClus: stand at the cluster that holds byte `off` of the file, growing the chain to reach
     it when `alloc` is set, and give the offset inside it; -1 when the chain ends before.
     */
    method RelocClus(f: nat, off: nat, alloc: bool) returns (ret: int)
      requires Valid() && f < |first| && first[f] != 0 && off / (spc * SECTOR) < CI.THIRD_TOP
      requires NodesNeeded(index.metas[f].max, off / (spc * SECTOR) + 1) <= |CI.Unused(index.used)|
      requires alloc ==> off / (spc * SECTOR) + 1 - |chain[f]| <= |Free(taken)|
      modifies this`fat, this`taken, this`data, this`chain, this`home, index
      ensures Valid() && Grew(old(V()), V(), f)
      ensures ret == -1 <==> !alloc && off / (spc * SECTOR) >= |old(chain[f])|
      ensures ret != -1 ==> ret == off % (spc * SECTOR) && off / (spc * SECTOR) < |chain[f]|
                            && index.metas[f].cur == chain[f][off / (spc * SECTOR)]
                            && index.metas[f].max == CI.Max(old(index.metas[f].max), off / (spc * SECTOR) + 1)
      ensures |chain[f]| == if alloc then CI.Max(|old(chain[f])|, off / (spc * SECTOR) + 1) else |old(chain[f])|
      ensures !alloc ==> V() == old(V())
      ensures ret != -1 ==> |CI.Unused(index.used)|
                            == |CI.Unused(old(index.used))| - NodesNeeded(old(index.metas[f].max), off / (spc * SECTOR) + 1)
    {
      hide Formed, FatHeap.Inv, CI.Inv, Grew;
      ghost var a := V();
      ghost var ix := index.View();
      RecordFacts(ix, a, first, size, f);
      var clusNum := off / (spc * SECTOR);
      ret := off % (spc * SECTOR);
      if clusNum < index.metas[f].max {
        MoveTo(f, clusNum);
        return;
      }
      MoveTo(f, index.metas[f].max - 1);
      var ok := CacheUpTo(f, clusNum, alloc);
      if !ok {
        return -1;
      }
    }

    /** relocClus's loop: from the last cached cluster on to cluster clusNum of the file. */
    method CacheUpTo(f: nat, clusNum: nat, alloc: bool) returns (ok: bool)
      requires AtEnd(f) && index.metas[f].max <= clusNum < CI.THIRD_TOP
      requires NodesNeeded(index.metas[f].max, clusNum + 1) <= |CI.Unused(index.used)|
      requires alloc ==> clusNum + 1 - |chain[f]| <= |Free(taken)|
      modifies this`fat, this`taken, this`data, this`chain, this`home, index
      ensures Valid() && Grew(old(V()), V(), f) && (!alloc ==> V() == old(V()))
      ensures ok <==> alloc || clusNum < |old(chain[f])|
      ensures ok ==> AtEnd(f) && index.metas[f].max == clusNum + 1
                     && |CI.Unused(index.used)|
                        == |CI.Unused(old(index.used))| - NodesNeeded(old(index.metas[f].max), clusNum + 1)
      ensures |chain[f]| == if alloc then CI.Max(|old(chain[f])|, clusNum + 1) else |old(chain[f])|
    {
      hide Formed, FatHeap.Inv, CI.Inv, Grew;
      ghost var a := V();
      ghost var ix := index.View();
      AtEndFormed(f);
      GrewSelf(a, f);
      while clusNum > index.metas[f].cnt
        invariant AtEnd(f) && Grew(a, V(), f) && index.metas[f].cnt <= clusNum && (!alloc ==> V() == a)
        invariant index.metas[f].max >= ix.metas[f].max
        invariant |chain[f]| == if alloc then CI.Max(|a.h.chain[f]|, index.metas[f].max) else |a.h.chain[f]|
        invariant |CI.Unused(index.used)| == |CI.Unused(ix.used)| - NodesNeeded(ix.metas[f].max, index.metas[f].max)
        decreases clusNum - index.metas[f].cnt
      {
        ghost var b := V();
        ghost var max := index.metas[f].max;
        NodesSplit(ix.metas[f].max, max, clusNum + 1);
        GrewFree(a, b, f);
        ok := Advance(f, alloc);
        GrewTrans(a, b, V(), f);
        if !ok {
          return;
        }
        NodesSplit(ix.metas[f].max, max, max + 1);
      }
      ok := true;
    }

    lemma AtEndFormed(f: nat)
      requires AtEnd(f)
      ensures Formed(V()) && f < |chain| && |index.metas| == |chain| && f < |index.metas|
    {
    }

    /** metaFindInode, as relocClus uses it. */
    method MoveTo(f: nat, pos: nat)
      requires Valid() && f < |first| && first[f] != 0 && pos < index.metas[f].max
      modifies index`metas
      ensures Valid() && Grew(V(), V(), f) && pos < |chain[f]|
      ensures |index.metas| == |old(index.metas)| && index.metas[f].max == old(index.metas[f].max)
      ensures index.metas[f].cnt == pos && index.metas[f].cur == chain[f][pos]
      ensures forall g :: 0 <= g < |index.metas| && g != f ==> index.metas[g] == old(index.metas[g])
    {
      hide Formed, FatHeap.Inv, CI.Inv, Grew;
      ghost var ix := index.View();
      RecordFacts(ix, V(), first, size, f);
      GrewSelf(V(), f);
      index.MetaFindInode(f, pos);
      CachedIsChain(ix, V(), first, size, f, pos);
      TiedCursor(ix, index.View(), V(), first, size, f);
    }
  }

  /** Pool nodes that caching positions from up to to takes. */
  function NodesNeeded(from: int, to: int): nat
    decreases to - from
  {
    if from >= to || from < 0 then 0 else CI.NewNodes(from) + NodesNeeded(from + 1, to)
  }

  lemma {:induction false} NodesSplit(from: nat, mid: nat, to: nat)
    requires from <= mid <= to
    ensures NodesNeeded(from, to) == NodesNeeded(from, mid) + NodesNeeded(mid, to)
    ensures mid < to ==> NodesNeeded(mid, to) >= CI.NewNodes(mid)
    decreases mid - from
  {
    if from < mid {
      NodesSplit(from + 1, mid, to);
    }
  }

  lemma RecordFacts(ix: CI.Pool, v: Vol, first: seq<nat>, size: seq<nat>, f: nat)
    requires AllTied(ix, v, first, size) && f < |first|
    ensures Formed(v) && CI.Inv(ix) && f < |ix.metas| && f < |v.h.chain|
    ensures |ix.chain| == |ix.metas| && |ix.chain[f]| == ix.metas[f].max
    ensures first[f] != 0 ==> ix.metas[f].max > 0 && v.h.chain[f] != [] && ix.chain[f] <= v.h.chain[f] && v.h.chain[f][0] == first[f]
  {
    assert Tied(ix, v, first, size, f);
  }

  lemma CachedIsChain(ix: CI.Pool, v: Vol, first: seq<nat>, size: seq<nat>, f: nat, pos: nat)
    requires AllTied(ix, v, first, size) && f < |first| && first[f] != 0 && pos < ix.metas[f].max
    ensures |ix.chain| == |ix.metas| && pos < |ix.chain[f]| && pos < |v.h.chain[f]|
    ensures ix.chain[f][pos] == v.h.chain[f][pos] < EOC
  {
    assert Tied(ix, v, first, size, f);
    assert InChain(v.h, f, pos) && LinkAt(v.h, f, pos);
  }

  /**
   Every cached position of a file gives the cluster of its chain exactly if the file has a first
   cluster, or nothing is cached. The record of an empty file read from disk has neither.
   */
  lemma IndexAgreesIff(ix: CI.Pool, v: Vol, first: seq<nat>, size: seq<nat>, f: nat)
    requires AllTied(ix, v, first, size) && f < |first|
    ensures (forall pos: nat :: pos < ix.metas[f].max ==>
               CI.Reached(ix, f, pos) && pos < |v.h.chain[f]| && CI.Find(ix, f, pos) == v.h.chain[f][pos])
            <==> first[f] != 0 || ix.metas[f].max == 0
  {
    RecordFacts(ix, v, first, size, f);
    assert Tied(ix, v, first, size, f);
    if first[f] != 0 {
      forall pos: nat | pos < ix.metas[f].max
        ensures CI.Reached(ix, f, pos) && pos < |v.h.chain[f]| && CI.Find(ix, f, pos) == v.h.chain[f][pos]
      {
        CachedIsChain(ix, v, first, size, f, pos);
      }
    } else if ix.metas[f].max > 0 {
      assert v.h.chain[f] == [] && CI.Reached(ix, f, 0);
    }
  }

  /** A directory entry's first cluster and size fit the chain of its file. */
  ghost predicate Recorded(v: Vol, first: nat, size: nat, f: nat)
    requires Formed(v) && f < |v.h.chain|
  {
    if v.h.chain[f] == [] then first == 0 && size == 0
    else first == v.h.chain[f][0] && (size > 0 ==> (size - 1) / ClusBytes(v) < |v.h.chain[f]|)
  }

  /** A well-formed table and records as readDentryInfo makes them are what every operation asks for. */
  lemma Mounted(ix: CI.Pool, v: Vol, first: seq<nat>, size: seq<nat>)
    requires CI.Inv(ix) && Formed(v) && |ix.metas| == |ix.chain| == |v.h.chain| == |first| == |size|
    requires forall f: nat :: f < |first| ==> ix.metas[f] == CI.Fresh(first[f]) && ix.chain[f] == [first[f]] && Recorded(v, first[f], size[f], f)
    ensures AllTied(ix, v, first, size)
  {
    hide CI.Inv;
    forall f: nat | f < |first| ensures CI.Sized(ix) && Tied(ix, v, first, size, f) {
      CI.SizedInv(ix);
      assert Recorded(v, first[f], size[f], f);
      if v.h.chain[f] != [] {
        assert InChain(v.h, f, 0) && LinkAt(v.h, f, 0);
      }
    }
    CI.SizedInv(ix);
  }

  lemma GrewFree(a: Vol, b: Vol, f: nat)
    requires Grew(a, b, f)
    ensures |Free(b.h.taken)| + |b.h.chain[f]| == |Free(a.h.taken)| + |a.h.chain[f]|
    ensures |Free(b.h.taken)| > 0 ==> Free(b.h.taken) != {}
  {
  }

  /** At the last cached cluster, the table says whether the chain goes on. */
  lemma AtChain(ix: CI.Pool, v: Vol, first: seq<nat>, size: seq<nat>, f: nat)
    requires AllTied(ix, v, first, size) && f < |first| && first[f] != 0
    requires ix.metas[f].cnt + 1 == ix.metas[f].max && ix.metas[f].cnt < |v.h.chain[f]|
    requires ix.metas[f].cur == v.h.chain[f][ix.metas[f].cnt]
    ensures v.h.chain[f][0] == first[f] < EOC && Formed(v)
    ensures var c := ix.metas[f].cur;
            && 2 <= c < |v.h.fat| && |v.h.fat| <= EOC
            && (if ix.metas[f].max < |v.h.chain[f]| then v.h.fat[c] == v.h.chain[f][ix.metas[f].max] && v.h.fat[c] < EOC
                else v.h.fat[c] >= EOC && ix.metas[f].max == |v.h.chain[f]| && c == v.h.chain[f][|v.h.chain[f]| - 1])
  {
    hide CI.Inv, AllTied;
    RecordFacts(ix, v, first, size, f);
    var i := ix.metas[f].cnt;
    assert InChain(v.h, f, i) && LinkAt(v.h, f, i);
    assert InChain(v.h, f, 0) && LinkAt(v.h, f, 0);
    if i + 1 < |v.h.chain[f]| {
      assert InChain(v.h, f, i + 1) && LinkAt(v.h, f, i + 1);
    }
  }

  lemma TiedCursor(ix: CI.Pool, jx: CI.Pool, v: Vol, first: seq<nat>, size: seq<nat>, f: nat)
    requires AllTied(ix, v, first, size) && f < |first| && CI.Inv(jx) && |jx.metas| == |ix.metas| && jx.chain == ix.chain
    requires forall g :: 0 <= g < |ix.metas| ==> jx.metas[g].item == ix.metas[g].item && jx.metas[g].max == ix.metas[g].max
    requires forall g :: 0 <= g < |ix.metas| && g != f ==> jx.metas[g].cur == ix.metas[g].cur
    requires jx.metas[f].cur < EOC
    ensures AllTied(jx, v, first, size)
  {
    hide Formed, CI.Inv;
    CI.SizedInv(ix);
    CI.SizedInv(jx);
    forall g: nat | g < |first| ensures Tied(jx, v, first, size, g) {
      assert Tied(ix, v, first, size, g);
    }
  }

  lemma TiedGrew(ix: CI.Pool, a: Vol, b: Vol, first: seq<nat>, size: seq<nat>, f: nat)
    requires AllTied(ix, a, first, size) && f < |first| && Grew(a, b, f) && a.h.chain[f] != []
    ensures AllTied(ix, b, first, size)
  {
    hide Orphans, Free;
    forall g: nat | g < |first| ensures Tied(ix, b, first, size, g) {
      assert Tied(ix, a, first, size, g);
    }
  }

  lemma CachesNext(ix: CI.Pool, v: Vol, first: seq<nat>, size: seq<nat>, f: nat, clus: nat)
    requires AllTied(ix, v, first, size) && f < |first|
    ensures CI.Inv(ix) && CI.Sized(ix) && f < |ix.metas|
  {
  }

  lemma TiedCached(ix: CI.Pool, jx: CI.Pool, v: Vol, first: seq<nat>, size: seq<nat>, f: nat, clus: nat)
    requires AllTied(ix, v, first, size) && f < |first| && first[f] != 0 && CI.Inv(jx) && |jx.metas| == |ix.metas|
    requires ix.metas[f].max < |v.h.chain[f]| && clus == v.h.chain[f][ix.metas[f].max]
    requires f < |ix.chain| && jx.chain == ix.chain[f := ix.chain[f] + [clus]]
    requires forall g :: 0 <= g < |ix.metas| && g != f ==> jx.metas[g] == ix.metas[g]
    requires jx.metas[f].max == ix.metas[f].max + 1 && jx.metas[f].cur == clus < EOC
    requires jx.metas[f].item[0] == ix.metas[f].item[0]
    ensures AllTied(jx, v, first, size)
  {
    hide Formed, CI.Inv;
    CI.SizedInv(ix);
    CI.SizedInv(jx);
    forall g: nat | g < |first| ensures Tied(jx, v, first, size, g) {
      assert Tied(ix, v, first, size, g);
    }
  }

  lemma FormedSizes(v: Vol)
    requires Formed(v)
    ensures 2 <= |v.h.fat| == |v.h.taken| == |v.data| <= EOC
  {
  }

  lemma TailFormed(v: Vol, f: nat)
    requires Formed(v) && f < |v.h.chain| && v.h.chain[f] != []
    ensures v.h.chain[f][|v.h.chain[f]| - 1] < |v.h.fat|
  {
    TailInside(v.h, f);
  }

  /** A freshly marked and zeroed cluster joins file f. */
  lemma JoinGrew(a: Vol, m: Vol, f: nat, c: nat)
    requires Formed(a) && Formed(m) && f < |a.h.chain| && c < |a.h.fat| && c < |a.h.taken| && !a.h.taken[c] && m.h == Marked(a.h, c)
    requires m.spc == a.spc && |m.data| == |a.data| && Zeroed(m.data[c], m.spc)
    requires forall d :: 0 <= d < |m.data| && d != c ==> m.data[d] == a.data[d]
    ensures a.h.chain[f] != [] ==> a.h.chain[f][|a.h.chain[f]| - 1] < |a.h.fat|
    ensures var b := Vol(Joined(m.h, f, c), m.data, m.spc);
            Formed(b) && Grew(a, b, f) && b.h.chain[f] == a.h.chain[f] + [c]
  {
    hide Zeroed, Inv;
    MarkedInv(a.h, c);
    HomeInside(a.h);
    if a.h.chain[f] != [] {
      TailInside(m.h, f);
    }
    JoinedInv(m.h, f, c);
    assert Free(Joined(m.h, f, c).taken) == Free(m.h.taken);
  }
}
