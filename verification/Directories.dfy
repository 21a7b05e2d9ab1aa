/**
 Directory entries in a directory's clusters: writing the entries of a new file, and finding the
 next file, through the same cluster walk that serves file contents.
 */
module Directories {
  import opened FatHeap
  import opened FatVolume
  import opened FatFiles
  import CI = ClusterIndex
  import L = LongNames

  /** Everything a directory's clusters hold. */
  ghost function AllBytes(v: Vol, f: nat): (s: seq<Byte>)
    requires Formed(v) && f < |v.h.chain|
    ensures |s| == |v.h.chain[f]| * ClusBytes(v)
  {
    Contents(v, f, |v.h.chain[f]| * ClusBytes(v))
  }

  /** A 32-byte entry never crosses a cluster boundary. */
  lemma EntryInside(spc: nat, off: nat)
    requires spc > 0 && off % L.ENTRY == 0
    ensures off % (spc * SECTOR) + L.ENTRY <= spc * SECTOR
  {
    var cb, q, r := spc * SECTOR, off / (spc * SECTOR), off % (spc * SECTOR);
    assert off == q * cb + r;
    assert q * cb == L.ENTRY * (q * spc * 16);
    assert r == L.ENTRY * (off / L.ENTRY - q * spc * 16);
    assert off / L.ENTRY - q * spc * 16 < spc * 16;
  }

  // ----- writing ----------------------------------------------------------------------------

  /** The long entries for parts above i. */
  ghost predicate PartsIn(src: seq<Byte>, name: seq<Byte>, sum: Byte, i: nat) {
    && i <= L.Parts(name) && |src| == L.ENTRY * (L.Parts(name) - i)
    && forall j: nat :: i < j <= L.Parts(name) ==> PartIn(src, name, sum, j)
  }

  ghost predicate PartIn(src: seq<Byte>, name: seq<Byte>, sum: Byte, j: nat) {
    && j <= L.Parts(name) && L.ENTRY * (L.Parts(name) - j + 1) <= |src|
    && L.IsLong(src[L.ENTRY * (L.Parts(name) - j)..L.ENTRY * (L.Parts(name) - j + 1)], name, j, sum)
  }

  lemma PartAdded(src: seq<Byte>, name: seq<Byte>, sum: Byte, i: nat, e: seq<Byte>)
    requires i > 0 && PartsIn(src, name, sum, i) && L.IsLong(e, name, i, sum)
    ensures PartsIn(src + e, name, sum, i - 1)
  {
    hide L.IsLong;
    var t := src + e;
    LongSize(e, name, i, sum);
    forall j: nat | i - 1 < j <= L.Parts(name) ensures PartIn(t, name, sum, j) {
      var lo, hi := L.ENTRY * (L.Parts(name) - j), L.ENTRY * (L.Parts(name) - j + 1);
      if j == i {
        assert t[lo..hi] == e;
      } else {
        assert PartIn(src, name, sum, j);
        assert t[lo..hi] == src[lo..hi];
      }
    }
  }

  lemma LongSize(e: seq<Byte>, name: seq<Byte>, i: nat, sum: Byte)
    requires L.IsLong(e, name, i, sum)
    ensures |e| == L.ENTRY && e[11] == L.ATTR_LONG_NAME && e[12] == 0 && e[13] == sum && e[26] == 0 && e[27] == 0
  {
  }

  /** The directory bytes d hold, at off, the entries that src is. */
  lemma HoldsAt(d: seq<Byte>, off: nat, src: seq<Byte>, name: seq<Byte>, short: seq<Byte>, info: L.Info)
    requires |short| == L.SHORT && PartsIn(src, name, L.Sum(short), 0)
    requires off + |src| + L.ENTRY <= |d| && d[off..off + |src| + L.ENTRY] == src + L.ShortEntry(short, info)
    ensures L.Holds(d, off, name, short, info)
  {
    hide L.IsLong;
    var t := src + L.ShortEntry(short, info);
    var n := L.ENTRY * L.Parts(name);
    Piece(d, off, t, n, n + L.ENTRY);
    assert t[n..n + L.ENTRY] == L.ShortEntry(short, info);
    forall i: nat | 0 < i <= L.Parts(name) ensures L.LongAt(d, off, name, short, i) {
      assert PartIn(src, name, L.Sum(short), i);
      var lo, hi := L.ENTRY * (L.Parts(name) - i), L.ENTRY * (L.Parts(name) - i + 1);
      Piece(d, off, t, lo, hi);
      assert t[lo..hi] == src[lo..hi];
    }
  }

  lemma Piece(d: seq<Byte>, off: nat, t: seq<Byte>, lo: nat, hi: nat)
    requires lo <= hi <= |t| && off + |t| <= |d| && d[off..off + |t|] == t
    ensures d[off + lo..off + hi] == t[lo..hi]
  {
    var e, g := d[off + lo..off + hi], t[lo..hi];
    forall k | 0 <= k < |e| ensures e[k] == g[k] {
      assert d[off..off + |t|][lo + k] == d[off + lo + k];
    }
  }

  /** The clusters that entries of a name at off reach. */
  function Needs(off: nat, name: seq<Byte>, cb: nat): nat
    requires cb > 0
  {
    Clusters(if off <= L.ENTRY then off + L.ENTRY else off + L.ENTRY * (L.Parts(name) + 1), cb)
  }

  /** One entry through relocClus and rwClus. */
  method PutEntry(vol: Volume, f: nat, off: nat, de: seq<Byte>, ghost n: nat)
    requires vol.Valid() && f < |vol.first| && vol.first[f] != 0 && vol.spc > 0 && off % L.ENTRY == 0 && |de| == L.ENTRY
    requires off + L.ENTRY <= n && Room(vol.index.View(), vol.V().h, f, Clusters(n, vol.spc * SECTOR), true)
    modifies vol`fat, vol`taken, vol`data, vol`chain, vol`home, vol.index
    ensures vol.Valid() && Room(vol.index.View(), vol.V().h, f, Clusters(n, vol.spc * SECTOR), true)
    ensures Wrote(old(vol.V()), vol.V(), f, off, de)
  {
    hide FatHeap.Inv, CI.Inv, Wrote, Tied, Room, Formed, Clusters;
    EntryInside(vol.spc, off);
    Within(0, n, vol.spc * SECTOR, off);
    WriteStep(vol, f, off, de, Clusters(n, vol.spc * SECTOR));
  }

  /** makeDentry's loop over the parts of the name, last part first. */
  method PutParts(vol: Volume, f: nat, off: nat, name: seq<Byte>, sum: Byte, ghost n: nat) returns (o: nat, ghost src: seq<Byte>)
    requires vol.Valid() && f < |vol.first| && vol.first[f] != 0 && vol.spc > 0 && off % L.ENTRY == 0
    requires L.Parts(name) < L.LAST && forall p :: 0 <= p < |name| ==> name[p] != 0
    requires n == off + L.ENTRY * (L.Parts(name) + 1) && Room(vol.index.View(), vol.V().h, f, Clusters(n, vol.spc * SECTOR), true)
    modifies vol`fat, vol`taken, vol`data, vol`chain, vol`home, vol.index
    ensures vol.Valid() && Room(vol.index.View(), vol.V().h, f, Clusters(n, vol.spc * SECTOR), true)
    ensures Wrote(old(vol.V()), vol.V(), f, off, src) && PartsIn(src, name, sum, 0) && o == off + |src| == off + L.ENTRY * L.Parts(name)
  {
    hide FatHeap.Inv, CI.Inv, Wrote, Tied, Room, Formed, PartsIn, L.IsLong, Clusters, L.Parts;
    NothingYet(name, sum);
    ghost var a := vol.V();
    var cnt := L.Parts(name);
    o, src := off, [];
    var de: seq<Byte> := seq<Byte>(L.ENTRY, _ => 0)[11 := L.ATTR_LONG_NAME][13 := sum];
    var i := cnt;
    StartWrote(vol, f, off);
    while i > 0
      invariant 0 <= i <= cnt && o == off + L.ENTRY * (cnt - i) && vol.Valid() && Wrote(a, vol.V(), f, off, src)
      invariant Room(vol.index.View(), vol.V().h, f, Clusters(n, vol.spc * SECTOR), true)
      invariant PartsIn(src, name, sum, i) && |src| == L.ENTRY * (cnt - i)
      invariant |de| == L.ENTRY && de[11] == L.ATTR_LONG_NAME && de[12] == 0 && de[13] == sum && de[26] == 0 && de[27] == 0
    {
      de := L.MakeLong(name, i, sum, de);
      LongSize(de, name, i, sum);
      ghost var b := vol.V();
      PutEntry(vol, f, o, de, n);
      WroteTrans(a, b, vol.V(), f, off, src, de);
      PartAdded(src, name, sum, i, de);
      src := src + de;
      o, i := o + L.ENTRY, i - 1;
    }
  }

  lemma FewParts(name: seq<Byte>)
    requires |name| <= L.MAX_NAME
    ensures L.Parts(name) < L.LAST
  {
  }

  /** makeDentry: gives the offset after the last entry written. */
  method MakeDentry(vol: Volume, f: nat, off: nat, name: seq<Byte>, info: L.Info) returns (end: nat, ghost src: seq<Byte>, ghost short: seq<Byte>)
    requires vol.Valid() && f < |vol.first| && vol.first[f] != 0 && vol.spc > 0 && off % L.ENTRY == 0
    requires |name| <= 255 && forall p :: 0 <= p < |name| ==> name[p] != 0
    requires Room(vol.index.View(), vol.V().h, f, Needs(off, name, vol.spc * SECTOR), true)
    modifies vol`fat, vol`taken, vol`data, vol`chain, vol`home, vol.index
    ensures vol.Valid() && |short| == L.SHORT
    ensures off > L.ENTRY ==>
              && Wrote(old(vol.V()), vol.V(), f, off, src + L.ShortEntry(short, info)) && end == off + |src| + L.ENTRY
              && PartsIn(src, name, L.Sum(short), 0) && forall k :: 0 <= k < L.SHORT ==> L.ShortByte(name, short[k])
    ensures off <= L.ENTRY ==>
              && src == [] && |short| == 11 && short[0] == 46 && short[1] == (if off == 0 then 32 else 46)
              && (forall k :: 2 <= k < 11 ==> short[k] == 32) && end == off + 32
              && Wrote(old(vol.V()), vol.V(), f, off, L.ShortEntry(short, info.(attr := 0x10)))
    ensures off > 32 ==> |src| == 32 * ((|name| + 12) / 13) && forall d :: -1 <= d < |name| && L.IsLastDot(name, d) ==>
              && L.ShortPart(short[..8], L.Kept(if d == -1 then name else name[..d]))
              && L.ShortPart(short[8..], if d == -1 then [] else L.Kept(name[d + 1..]))
  {
    hide FatHeap.Inv, CI.Inv, Wrote, Tied, Room, Formed, PartsIn, L.Sum, L.ShortByte, Clusters, L.Parts;
    if off <= L.ENTRY {
      var dots := if off == 0 then DotName(1) else DotName(2);
      PutEntry(vol, f, off, L.ShortEntry(dots, info.(attr := L.ATTR_DIRECTORY)), off + L.ENTRY);
      return off + L.ENTRY, [], dots;
    }
    ghost var a := vol.V();
    FewParts(name);
    assert L.Parts(name) == (|name| + 12) / 13 by { L.PartsFit(name); }
    ghost var n := off + L.ENTRY * (L.Parts(name) + 1);
    var sh := L.GenerateShortName(name);
    var sum := L.CalChecksum(sh);
    short := sh;
    end, src := PutParts(vol, f, off, name, sum, n);
    ghost var b := vol.V();
    PutEntry(vol, f, end, L.ShortEntry(sh, info), n);
    WroteTrans(a, b, vol.V(), f, off, src, L.ShortEntry(sh, info));
    end := end + L.ENTRY;
  }

  /** "." or ".." padded with spaces. */
  function DotName(n: nat): (s: seq<Byte>)
    requires n <= L.SHORT
    ensures |s| == L.SHORT
  {
    seq<Byte>(n, _ => L.DOT) + seq<Byte>(L.SHORT - n, _ => L.SPACE)
  }

  lemma NothingYet(name: seq<Byte>, sum: Byte)
    ensures PartsIn([], name, sum, L.Parts(name))
  {
  }

  lemma StartWrote(vol: Volume, f: nat, off: nat)
    requires vol.Valid() && f < |vol.first|
    ensures Wrote(vol.V(), vol.V(), f, off, [])
  {
    GrewSelf(vol.V(), f);
    GrewWrote(vol.V(), vol.V(), f, off);
  }

  // ----- reading ----------------------------------------------------------------------------

  /** relocClus without allocation, one cluster past the end of the chain at most. */
  method StandAt(vol: Volume, f: nat, off: nat) returns (off2: int)
    requires vol.Valid() && f < |vol.first| && vol.first[f] != 0 && vol.spc > 0
    requires off / (vol.spc * SECTOR) <= |vol.chain[f]| && Room(vol.index.View(), vol.V().h, f, |vol.chain[f]| + 1, false)
    modifies vol`fat, vol`taken, vol`data, vol`chain, vol`home, vol.index
    ensures vol.Valid() && vol.V() == old(vol.V()) && (off2 == -1 <==> off / (vol.spc * SECTOR) == |vol.chain[f]|)
    ensures off2 != -1 ==> off2 == off % (vol.spc * SECTOR) && f < |vol.index.metas|
                           && vol.index.metas[f].cur == vol.chain[f][off / (vol.spc * SECTOR)]
                           && Room(vol.index.View(), vol.V().h, f, |vol.chain[f]| + 1, false)
  {
    hide FatHeap.Inv, CI.Inv, Grew, Tied;
    ghost var a := vol.V();
    ghost var ix := vol.index.View();
    ghost var to := off / (vol.spc * SECTOR) + 1;
    RoomFor(ix, a.h, f, |vol.chain[f]| + 1, to, false);
    off2 := vol.RelocClus(f, off, false);
    if off2 != -1 {
      RoomKept(ix, a, vol.index.View(), a, f, |vol.chain[f]| + 1, to, false);
    }
  }

  /** The directory entry at off; not there when the chain has ended. */
  method EntryAt(vol: Volume, f: nat, off: nat) returns (there: bool, e: seq<Byte>)
    requires vol.Valid() && f < |vol.first| && vol.first[f] != 0 && vol.spc > 0 && off % L.ENTRY == 0
    requires off <= |AllBytes(vol.V(), f)| && Room(vol.index.View(), vol.V().h, f, |vol.chain[f]| + 1, false)
    modifies vol`fat, vol`taken, vol`data, vol`chain, vol`home, vol.index
    ensures vol.Valid() && vol.V() == old(vol.V()) && (there <==> off + L.ENTRY <= |AllBytes(vol.V(), f)|)
    ensures there ==> Room(vol.index.View(), vol.V().h, f, |vol.chain[f]| + 1, false)
                      && e == AllBytes(vol.V(), f)[off..off + L.ENTRY]
  {
    hide FatHeap.Inv, CI.Inv, Tied, ByteOf, Contents, Room, AllBytes;
    ghost var k, cb := Place(vol.V(), f, off);
    var off2 := StandAt(vol, f, off);
    if off2 == -1 {
      return false, [];
    }
    e := ReadHere(vol, f, off, k, off2);
    there := true;
  }

  /** The cluster of a directory in which an entry lies, or the end of its chain. */
  lemma Place(v: Vol, f: nat, off: nat) returns (k: nat, cb: nat)
    requires Formed(v) && f < |v.h.chain| && off % L.ENTRY == 0 && off <= |AllBytes(v, f)|
    ensures cb == v.spc * SECTOR > 0 && k == off / cb <= |v.h.chain[f]| && off == k * cb + off % cb && off % cb + L.ENTRY <= cb
    ensures k < |v.h.chain[f]| <==> off + L.ENTRY <= |AllBytes(v, f)|
  {
    hide FatHeap.Inv, Formed, AllBytes, ClusBytes;
    BytesOf(v, f);
    EntryInside(v.spc, off);
    cb := v.spc * SECTOR;
    k := Edge(cb, off, |v.h.chain[f]|);
  }

  lemma BytesOf(v: Vol, f: nat)
    requires Formed(v) && f < |v.h.chain|
    ensures |AllBytes(v, f)| == |v.h.chain[f]| * (v.spc * SECTOR) && v.spc > 0
  {
    hide FatHeap.Inv, Contents;
  }

  /** rwClus reading one entry where the walk left the directory, in its k-th cluster. */
  method ReadHere(vol: Volume, f: nat, off: nat, ghost k: nat, off2: nat) returns (e: seq<Byte>)
    requires vol.Valid() && f < |vol.chain| && f < |vol.index.metas| && k < |vol.chain[f]| && vol.index.metas[f].cur == vol.chain[f][k]
    requires off == k * (vol.spc * SECTOR) + off2 && off2 + L.ENTRY <= vol.spc * SECTOR && off + L.ENTRY <= |AllBytes(vol.V(), f)|
    ensures e == AllBytes(vol.V(), f)[off..off + L.ENTRY]
  {
    hide FatHeap.Inv, CI.Inv, Tied, ByteOf, ByteAt, ClusterOk, Contents, AllBytes;
    ClusterHere(vol.V(), f, k);
    e := RwClusRead(vol.data[vol.index.metas[f].cur], vol.spc, off2, L.ENTRY);
    EntryBytes(vol.V(), f, off, vol.spc * SECTOR, k, off2, vol.data[vol.index.metas[f].cur], e);
  }

  lemma ClusterHere(v: Vol, f: nat, k: nat)
    requires Formed(v) && f < |v.h.chain| && k < |v.h.chain[f]|
    ensures v.h.chain[f][k] < |v.data| && ClusterOk(v.data[v.h.chain[f][k]], v.spc)
  {
    InFile(v, f, k);
  }

  lemma EntryBytes(v: Vol, f: nat, off: nat, cb: nat, k: nat, r: nat, c: Cluster, e: seq<Byte>)
    requires Formed(v) && f < |v.h.chain| && cb == v.spc * SECTOR && off == k * cb + r && k < |v.h.chain[f]| && r + L.ENTRY <= cb
    requires v.h.chain[f][k] < |v.data| && c == v.data[v.h.chain[f][k]] && Read(c, v.spc, r, e) && |e| == L.ENTRY
    requires off + L.ENTRY <= |AllBytes(v, f)|
    ensures e == AllBytes(v, f)[off..off + L.ENTRY]
  {
    hide FatHeap.Inv, ByteAt, ClusterOk, ByteOf, ClusBytes;
    var all := AllBytes(v, f);
    forall i: nat | i < L.ENTRY ensures e[i] == all[off + i] {
      QuotientIs(cb, k, off + i, r + i);
      ByteIs(v, f, off + i, cb, k, r + i);
    }
  }

  lemma ByteIs(v: Vol, f: nat, q: nat, cb: nat, k: nat, r: nat)
    requires Formed(v) && f < |v.h.chain| && cb == v.spc * SECTOR && q / cb == k < |v.h.chain[f]| && q % cb == r
    ensures v.h.chain[f][k] < |v.data| && ClusterOk(v.data[v.h.chain[f][k]], v.spc) && r < v.spc * SECTOR
    ensures ByteOf(v, f, q) == ByteAt(v.data[v.h.chain[f][k]], v.spc, r)
  {
    hide FatHeap.Inv, ByteAt, ClusterOk;
    InFile(v, f, k);
  }

  /** e is what the cluster holds from byte at on. */
  ghost predicate Read(c: Cluster, spc: nat, at: nat, e: seq<Byte>) {
    ClusterOk(c, spc) && at + |e| <= spc * SECTOR && forall i :: 0 <= i < |e| ==> e[i] == ByteAt(c, spc, at + i)
  }

  lemma Edge(cb: nat, off: nat, len: nat) returns (k: nat)
    requires cb > 0 && off % cb + L.ENTRY <= cb && off <= len * cb
    ensures k == off / cb <= len && off == k * cb + off % cb && (k < len <==> off + L.ENTRY <= len * cb)
  {
    k := off / cb;
    assert off == k * cb + off % cb;
    if k < len {
      NextCluster(k, len, cb);
    } else if k > len {
      NextCluster(len, k, cb);
    }
  }

  /** dirMetaNext agrees with the scan of the directory's bytes. */
  method DirMetaNext(vol: Volume, f: nat, off: nat) returns (r: L.Next)
    requires vol.Valid() && f < |vol.first| && vol.first[f] != 0 && vol.spc > 0 && off % L.ENTRY == 0
    requires off <= |AllBytes(vol.V(), f)| && Room(vol.index.View(), vol.V().h, f, |vol.chain[f]| + 1, false)
    modifies vol`fat, vol`taken, vol`data, vol`chain, vol`home, vol.index
    ensures vol.Valid() && vol.V() == old(vol.V())
    ensures r == L.Scan(AllBytes(vol.V(), f), off, 0, L.ZeroName(), -1)
  {
    hide FatHeap.Inv, CI.Inv, Tied, Formed, Contents, Room, AllBytes, L.LookAt, L.Scan;
    ghost var all := AllBytes(vol.V(), f);
    var buf, o, cnt, seen := L.ZeroName(), off, 0, -1;
    while true
      invariant vol.Valid() && vol.V() == old(vol.V()) && o % L.ENTRY == 0 && o <= |all|
      invariant Room(vol.index.View(), vol.V().h, f, |vol.chain[f]| + 1, false)
      invariant |buf| == L.MAX_NAME + 1 && seen >= -1
      invariant L.Scan(all, off, 0, L.ZeroName(), -1) == L.Scan(all, o, cnt, buf, seen)
      decreases |all| - o
    {
      L.ScanStep(all, o, cnt, buf, seen);
      var there, e := EntryAt(vol, f, o);
      if !there {
        return L.End;
      }
      var l := L.ConsumeEntry(e, cnt, buf, seen);
      if l.Stop? {
        return l.r;
      }
      cnt, buf, seen, o := l.cnt, l.buf, l.seen, o + L.ENTRY;
    }
  }

  /** A file made past the first two entries is found again: same name, attribute, cluster, size and entry count. */
  lemma MadeIsFound(a: Vol, b: Vol, f: nat, off: nat, name: seq<Byte>, info: L.Info, src: seq<Byte>, short: seq<Byte>)
    requires |short| == L.SHORT && Wrote(a, b, f, off, src + L.ShortEntry(short, info)) && a.spc > 0
    requires PartsIn(src, name, L.Sum(short), 0) && L.ShortByte(name, short[0])
    requires 1 <= |name| <= 247 && forall p :: 0 <= p < |name| ==> 0 < name[p] < 128
    requires info.clus < U32 && info.size < U32 && info.attr != L.ATTR_LONG_NAME
    ensures f < |b.h.chain| && L.ReadsBack(AllBytes(b, f), off, name, info)
  {
    hide ByteOf, Orphans, Free, FatHeap.Inv, L.Sum, L.ShortByte, L.ReadsBack, PartsIn;
    var t := src + L.ShortEntry(short, info);
    Covers(off + |t|, ClusBytes(b), |b.h.chain[f]|);
    FatFiles.ReadsBack(a, b, f, off, t, |b.h.chain[f]| * ClusBytes(b));
    HoldsAt(AllBytes(b, f), off, src, name, short, info);
    L.RoundTrip(AllBytes(b, f), off, name, short, info);
  }

  lemma Covers(n: nat, cb: nat, len: nat)
    requires n > 0 && cb > 0 && (n - 1) / cb < len
    ensures n <= len * cb
  {
    NextCluster((n - 1) / cb, len, cb);
  }
}
