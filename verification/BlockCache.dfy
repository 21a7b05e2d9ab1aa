/**
 The hashed block cache: groups of 16 buffers on circular doubly linked lists, searched from the
 front, recycled from the back.
 */
module BlockCache {
  const NBUF := 16
  const HEAD := 16
  const GROUPS := 1024

  type Byte = b: int | 0 <= b < 256
  type Block = seq<Byte>

  /**
   A group's list and buffers; index 16 is the list head. `ring` is the list from the head on,
   `freed[i]` the time at which buffer i was last released to zero, `dirty` the buffers whose holder
   has changed them and not written them yet.
   */
  datatype View = View(next: seq<nat>, prev: seq<nat>, dev: seq<int>, blk: seq<nat>, valid: seq<bool>, refcnt: seq<nat>,
                       data: seq<Block>, ring: seq<nat>, freed: seq<nat>, now: nat, dirty: set<nat>)

  // ----- the list -------------------------------------------------------------------------

  ghost predicate Links(next: seq<nat>, prev: seq<nat>, ring: seq<nat>) {
    && |next| == |prev| == NBUF + 1 && 1 <= |ring| && ring[0] == HEAD
    && (forall p :: 0 <= p < |ring| ==> ring[p] <= HEAD)
    && (forall p, q :: 0 <= p < q < |ring| ==> ring[p] != ring[q])
    && forall p: nat :: p < |ring| ==> LinkAt(next, prev, ring, p)
  }

  ghost predicate LinkAt(next: seq<nat>, prev: seq<nat>, ring: seq<nat>, p: nat)
    requires p < |ring|
  {
    && ring[p] < |next| && next[ring[p]] == After(ring, p)
    && ring[p] < |prev| && prev[ring[p]] == Before(ring, p)
  }

  function After(ring: seq<nat>, p: nat): nat
    requires p < |ring|
  {
    if p + 1 == |ring| then ring[0] else ring[p + 1]
  }

  function Before(ring: seq<nat>, p: nat): nat
    requires p < |ring|
  {
    if p == 0 then ring[|ring| - 1] else ring[p - 1]
  }

  /** The list is a circular permutation of the group's 16 buffers. */
  ghost predicate Full(next: seq<nat>, prev: seq<nat>, ring: seq<nat>) {
    && Links(next, prev, ring) && |ring| == NBUF + 1
    && forall i: nat :: i <= HEAD ==> i in ring
  }

  function Front(ring: seq<nat>, b: nat): seq<nat>
    requires ring != []
  {
    [ring[0], b] + ring[1..]
  }

  function Without(ring: seq<nat>, p: nat): seq<nat>
    requires p < |ring|
  {
    ring[..p] + ring[p + 1..]
  }

  lemma InsertLinks(next: seq<nat>, prev: seq<nat>, ring: seq<nat>, b: nat)
    requires Links(next, prev, ring) && b < HEAD && b !in ring
    ensures next[HEAD] <= HEAD
    ensures Links(next[b := next[HEAD]][HEAD := b], prev[b := HEAD][next[HEAD] := b], Front(ring, b))
  {
    assert LinkAt(next, prev, ring, 0);
    var r := Front(ring, b);
    assert r[0] == HEAD && r[1] == b && forall p :: 2 <= p < |r| ==> r[p] == ring[p - 1];
    var n, m := next[b := next[HEAD]][HEAD := b], prev[b := HEAD][next[HEAD] := b];
    forall p: nat | p < |r| ensures LinkAt(n, m, r, p) {
      InsertAt(next, prev, ring, b, p);
    }
  }

  lemma InsertAt(next: seq<nat>, prev: seq<nat>, ring: seq<nat>, b: nat, p: nat)
    requires Links(next, prev, ring) && b < HEAD && b !in ring && p <= |ring| && next[HEAD] <= HEAD
    ensures LinkAt(next[b := next[HEAD]][HEAD := b], prev[b := HEAD][next[HEAD] := b], Front(ring, b), p)
  {
    assert LinkAt(next, prev, ring, 0);
    if p >= 2 {
      assert LinkAt(next, prev, ring, p - 1);
      assert ring[p - 1] != b;
    }
  }

  lemma RemoveLinks(next: seq<nat>, prev: seq<nat>, ring: seq<nat>, p: nat)
    requires Links(next, prev, ring) && 0 < p < |ring|
    ensures next[ring[p]] <= HEAD && prev[ring[p]] <= HEAD
    ensures Links(next[prev[ring[p]] := next[ring[p]]], prev[next[ring[p]] := prev[ring[p]]], Without(ring, p))
    ensures ring[p] !in Without(ring, p)
  {
    assert LinkAt(next, prev, ring, p);
    var r := Without(ring, p);
    assert forall q :: 0 <= q < |r| ==> r[q] == ring[if q < p then q else q + 1];
    var n, m := next[prev[ring[p]] := next[ring[p]]], prev[next[ring[p]] := prev[ring[p]]];
    forall q: nat | q < |r| ensures LinkAt(n, m, r, q) {
      RemoveAt(next, prev, ring, p, q);
    }
  }

  lemma RemoveAt(next: seq<nat>, prev: seq<nat>, ring: seq<nat>, p: nat, q: nat)
    requires Links(next, prev, ring) && 0 < p < |ring| && q + 1 < |ring| && next[ring[p]] <= HEAD && prev[ring[p]] <= HEAD
    ensures LinkAt(next[prev[ring[p]] := next[ring[p]]], prev[next[ring[p]] := prev[ring[p]]], Without(ring, p), q)
  {
    assert LinkAt(next, prev, ring, p);
    var o := if q < p then q else q + 1;
    assert LinkAt(next, prev, ring, o);
  }

  // ----- the invariant --------------------------------------------------------------------

  ghost predicate Live(v: View, i: nat)
    requires Sized(v) && i < NBUF
  {
    v.valid[i] || v.refcnt[i] > 0
  }

  ghost predicate Sized(v: View) {
    |v.dev| == |v.blk| == |v.valid| == |v.refcnt| == |v.data| == |v.freed| == NBUF
  }

  ghost predicate SameKey(v: View, i: nat, j: nat)
    requires Sized(v) && i < NBUF && j < NBUF
  {
    v.dev[i] == v.dev[j] && v.blk[i] == v.blk[j]
  }

  /**
   Every buffer starts with the same key, so keys alone are not unique. What holds is that a buffer
   in use, or with contents, is the first of the list with its key.
   */
  ghost predicate FirstWins(v: View)
    requires Sized(v) && Full(v.next, v.prev, v.ring)
  {
    forall p, q :: 1 <= p < q <= NBUF && v.ring[p] < NBUF && v.ring[q] < NBUF && SameKey(v, v.ring[p], v.ring[q]) ==> !Live(v, v.ring[q])
  }

  /** Unused buffers are listed by the time they fell out of use, latest first. */
  ghost predicate Aged(v: View)
    requires Sized(v) && Full(v.next, v.prev, v.ring)
  {
    && (forall i :: 0 <= i < NBUF ==> v.freed[i] <= v.now)
    && (forall p, q :: 1 <= p < q <= NBUF && v.ring[p] < NBUF && v.ring[q] < NBUF
                       && v.refcnt[v.ring[p]] == 0 == v.refcnt[v.ring[q]] ==>
          v.freed[v.ring[p]] >= v.freed[v.ring[q]])
  }

  /** A valid buffer that nobody is changing equals its block on the disk. */
  ghost predicate Coherent(v: View, group: nat, device: int, disk: seq<Block>)
    requires Sized(v)
  {
    && (forall i :: i in v.dirty ==> i < NBUF && v.refcnt[i] > 0 && v.valid[i])
    && (forall i: nat :: i < NBUF && Live(v, i) ==> v.dev[i] == device && v.blk[i] < |disk| && v.blk[i] % GROUPS == group)
    && (forall i: nat :: i < NBUF && v.valid[i] && v.blk[i] < |disk| && i !in v.dirty ==> v.data[i] == disk[v.blk[i]])
  }

  ghost predicate Inv(v: View, group: nat, device: int, disk: seq<Block>) {
    && Sized(v) && Full(v.next, v.prev, v.ring) && FirstWins(v) && Aged(v) && Coherent(v, group, device, disk)
  }

  lemma AtRing(v: View, i: nat) returns (p: nat)
    requires Full(v.next, v.prev, v.ring) && i < NBUF
    ensures 1 <= p <= NBUF && v.ring[p] == i
  {
    assert i in v.ring;
    p :| p < |v.ring| && v.ring[p] == i;
  }

  /** At most one buffer per key is valid or in use. */
  lemma OneLivePerKey(v: View, i: nat, j: nat)
    requires Sized(v) && Full(v.next, v.prev, v.ring) && FirstWins(v)
    requires i < NBUF && j < NBUF && SameKey(v, i, j) && Live(v, i) && Live(v, j)
    ensures i == j
  {
    var p := AtRing(v, i);
    var q := AtRing(v, j);
  }

  // ----- the updates and what they keep -----------------------------------------------------

  function Hit(v: View, b: nat): View
    requires Sized(v) && b < NBUF
  {
    v.(refcnt := v.refcnt[b := v.refcnt[b] + 1])
  }

  function Recycled(v: View, b: nat, dev: int, blockno: nat): View
    requires Sized(v) && b < NBUF
  {
    v.(dev := v.dev[b := dev], blk := v.blk[b := blockno], valid := v.valid[b := false], refcnt := v.refcnt[b := 1])
  }

  function Filled(v: View, b: nat, block: Block): View
    requires Sized(v) && b < NBUF
  {
    v.(data := v.data[b := block], valid := v.valid[b := true])
  }

  /** b is the first buffer of the list with this key. */
  ghost predicate FirstMatch(v: View, b: nat, dev: int, blockno: nat)
    requires Sized(v) && Full(v.next, v.prev, v.ring)
  {
    b < NBUF && v.dev[b] == dev && v.blk[b] == blockno
    && forall p, q :: 1 <= p < q <= NBUF && v.ring[q] == b && v.ring[p] < NBUF ==> v.dev[v.ring[p]] != dev || v.blk[v.ring[p]] != blockno
  }

  ghost predicate NoMatch(v: View, dev: int, blockno: nat)
    requires Sized(v)
  {
    forall i :: 0 <= i < NBUF ==> v.dev[i] != dev || v.blk[i] != blockno
  }

  ghost predicate AllUsed(v: View)
    requires Sized(v)
  {
    forall i :: 0 <= i < NBUF ==> v.refcnt[i] > 0
  }

  /** The unused buffer that fell out of use longest ago. */
  ghost predicate Oldest(v: View, b: nat)
    requires Sized(v)
  {
    b < NBUF && v.refcnt[b] == 0 && forall i :: 0 <= i < NBUF && v.refcnt[i] == 0 ==> v.freed[b] <= v.freed[i]
  }

  lemma HitInv(v: View, b: nat, group: nat, device: int, disk: seq<Block>, blockno: nat)
    requires Inv(v, group, device, disk) && FirstMatch(v, b, device, blockno) && blockno < |disk| && blockno % GROUPS == group
    ensures Inv(Hit(v, b), group, device, disk)
  {
  }

  lemma RecycledInv(v: View, b: nat, group: nat, device: int, disk: seq<Block>, blockno: nat)
    requires Inv(v, group, device, disk) && NoMatch(v, device, blockno) && b < NBUF && v.refcnt[b] == 0
    requires blockno < |disk| && blockno % GROUPS == group
    ensures Inv(Recycled(v, b, device, blockno), group, device, disk)
  {
  }

  lemma FilledInv(v: View, b: nat, group: nat, device: int, disk: seq<Block>)
    requires Inv(v, group, device, disk) && b < NBUF && v.refcnt[b] > 0 && !v.valid[b]
    ensures v.blk[b] < |disk| && Inv(Filled(v, b, disk[v.blk[b]]), group, device, disk)
  {
  }

  function Changed(v: View, b: nat, block: Block): View
    requires Sized(v) && b < NBUF
  {
    v.(data := v.data[b := block], dirty := v.dirty + {b})
  }

  lemma ChangedInv(v: View, b: nat, block: Block, group: nat, device: int, disk: seq<Block>)
    requires Inv(v, group, device, disk) && b < NBUF && v.refcnt[b] > 0 && v.valid[b]
    ensures Inv(Changed(v, b, block), group, device, disk)
  {
  }

  lemma WrittenInv(v: View, b: nat, group: nat, device: int, disk: seq<Block>)
    requires Inv(v, group, device, disk) && b < NBUF && v.refcnt[b] > 0 && v.valid[b]
    ensures v.blk[b] < |disk| && Inv(v.(dirty := v.dirty - {b}), group, device, disk[v.blk[b] := v.data[b]])
  {
    var w := v.(dirty := v.dirty - {b});
    forall i: nat | i < NBUF && v.valid[i] && v.blk[i] == v.blk[b] ensures i == b {
      OneLivePerKey(v, i, b);
    }
    assert FirstWins(w) && Aged(w);
  }

  /** Writing a block of another group does not disturb this one. */
  lemma ElsewhereInv(v: View, group: nat, device: int, disk: seq<Block>, k: nat, block: Block)
    requires Inv(v, group, device, disk) && k < |disk| && k % GROUPS != group
    ensures Inv(v, group, device, disk[k := block])
  {
  }

  /** Position in the old list of what stands at position k once entry p has moved to the front. */
  function Was(p: nat, k: nat): nat
    requires p >= 1
  {
    if k == 0 || k > p then k else if k == 1 then p else k - 1
  }

  function MovedFront(ring: seq<nat>, p: nat): seq<nat>
    requires 1 <= p < |ring|
  {
    Front(Without(ring, p), ring[p])
  }

  lemma MovedAt(ring: seq<nat>, p: nat)
    requires 1 <= p < |ring|
    ensures |MovedFront(ring, p)| == |ring|
    ensures forall k :: 0 <= k < |ring| ==> MovedFront(ring, p)[k] == ring[Was(p, k)]
  {
  }

  lemma MovedIs(ring: seq<nat>, p: nat)
    requires 1 <= p < |ring| && ring[0] == 16
    ensures MovedFront(ring, p) == [16, ring[p]] + ring[1..p] + ring[p + 1..]
  {
  }

  lemma MovedCovers(ring: seq<nat>, p: nat, i: nat)
    requires 1 <= p < |ring| && i in ring
    ensures i in MovedFront(ring, p)
  {
    MovedAt(ring, p);
    var k: nat :| k < |ring| && ring[k] == i;
    var l := if k == 0 || k > p then k else if k == p then 1 else k + 1;
    assert MovedFront(ring, p)[l] == i;
  }

  lemma MovedFull(next: seq<nat>, prev: seq<nat>, old_: seq<nat>, next0: seq<nat>, prev0: seq<nat>, p: nat)
    requires Full(next0, prev0, old_) && 1 <= p < |old_| && Links(next, prev, MovedFront(old_, p))
    ensures Full(next, prev, MovedFront(old_, p))
  {
    MovedAt(old_, p);
    forall i: nat | i <= HEAD ensures i in MovedFront(old_, p) {
      MovedCovers(old_, p, i);
    }
  }

  /** The last holder lets go of entry p: it moves to the front and its time is now the latest. */
  function Dropped(v: View, p: nat, next: seq<nat>, prev: seq<nat>): View
    requires Sized(v) && 1 <= p < |v.ring| && v.ring[p] < NBUF
  {
    View(next, prev, v.dev, v.blk, v.valid, v.refcnt[v.ring[p] := 0], v.data, MovedFront(v.ring, p),
         v.freed[v.ring[p] := v.now + 1], v.now + 1, v.dirty)
  }

  lemma DroppedInv(v: View, p: nat, next: seq<nat>, prev: seq<nat>, group: nat, device: int, disk: seq<Block>)
    requires Inv(v, group, device, disk) && 1 <= p < |v.ring| && v.ring[p] < NBUF
    requires v.refcnt[v.ring[p]] == 1 && v.ring[p] !in v.dirty && Links(next, prev, MovedFront(v.ring, p))
    ensures Inv(Dropped(v, p, next, prev), group, device, disk)
  {
    hide Coherent, Links;
    MovedAt(v.ring, p);
    MovedFull(next, prev, v.ring, v.next, v.prev, p);
    DroppedFirstWins(v, p, next, prev);
    DroppedAged(v, p, next, prev);
    DroppedCoherent(v, p, next, prev, group, device, disk);
  }

  lemma DroppedFirstWins(v: View, p: nat, next: seq<nat>, prev: seq<nat>)
    requires Sized(v) && Full(v.next, v.prev, v.ring) && FirstWins(v)
    requires 1 <= p < |v.ring| && v.ring[p] < NBUF && v.refcnt[v.ring[p]] == 1
    requires Full(next, prev, MovedFront(v.ring, p))
    ensures FirstWins(Dropped(v, p, next, prev))
  {
    MovedAt(v.ring, p);
    var w := Dropped(v, p, next, prev);
    forall k, l | 1 <= k < l <= NBUF && w.ring[k] < NBUF && w.ring[l] < NBUF && SameKey(w, w.ring[k], w.ring[l])
      ensures !Live(w, w.ring[l])
    {
      var a, b := Was(p, k), Was(p, l);
      assert w.ring[k] == v.ring[a] && w.ring[l] == v.ring[b];
      assert SameKey(v, v.ring[a], v.ring[b]) && SameKey(v, v.ring[b], v.ring[a]);
      assert a < b || a == p;
    }
  }

  lemma DroppedAged(v: View, p: nat, next: seq<nat>, prev: seq<nat>)
    requires Sized(v) && Full(v.next, v.prev, v.ring) && Aged(v)
    requires 1 <= p < |v.ring| && v.ring[p] < NBUF && v.refcnt[v.ring[p]] == 1
    requires Full(next, prev, MovedFront(v.ring, p))
    ensures Aged(Dropped(v, p, next, prev))
  {
    MovedAt(v.ring, p);
    var w := Dropped(v, p, next, prev);
    forall k, l | 1 <= k < l <= NBUF && w.ring[k] < NBUF && w.ring[l] < NBUF && w.refcnt[w.ring[k]] == 0 == w.refcnt[w.ring[l]]
      ensures w.freed[w.ring[k]] >= w.freed[w.ring[l]]
    {
      var a, b := Was(p, k), Was(p, l);
      assert w.ring[k] == v.ring[a] && w.ring[l] == v.ring[b];
    }
  }

  lemma DroppedCoherent(v: View, p: nat, next: seq<nat>, prev: seq<nat>, group: nat, device: int, disk: seq<Block>)
    requires Sized(v) && Coherent(v, group, device, disk)
    requires 1 <= p < |v.ring| && v.ring[p] < NBUF && v.refcnt[v.ring[p]] == 1 && v.ring[p] !in v.dirty
    ensures Coherent(Dropped(v, p, next, prev), group, device, disk)
  {
  }

  // ----- the cache in memory ----------------------------------------------------------------

  class Disk {
    var blocks: seq<Block>
  }

  class Group {
    var next: seq<nat>
    var prev: seq<nat>
    var dev: seq<int>
    var blk: seq<nat>
    var valid: seq<bool>
    var refcnt: seq<nat>
    var data: seq<Block>
    ghost var ring: seq<nat>
    ghost var freed: seq<nat>
    ghost var now: nat
    ghost var dirty: set<nat>

    ghost function V(): View
      reads this
    {
      View(next, prev, dev, blk, valid, refcnt, data, ring, freed, now, dirty)
    }

    /** binit's turn for one group: the list is built by inserting at its front. */
    constructor (ghost group: nat, ghost device: int, ghost disk: seq<Block>)
      ensures Inv(V(), group, device, disk) && dirty == {} && |refcnt| == |valid| == |data| == 16
      ensures forall i :: 0 <= i < 16 ==> refcnt[i] == 0 && !valid[i]
    {
      dev, blk, valid := seq(NBUF, _ => 0), seq(NBUF, _ => 0), seq(NBUF, _ => false);
      refcnt, data, freed := seq(NBUF, _ => 0), seq(NBUF, _ => []), seq(NBUF, _ => 0);
      now, dirty := 0, {};
      prev := seq(NBUF + 1, _ => HEAD);
      next := seq(NBUF + 1, _ => HEAD);
      ring := [HEAD];
      new;
      var b := 0;
      while b < NBUF
        invariant 0 <= b <= NBUF && Links(next, prev, ring) && |ring| == b + 1
        invariant forall k :: 1 <= k < |ring| ==> ring[k] == b - k
        modifies this`next, this`prev, this`ring
      {
        InsertLinks(next, prev, ring, b);
        next := next[b := next[HEAD]];
        prev := prev[b := HEAD];
        prev := prev[next[HEAD] := b];
        next := next[HEAD := b];
        ring := Front(ring, b);
        b := b + 1;
      }
      forall i: nat | i <= HEAD ensures i in ring {
        assert i < HEAD ==> ring[HEAD - i] == i;
      }
    }

    /** bget; HEAD stands for its panic, when the block is not cached and every buffer is in use. */
    method Bget(d: int, blockno: nat, ghost group: nat, ghost disk: seq<Block>) returns (b: nat)
      requires Inv(V(), group, d, disk) && d >= 0 && blockno < |disk| && blockno % GROUPS == group
      modifies this
      ensures Inv(V(), group, d, disk) && b <= HEAD && (b == HEAD <==> old(NoMatch(V(), d, blockno) && AllUsed(V())))
      ensures b == HEAD ==> V() == old(V())
      ensures b < HEAD ==> refcnt[b] == old(refcnt)[b] + 1 && dev[b] == d && blk[b] == blockno
      ensures b < HEAD && old(NoMatch(V(), d, blockno)) ==> old(Oldest(V(), b)) && V() == Recycled(old(V()), b, d, blockno)
      ensures !old(NoMatch(V(), d, blockno)) ==> old(FirstMatch(V(), b, d, blockno)) && V() == Hit(old(V()), b)
      ensures b < HEAD ==>
                && refcnt == old(refcnt)[b := old(refcnt)[b] + 1] && dev == old(dev)[b := d] && blk == old(blk)[b := blockno]
                && valid == (if old(NoMatch(V(), d, blockno)) then old(valid)[b := false] else old(valid))
                && data == old(data) && dirty == old(dirty) && ring == old(ring) && next == old(next) && prev == old(prev)
    {
      hide Inv, FirstMatch, NoMatch, Oldest, AllUsed;
      SizedInv(V(), group, d, disk);
      b := HEAD;
      if d >= 0 {
        b := Search(d, blockno, group, disk);
        if b != HEAD {
          MatchFacts(V(), b, d, blockno);
          HitInv(V(), b, group, d, disk, blockno);
          refcnt := refcnt[b := refcnt[b] + 1];
          return;
        }
      }
      b := Victim(group, d, disk);
      if b == HEAD {
        return;
      }
      OldestFacts(V(), b);
      RecycledInv(V(), b, group, d, disk, blockno);
      dev := dev[b := d];
      blk := blk[b := blockno];
      valid := valid[b := false];
      refcnt := refcnt[b := 1];
    }

    /** The forward search of bget; HEAD when there is no such buffer. */
    method Search(d: int, blockno: nat, ghost group: nat, ghost disk: seq<Block>) returns (b: nat)
      requires Inv(V(), group, d, disk)
      ensures if b == HEAD then NoMatch(V(), d, blockno) else FirstMatch(V(), b, d, blockno)
    {
      ghost var p := 1;
      LinkFacts(V(), 0);
      b := next[HEAD];
      while b != HEAD && !(dev[b] == d && blk[b] == blockno)
        invariant 1 <= p <= NBUF + 1 && b == (if p == NBUF + 1 then HEAD else ring[p]) && b <= HEAD
        invariant p <= NBUF ==> b < NBUF
        invariant forall q :: 1 <= q < p ==> ring[q] < NBUF && (dev[ring[q]] != d || blk[ring[q]] != blockno)
        decreases NBUF + 1 - p
      {
        LinkFacts(V(), p);
        b := next[b];
        p := p + 1;
      }
      if b == HEAD {
        forall i: nat | i < NBUF ensures dev[i] != d || blk[i] != blockno {
          var q := AtRing(V(), i);
        }
      }
    }

    /** The backward search of bget for an unused buffer; HEAD when there is none. */
    method Victim(ghost group: nat, ghost device: int, ghost disk: seq<Block>) returns (b: nat)
      requires Inv(V(), group, device, disk)
      ensures if b == HEAD then AllUsed(V()) else Oldest(V(), b) && !AllUsed(V())
    {
      hide FirstWins, Coherent, Links, Aged;
      ghost var p := NBUF;
      LinkFacts(V(), 0);
      b := prev[HEAD];
      LinkFacts(V(), p);
      while b != HEAD && refcnt[b] != 0
        invariant 0 <= p <= NBUF && b == ring[p] && b <= HEAD && (p > 0 ==> b < NBUF)
        invariant forall q :: p < q <= NBUF ==> ring[q] < NBUF && refcnt[ring[q]] != 0
        decreases p
      {
        LinkFacts(V(), p);
        LinkFacts(V(), p - 1);
        b := prev[b];
        p := p - 1;
      }
      if b == HEAD {
        forall i: nat | i < NBUF ensures refcnt[i] > 0 {
          var q := AtRing(V(), i);
        }
      } else {
        OldestAt(V(), p);
      }
    }

    /** bread: read the disk unless the buffer already holds the block; HEAD when bget panics. */
    method Bread(d: int, blockno: nat, ghost group: nat, disk: Disk) returns (b: nat)
      requires Inv(V(), group, d, disk.blocks) && d >= 0 && blockno < |disk.blocks| && blockno % GROUPS == group
      modifies this
      ensures Inv(V(), group, d, disk.blocks) && (b == HEAD <==> old(NoMatch(V(), d, blockno) && AllUsed(V())))
      ensures if b == HEAD then V() == old(V()) else Opened(old(V()), V(), b, d, blockno, disk.blocks)
    {
      hide Inv, FirstMatch, NoMatch, Opened, Recycled, Hit, Filled, Oldest, AllUsed;
      ghost var a := V();
      SizedInv(a, group, d, disk.blocks);
      b := Bget(d, blockno, group, disk.blocks);
      if b == HEAD {
        return;
      }
      ghost var m := V();
      SizedInv(m, group, d, disk.blocks);
      if !valid[b] {
        FilledInv(m, b, group, d, disk.blocks);
        data := data[b := disk.blocks[blk[b]]];
        valid := valid[b := true];
        FilledIs(m, V(), b, disk.blocks[blk[b]]);
      }
      ReadOpened(a, m, V(), b, group, d, blockno, disk.blocks);
    }

    /** A holder changes its buffer. */
    method Change(b: nat, block: Block, ghost group: nat, ghost device: int, ghost disk: seq<Block>)
      requires Inv(V(), group, device, disk) && b < NBUF && refcnt[b] > 0 && valid[b]
      modifies this`data, this`dirty
      ensures Inv(V(), group, device, disk) && V() == Changed(old(V()), b, block)
      ensures data == old(data)[b := block] && dirty == old(dirty) + {b}
    {
      ChangedInv(V(), b, block, group, device, disk);
      data := data[b := block];
      dirty := dirty + {b};
    }

    /** bwrite, writing through. */
    method Bwrite(b: nat, ghost group: nat, ghost device: int, disk: Disk)
      requires Inv(V(), group, device, disk.blocks) && b < NBUF && refcnt[b] > 0 && valid[b]
      modifies disk, this`dirty
      ensures blk[b] < |old(disk.blocks)| && disk.blocks == old(disk.blocks)[blk[b] := data[b]]
      ensures Inv(V(), group, device, disk.blocks) && dirty == old(dirty) - {b}
    {
      WrittenInv(V(), b, group, device, disk.blocks);
      disk.blocks := disk.blocks[blk[b] := data[b]];
      dirty := dirty - {b};
    }

    /** The relinking in brelse: out of the list, then in again at the front. */
    method ToFront(b: nat, ghost p: nat)
      requires Full(next, prev, ring) && 1 <= p <= NBUF && b == ring[p]
      modifies this`next, this`prev
      ensures Links(next, prev, MovedFront(ring, p))
    {
      hide Full, Links;
      BeforeAfter(next, prev, ring, p);
      RemoveLinks(next, prev, ring, p);
      prev := prev[next[b] := prev[b]];
      next := next[prev[b] := next[b]];
      InsertLinks(next, prev, Without(ring, p), b);
      next := next[b := next[HEAD]];
      prev := prev[b := HEAD];
      prev := prev[next[HEAD] := b];
      next := next[HEAD := b];
    }

    /** brelse. */
    method Brelse(b: nat, ghost group: nat, ghost device: int, ghost disk: seq<Block>)
      requires Inv(V(), group, device, disk) && b < NBUF && refcnt[b] > 0 && (refcnt[b] == 1 ==> b !in dirty)
      modifies this
      ensures Inv(V(), group, device, disk) && refcnt == old(refcnt)[b := old(refcnt)[b] - 1]
      ensures data == old(data) && valid == old(valid) && dev == old(dev) && blk == old(blk) && dirty == old(dirty)
      ensures old(refcnt)[b] > 1 ==> ring == old(ring) && freed == old(freed)
      ensures old(refcnt)[b] == 1 ==> |ring| > 1 && ring[1] == b && freed[b] == now == old(now) + 1
      ensures old(refcnt)[b] == 1 ==> exists p :: 1 <= p < |old(ring)| && old(ring)[p] == b
                                        && ring == [16, b] + old(ring)[1..p] + old(ring)[p + 1..]
    {
      hide FirstWins, Aged, Coherent, Links, Inv;
      ghost var v := V();
      SizedInv(v, group, device, disk);
      ghost var p := AtRing(v, b);
      refcnt := refcnt[b := refcnt[b] - 1];
      if refcnt[b] == 0 {
        ToFront(b, p);
        DroppedInv(v, p, next, prev, group, device, disk);
        MovedIs(ring, p);
        ring := MovedFront(ring, p);
        freed := freed[b := now + 1];
        now := now + 1;
      } else {
        StillHeldInv(v, b, group, device, disk);
      }
    }
  }

  lemma SizedInv(v: View, group: nat, device: int, disk: seq<Block>)
    requires Inv(v, group, device, disk)
    ensures Sized(v) && Full(v.next, v.prev, v.ring) && |v.next| == |v.prev| == NBUF + 1
    ensures Links(v.next, v.prev, v.ring)
  {
  }

  lemma BeforeAfter(next: seq<nat>, prev: seq<nat>, ring: seq<nat>, p: nat)
    requires Full(next, prev, ring) && 1 <= p <= NBUF
    ensures |ring| == |next| == |prev| == NBUF + 1 && Links(next, prev, ring) && ring[p] < NBUF
    ensures next[ring[p]] != ring[p] && next[ring[p]] <= HEAD && prev[ring[p]] <= HEAD
    ensures ring[p] !in Without(ring, p)
  {
    assert LinkAt(next, prev, ring, p);
  }

  lemma OldestAt(v: View, p: nat)
    requires Sized(v) && Full(v.next, v.prev, v.ring) && Aged(v) && 1 <= p <= NBUF && v.ring[p] < NBUF && v.refcnt[v.ring[p]] == 0
    requires forall q :: p < q <= NBUF ==> v.ring[q] < NBUF && v.refcnt[v.ring[q]] != 0
    ensures Oldest(v, v.ring[p])
  {
    forall i: nat | i < NBUF && v.refcnt[i] == 0 ensures v.freed[v.ring[p]] <= v.freed[i] {
      var q := AtRing(v, i);
    }
  }

  lemma Reads(v: View, b: nat, group: nat, device: int, disk: seq<Block>)
    requires Inv(v, group, device, disk) && b < NBUF && v.valid[b]
    ensures v.blk[b] < |disk| && (b !in v.dirty ==> v.data[b] == disk[v.blk[b]])
  {
    assert Live(v, b);
  }

  /** What bread gives: a buffer with this key and the block's contents; on a miss, the oldest unused one. */
  ghost predicate Opened(a: View, v: View, b: nat, d: int, blockno: nat, disk: seq<Block>) {
    && Sized(a) && Sized(v) && b < NBUF && blockno < |disk|
    && v.valid[b] && v.dev[b] == d && v.blk[b] == blockno && v.refcnt == a.refcnt[b := a.refcnt[b] + 1]
    && v.data[b] == (if b in a.dirty then a.data[b] else disk[blockno])
    && v.dirty == a.dirty && v.ring == a.ring && v.freed == a.freed
    && (forall i :: 0 <= i < NBUF && i != b ==>
          v.data[i] == a.data[i] && v.dev[i] == a.dev[i] && v.blk[i] == a.blk[i] && v.valid[i] == a.valid[i])
    && (NoMatch(a, d, blockno) ==> Oldest(a, b))
    && (!NoMatch(a, d, blockno) ==> a.dev[b] == d && a.blk[b] == blockno)
  }

  lemma FilledIs(m: View, v: View, b: nat, block: Block)
    requires Sized(m) && b < NBUF
    requires v == View(m.next, m.prev, m.dev, m.blk, m.valid[b := true], m.refcnt, m.data[b := block], m.ring, m.freed, m.now, m.dirty)
    ensures v == Filled(m, b, block)
  {
  }

  lemma ReadOpened(a: View, m: View, v: View, b: nat, group: nat, d: int, blockno: nat, disk: seq<Block>)
    requires Inv(a, group, d, disk) && Inv(m, group, d, disk) && Inv(v, group, d, disk) && b < NBUF && blockno < |disk|
    requires NoMatch(a, d, blockno) ==> Oldest(a, b) && m == Recycled(a, b, d, blockno)
    requires !NoMatch(a, d, blockno) ==> FirstMatch(a, b, d, blockno) && m == Hit(a, b)
    requires v == if m.valid[b] then m else Filled(m, b, disk[blockno])
    ensures Opened(a, v, b, d, blockno, disk)
  {
    hide Full, FirstWins, Aged;
    DirtyValid(a, group, d, disk);
    Reads(v, b, group, d, disk);
  }

  lemma MatchFacts(v: View, b: nat, d: int, blockno: nat)
    requires Sized(v) && Full(v.next, v.prev, v.ring) && FirstMatch(v, b, d, blockno)
    ensures b < NBUF && v.dev[b] == d && v.blk[b] == blockno && !NoMatch(v, d, blockno)
  {
  }

  lemma OldestFacts(v: View, b: nat)
    requires Sized(v) && Oldest(v, b)
    ensures b < NBUF && v.refcnt[b] == 0
  {
  }

  lemma DirtyValid(v: View, group: nat, device: int, disk: seq<Block>)
    requires Inv(v, group, device, disk)
    ensures forall i :: i in v.dirty ==> i < NBUF && v.valid[i] && v.refcnt[i] > 0
  {
  }

  lemma StillHeldInv(v: View, b: nat, group: nat, device: int, disk: seq<Block>)
    requires Inv(v, group, device, disk) && b < NBUF && v.refcnt[b] > 1
    ensures Inv(v.(refcnt := v.refcnt[b := v.refcnt[b] - 1]), group, device, disk)
  {
  }

  lemma LinkFacts(v: View, p: nat)
    requires Full(v.next, v.prev, v.ring) && p <= NBUF
    ensures |v.next| == |v.prev| == NBUF + 1 == |v.ring| && v.ring[0] == HEAD && v.ring[p] <= HEAD && (p > 0 ==> v.ring[p] < NBUF)
    ensures v.next[v.ring[p]] == if p == NBUF then HEAD else v.ring[p + 1]
    ensures v.prev[v.ring[p]] == if p == 0 then v.ring[NBUF] else v.ring[p - 1]
    ensures forall q :: 1 <= q <= NBUF ==> v.ring[q] < NBUF
  {
    assert LinkAt(v.next, v.prev, v.ring, p);
  }

  // ----- all groups -------------------------------------------------------------------------

  /** The whole cache in front of one disk; a buffer is named by its group and place. */
  class Cache {
    const group: seq<Group>
    const disk: Disk
    const device: int

    /** binit, over all groups. */
    constructor (disk: Disk, device: int)
      requires device >= 0
      ensures Valid() && this.disk == disk && this.device == device && forall g :: 0 <= g < GROUPS ==> fresh(group[g])
      ensures |group| == 1024
      ensures forall g, i :: 0 <= g < 1024 && 0 <= i < 16 ==> Sized(group[g].V()) && group[g].refcnt[i] == 0 && !group[g].valid[i]
    {
      var gs: seq<Group> := [];
      var i := 0;
      while i < GROUPS
        invariant 0 <= i <= GROUPS && |gs| == i
        invariant forall g: nat :: g < i ==> fresh(gs[g]) && Inv(gs[g].V(), g, device, disk.blocks)
        invariant forall g, b :: 0 <= g < i && 0 <= b < NBUF ==> Sized(gs[g].V()) && gs[g].refcnt[b] == 0 && !gs[g].valid[b]
        invariant forall g, h :: 0 <= g < h < i ==> gs[g] != gs[h]
      {
        hide Inv;
        var g := new Group(i, device, disk.blocks);
        SizedInv(g.V(), i, device, disk.blocks);
        gs := gs + [g];
        i := i + 1;
      }
      this.group, this.disk, this.device := gs, disk, device;
    }

    ghost predicate Valid()
      reads this, group, disk
    {
      && |group| == GROUPS && device >= 0
      && (forall g, h :: 0 <= g < h < GROUPS ==> group[g] != group[h])
      && forall g: nat :: g < GROUPS ==> Inv(group[g].V(), g, device, disk.blocks)
    }

    /** bread: the block's contents as the disk has them, whatever came before. */
    method Bread(d: int, blockno: nat) returns (g: nat, b: nat)
      requires Valid() && d == device && blockno < |disk.blocks|
      modifies group
      ensures Valid() && g == blockno % 1024
      ensures b == HEAD <==> old(NoMatch(group[g].V(), d, blockno) && AllUsed(group[g].V()))
      ensures if b == HEAD then group[g].V() == old(group[g].V()) else Opened(old(group[g].V()), group[g].V(), b, d, blockno, disk.blocks)
      ensures forall h :: 0 <= h < GROUPS && h != g ==> group[h].V() == old(group[h].V())
    {
      hide Inv, NoMatch, Opened, AllUsed;
      g := blockno % GROUPS;
      SizedInv(group[g].V(), g, device, disk.blocks);
      b := group[g].Bread(d, blockno, g, disk);
    }

    /** The holder of a valid buffer changes it. */
    method Change(g: nat, b: nat, block: Block)
      requires Valid() && g < GROUPS && b < |group[g].refcnt| && b < |group[g].valid| && group[g].refcnt[b] > 0 && group[g].valid[b]
      modifies group[g]
      ensures Valid() && Sized(old(group[g].V())) && b < NBUF && group[g].V() == Changed(old(group[g].V()), b, block)
      ensures group[g].data == old(group[g].data)[b := block] && group[g].dirty == old(group[g].dirty) + {b}
    {
      hide Inv;
      SizedInv(group[g].V(), g, device, disk.blocks);
      group[g].Change(b, block, g, device, disk.blocks);
    }

    /** bwrite; blocks of every other group keep agreeing with the disk. */
    method Bwrite(g: nat, b: nat)
      requires Valid() && g < GROUPS && b < |group[g].refcnt| && b < |group[g].valid| && group[g].refcnt[b] > 0 && group[g].valid[b]
      modifies group[g], disk
      ensures Valid() && b < |group[g].blk| && b < |group[g].data| && group[g].blk[b] < |old(disk.blocks)|
      ensures disk.blocks == old(disk.blocks)[group[g].blk[b] := group[g].data[b]]
      ensures group[g].V() == old(group[g].V()).(dirty := old(group[g].dirty) - {b})
    {
      hide Inv;
      ghost var was := disk.blocks;
      SizedInv(group[g].V(), g, device, was);
      WrittenBlock(group[g].V(), b, g, device, was);
      forall h: nat | h < GROUPS && h != g
        ensures Inv(group[h].V(), h, device, was[group[g].blk[b] := group[g].data[b]])
      {
        ElsewhereInv(group[h].V(), h, device, was, group[g].blk[b], group[g].data[b]);
      }
      group[g].Bwrite(b, g, device, disk);
    }

    method Brelse(g: nat, b: nat)
      requires Valid() && g < GROUPS && b < |group[g].refcnt| && group[g].refcnt[b] > 0
      requires group[g].refcnt[b] == 1 ==> b !in group[g].dirty
      modifies group[g]
      ensures Valid() && group[g].refcnt == old(group[g].refcnt)[b := old(group[g].refcnt)[b] - 1]
    {
      hide Inv;
      SizedInv(group[g].V(), g, device, disk.blocks);
      group[g].Brelse(b, g, device, disk.blocks);
    }
  }

  lemma WrittenBlock(v: View, b: nat, group: nat, device: int, disk: seq<Block>)
    requires Inv(v, group, device, disk) && b < NBUF && v.refcnt[b] > 0
    ensures v.blk[b] < |disk| && v.blk[b] % GROUPS == group
  {
    assert Live(v, b);
  }

  // ----- device numbers ---------------------------------------------------------------------

  /** Every valid buffer without unwritten changes holds what the disk has at its block, whatever its device number. */
  ghost predicate Agrees(v: View, disk: seq<Block>)
    requires Sized(v)
  {
    forall j: nat :: j < NBUF && v.valid[j] && j !in v.dirty ==> v.blk[j] < |disk| && v.data[j] == disk[v.blk[j]]
  }

  /** Buffer i after its holder has put x into it and bwrite has written it. */
  ghost function Rewritten(v: View, i: nat, x: Block): View
    requires Sized(v) && i < NBUF
  {
    var c := Changed(v, i, x);
    c.(dirty := c.dirty - {i})
  }

  /**
   The driver is told only the block number. So writing through a buffer leaves every other valid
   buffer agreeing with the disk, whatever is written, exactly if none of them is for the same block
   number; two device numbers in use would make that a real restriction.
   */
  lemma WriteAgreesIff(v: View, i: nat, disk: seq<Block>)
    requires Sized(v) && i < NBUF && v.valid[i] && v.blk[i] < |disk| && Agrees(v, disk)
    ensures (forall x: Block :: Agrees(Rewritten(v, i, x), disk[v.blk[i] := x]))
            <==> forall j: nat :: j < NBUF && j != i && v.valid[j] && j !in v.dirty ==> v.blk[j] != v.blk[i]
  {
    if j: nat :| j < NBUF && j != i && v.valid[j] && j !in v.dirty && v.blk[j] == v.blk[i] {
      var x := v.data[j] + [0];
      assert Rewritten(v, i, x).data[j] != disk[v.blk[i] := x][v.blk[j]];
      assert !Agrees(Rewritten(v, i, x), disk[v.blk[i] := x]);
    }
  }

  /** With one device number, the only one the kernel gives to its root file system, it holds of every buffer. */
  lemma OneDeviceAgrees(v: View, i: nat, group: nat, device: int, disk: seq<Block>, x: Block)
    requires Inv(v, group, device, disk) && i < NBUF && v.valid[i]
    ensures v.blk[i] < |disk| && Agrees(v, disk) && Agrees(Rewritten(v, i, x), disk[v.blk[i] := x])
  {
    hide FirstWins, Full, Aged;
    Reads(v, i, group, device, disk);
    forall j: nat | j < NBUF && v.valid[j] && j !in v.dirty ensures v.blk[j] < |disk| && v.data[j] == disk[v.blk[j]] {
      Reads(v, j, group, device, disk);
    }
    forall j: nat | j < NBUF && j != i && v.valid[j] ensures v.blk[j] != v.blk[i] {
      assert Live(v, i) && Live(v, j);
      if v.blk[j] == v.blk[i] {
        OneLivePerKey(v, i, j);
      }
    }
    WriteAgreesIff(v, i, disk);
  }
}
