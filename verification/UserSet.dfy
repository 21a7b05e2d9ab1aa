/**
 Setting a range of a process's memory to one byte. Where copyout walks again after breaking
 sharing, memsetOut keeps the address of the page that was shared.
 */
module UserSet {
  import opened PageTables
  import opened PhysicalMemory
  import opened KernelMemory
  import opened AddressSpaces
  import opened CopyOnWrite
  import opened LazyLoading
  import opened UserCopy

  function Same(value: Byte, n: nat): (s: seq<Byte>)
    ensures |s| == n && forall i :: 0 <= i < n ==> s[i] == value
  {
    seq<Byte>(n, _ => value)
  }

  /** The position is mapped and marked copy-on-write. */
  ghost predicate Marked(s: State, key: Key) {
    key in s.t.maps && s.t.maps[key].Entry? && s.t.maps[key].perm.cow
  }

  /** Both positions map one physical page. */
  ghost predicate Aliases(s: State, key: Key, other: Key) {
    key in s.t.maps && s.t.maps[key].Entry? && MapsTo(s, other, s.t.maps[key].ppn)
  }

  /** No two pages of the range are one physical page, when one of them is marked. */
  ghost predicate Unaliased(s: State, root: nat, va: nat, n: nat) {
    forall x: nat, y: nat :: va <= x < va + n && va <= y < va + n && Marked(s, Key(root, PageOf(x))) && PageOf(x) != PageOf(y) ==>
      !Aliases(s, Key(root, PageOf(x)), Key(root, PageOf(y)))
  }

  /** Address x of space r lies where the range, at a marked page, is written through the old address. */
  ghost predicate Hit(s: State, root: nat, va: nat, n: nat, r: nat, x: nat) {
    exists y: nat :: va <= y < va + n && HitBy(s, root, y, r, x)
  }

  ghost predicate HitBy(s: State, root: nat, y: nat, r: nat, x: nat) {
    Marked(s, Key(root, PageOf(y))) && Key(r, PageOf(x)) != Key(root, PageOf(y)) && y % PAGE_SIZE == x % PAGE_SIZE
    && Aliases(s, Key(root, PageOf(y)), Key(r, PageOf(x)))
  }

  /** What space r sees at x once n bytes of the range have been set. */
  ghost function Expected(s: State, segs: seq<Segment>, root: nat, va: nat, n: nat, value: Byte, r: nat, x: nat): Byte {
    if Hit(s, root, va, n, r, x) then value
    else if r == root && va <= x < va + n && !Marked(s, Key(root, PageOf(x))) then value
    else Seen(s, segs, r, x)
  }

  ghost predicate SetSoFar(a: State, b: State, segs: seq<Segment>, root: nat, va: nat, n: nat, value: Byte) {
    forall r: nat, x: nat :: x < VA_MAX ==> Seen(b, segs, r, x) == Expected(a, segs, root, va, n, value, r, x)
  }

  /** What the loop still has to do is as it was at first: mappings, and who else maps a marked page. */
  ghost predicate Ahead(a: State, b: State, root: nat, va: nat, n: nat) {
    forall x: nat :: va <= x < va + n ==> AheadAt(a, b, Key(root, PageOf(x)))
  }

  ghost predicate AheadAt(a: State, b: State, key: Key) {
    && (key in b.t.maps <==> key in a.t.maps) && (key in a.t.maps ==> b.t.maps[key] == a.t.maps[key])
    && (Marked(a, key) ==> forall k: Key :: MapsTo(b, k, a.t.maps[key].ppn) <==> MapsTo(a, k, a.t.maps[key].ppn))
  }

  lemma SetNothing(a: State, segs: seq<Segment>, root: nat, va: nat, n: nat, value: Byte)
    ensures SetSoFar(a, a, segs, root, va, 0, value) && Ahead(a, a, root, va, n)
  {
    hide Seen, PageOf;
  }

  // ----- one turn ---------------------------------------------------------------------------

  /** A turn at a page that is not marked writes it like copyout. */
  lemma PlainTurn(a: State, b: State, c: State, d: State, segs: seq<Segment>, root: nat, va: nat, m: nat, w: nat, n: nat, value: Byte)
    requires SetSoFar(a, b, segs, root, va, m, value) && SameSight(b, c, segs) && Copied(c, d, segs, root, w, Same(value, n))
    requires w == va + m && forall x: nat :: w <= x < w + n ==> !Marked(a, Key(root, PageOf(x)))
    ensures SetSoFar(a, d, segs, root, va, m + n, value)
  {
    hide Seen, PageOf, HitBy, Marked;
    forall r: nat, x: nat | x < VA_MAX ensures Seen(d, segs, r, x) == Expected(a, segs, root, va, m + n, value, r, x) {
      assert Seen(c, segs, r, x) == Seen(b, segs, r, x) == Expected(a, segs, root, va, m, value, r, x);
      NoNewHit(a, root, va, m, n, r, x);
    }
  }

  lemma NoNewHit(a: State, root: nat, va: nat, m: nat, n: nat, r: nat, x: nat)
    requires forall y: nat :: va + m <= y < va + m + n ==> !Marked(a, Key(root, PageOf(y)))
    ensures Hit(a, root, va, m + n, r, x) <==> Hit(a, root, va, m, r, x)
  {
    hide PageOf, Marked;
    if Hit(a, root, va, m + n, r, x) {
      var y: nat :| va <= y < va + (m + n) && HitBy(a, root, y, r, x);
      assert y < va + m;
    }
  }

  /** A turn at a marked page writes what everybody else has there. */
  lemma StrayTurn(a: State, b: State, c: State, d: State, segs: seq<Segment>, root: nat, va: nat, m: nat, w: nat, n: nat, value: Byte)
    requires SetSoFar(a, b, segs, root, va, m, value) && Inv(a) && Inv(b) && Inv(c) && w == va + m && w < VA_MAX && w + n <= VA_MAX && w % PAGE_SIZE + n <= PAGE_SIZE
    requires var key := Key(root, PageOf(w));
             && Marked(a, key) && AheadAt(a, b, key) && CowBroken(b, c, key) && a.t.maps[key].ppn < |c.bytes|
             && d == c.(bytes := c.bytes[a.t.maps[key].ppn := Put(c.bytes[a.t.maps[key].ppn], w % PAGE_SIZE, Same(value, n))])
    ensures SetSoFar(a, d, segs, root, va, m + n, value)
  {
    hide Seen, PageOf, HitBy, Marked, Good, Exact, CowBroken;
    CowSight(b, c, segs, Key(root, PageOf(w)));
    forall r: nat, x: nat | x < VA_MAX ensures Seen(d, segs, r, x) == Expected(a, segs, root, va, m + n, value, r, x) {
      assert Seen(c, segs, r, x) == Seen(b, segs, r, x) == Expected(a, segs, root, va, m, value, r, x);
      StrayAt(a, b, c, d, segs, root, w, n, value, r, x);
      HitMore(a, root, va, m, w, n, r, x);
      InMarked(a, root, w, n, x);
    }
  }

  /** What a turn at a marked page does to one address. */
  lemma StrayAt(a: State, b: State, c: State, d: State, segs: seq<Segment>, root: nat, w: nat, n: nat, value: Byte, r: nat, x: nat)
    requires Inv(b) && Inv(c) && w % PAGE_SIZE + n <= PAGE_SIZE
    requires var key := Key(root, PageOf(w));
             && Marked(a, key) && AheadAt(a, b, key) && CowBroken(b, c, key) && a.t.maps[key].ppn < |c.bytes|
             && d == c.(bytes := c.bytes[a.t.maps[key].ppn := Put(c.bytes[a.t.maps[key].ppn], w % PAGE_SIZE, Same(value, n))])
    ensures var key := Key(root, PageOf(w));
            Seen(d, segs, r, x) == if Key(r, PageOf(x)) != key && Aliases(a, key, Key(r, PageOf(x))) && w % PAGE_SIZE <= x % PAGE_SIZE < w % PAGE_SIZE + n then value
                                   else Seen(c, segs, r, x)
  {
    hide Good, Exact, PageOf, LazyByte;
    var key, k := Key(root, PageOf(w)), Key(r, PageOf(x));
    var p := a.t.maps[key].ppn;
    MappedIsCounted(b, key);
    MappedIsCounted(c, key);
    assert c.t.maps[key].ppn != p;
    assert MapsTo(c, k, p) <==> k != key && MapsTo(a, k, p);
    FullPage(c, p);
  }

  lemma FullPage(c: State, p: nat)
    requires Inv(c) && p < |c.bytes|
    ensures |c.bytes[p]| == PAGE_SIZE
  {
    hide Good, Exact;
  }

  lemma HitMore(a: State, root: nat, va: nat, m: nat, w: nat, n: nat, r: nat, x: nat)
    requires w == va + m && w < VA_MAX && w + n <= VA_MAX && w % PAGE_SIZE + n <= PAGE_SIZE && Marked(a, Key(root, PageOf(w)))
    ensures Hit(a, root, va, m + n, r, x) <==>
            Hit(a, root, va, m, r, x)
            || (Key(r, PageOf(x)) != Key(root, PageOf(w)) && Aliases(a, Key(root, PageOf(w)), Key(r, PageOf(x))) && w % PAGE_SIZE <= x % PAGE_SIZE < w % PAGE_SIZE + n)
  {
    hide PageOf, Marked, Aliases;
    if Hit(a, root, va, m + n, r, x) {
      var y: nat :| va <= y < va + (m + n) && HitBy(a, root, y, r, x);
      if y >= w {
        InPage(w, y, n);
        SamePage(w, y);
      } else {
        assert Hit(a, root, va, m, r, x);
      }
    }
    if Key(r, PageOf(x)) != Key(root, PageOf(w)) && Aliases(a, Key(root, PageOf(w)), Key(r, PageOf(x))) && w % PAGE_SIZE <= x % PAGE_SIZE < w % PAGE_SIZE + n {
      var y := w + (x % PAGE_SIZE - w % PAGE_SIZE);
      InPage(w, y, n);
      SamePage(w, y);
      assert HitBy(a, root, y, r, x);
    }
  }

  lemma InMarked(a: State, root: nat, w: nat, n: nat, x: nat)
    requires w < VA_MAX && w + n <= VA_MAX && w % PAGE_SIZE + n <= PAGE_SIZE && Marked(a, Key(root, PageOf(w)))
    ensures w <= x < w + n ==> Marked(a, Key(root, PageOf(x)))
  {
    hide PageOf, Marked;
    if w <= x < w + n {
      InPage(w, x, n);
      SamePage(w, x);
    }
  }

  /** The pages ahead stay as they were through a turn. */
  lemma StillAhead(a: State, b: State, c: State, segs: seq<Segment>, root: nat, w: nat, n: nat, m: nat)
    requires Inv(a) && Inv(b) && Ahead(a, b, root, w, n) && 0 < m <= n && w + n <= VA_MAX && Reached(b, c, segs, Key(root, PageOf(w)))
    requires c.t.maps == b.t.maps || (Key(root, PageOf(w)) in c.t.maps && c.t.maps[Key(root, PageOf(w))].Entry? && c.t.maps[Key(root, PageOf(w))].ppn in b.free)
    requires m < n ==> (w + m) % PAGE_SIZE == 0
    requires Unaliased(a, root, w, n)
    ensures Ahead(a, c, root, w + m, n - m) && Unaliased(a, root, w + m, n - m)
  {
    hide Good, Exact, PageOf, SameSight, OwnPage, Marked, Aliases;
    forall x: nat | w + m <= x < w + n ensures AheadAt(a, c, Key(root, PageOf(x))) {
      assert AheadAt(a, b, Key(root, PageOf(x)));
      assert AheadAt(a, b, Key(root, PageOf(w)));
      SamePage(w, x);
      OtherPage(w, m, x);
      AheadOne(a, b, c, segs, Key(root, PageOf(w)), Key(root, PageOf(x)));
    }
  }

  lemma OtherPage(w: nat, m: nat, x: nat)
    requires (w + m) % PAGE_SIZE == 0 && 0 < m && x >= w + m
    ensures x - x % PAGE_SIZE != w - w % PAGE_SIZE
  {
  }

  lemma AheadOne(a: State, b: State, c: State, segs: seq<Segment>, key: Key, other: Key)
    requires Inv(b) && AheadAt(a, b, key) && AheadAt(a, b, other) && other != key && Reached(b, c, segs, key)
    requires c.t.maps == b.t.maps || (key in c.t.maps && c.t.maps[key].Entry? && c.t.maps[key].ppn in b.free)
    requires Marked(a, other) ==> !Aliases(a, other, key)
    ensures AheadAt(a, c, other)
  {
    hide Good, Exact, SameSight, OwnPage;
    if Marked(a, other) {
      MappedIsCounted(b, other);
      var p := a.t.maps[other].ppn;
      forall k: Key ensures MapsTo(c, k, p) <==> MapsTo(a, k, p) {
        if k == key {
          assert !MapsTo(a, key, p);
          assert !MapsTo(b, key, p);
        }
      }
    }
  }

  // ----- what it amounts to --------------------------------------------------------------------

  /**
   memsetOut sets the range, and nothing else that anybody sees, exactly if every byte of the range
   that lies on a marked page has the value already.
   */
  lemma SetIff(a: State, d: State, segs: seq<Segment>, root: nat, va: nat, n: nat, value: Byte)
    requires Inv(a) && va + n <= VA_MAX && SetSoFar(a, d, segs, root, va, n, value) && Unaliased(a, root, va, n)
    ensures Copied(a, d, segs, root, va, Same(value, n))
            <==> forall y: nat :: va <= y < va + n && Marked(a, Key(root, PageOf(y))) ==> Seen(a, segs, root, y) == value
  {
    hide Seen, PageOf, Marked, HitBy, Good, Exact;
    if forall y: nat :: va <= y < va + n && Marked(a, Key(root, PageOf(y))) ==> Seen(a, segs, root, y) == value {
      forall r: nat, x: nat | x < VA_MAX
        ensures Seen(d, segs, r, x) == if r == root && va <= x < va + |Same(value, n)| then Same(value, n)[x - va] else Seen(a, segs, r, x)
      {
        assert Seen(d, segs, r, x) == Expected(a, segs, root, va, n, value, r, x);
        if y: nat :| va <= y < va + n && HitBy(a, root, y, r, x) {
          HitSame(a, segs, root, y, r, x);
        }
      }
    }
    if Copied(a, d, segs, root, va, Same(value, n)) {
      forall y: nat | va <= y < va + n && Marked(a, Key(root, PageOf(y))) ensures Seen(a, segs, root, y) == value {
        assert Seen(d, segs, root, y) == Expected(a, segs, root, va, n, value, root, y);
        assert Seen(d, segs, root, y) == Same(value, n)[y - va];
        NotHit(a, root, va, n, y);
      }
    }
  }

  lemma HitSame(a: State, segs: seq<Segment>, root: nat, y: nat, r: nat, x: nat)
    requires Inv(a) && HitBy(a, root, y, r, x)
    ensures Seen(a, segs, r, x) == Seen(a, segs, root, y) && Marked(a, Key(root, PageOf(y)))
  {
    hide Good, Exact, PageOf;
    MappedIsCounted(a, Key(root, PageOf(y)));
    FullPage(a, a.t.maps[Key(root, PageOf(y))].ppn);
  }

  lemma NotHit(a: State, root: nat, va: nat, n: nat, y: nat)
    requires Unaliased(a, root, va, n) && va <= y < va + n
    ensures !Hit(a, root, va, n, root, y)
  {
    hide PageOf;
    forall z: nat | va <= z < va + n ensures !HitBy(a, root, z, root, y) {
    }
  }

  // ----- the steps ------------------------------------------------------------------------------

  /**
   The steps fault pages in, each when it is reached, and set them piece by piece from va on; at a page
   that was marked in s the piece goes to the page that it had then.
   */
  ghost predicate Sets(steps: seq<Step>, s: State, segs: seq<Segment>, root: nat, va: nat, n: nat, value: Byte) {
    if steps == [] then n == 0
    else
      var k := |steps| - 1;
      match steps[k] {
        case KernelWrite(_, _, part) =>
          |part| <= n && Piece(s, steps[k], root, va + (n - |part|), |part|, value) && Sets(steps[..k], s, segs, root, va, n - |part|, value)
        case StrayWrite(_, _, part) =>
          |part| <= n && Piece(s, steps[k], root, va + (n - |part|), |part|, value) && Sets(steps[..k], s, segs, root, va, n - |part|, value)
        case _ => FaultStep(segs, Key(root, PageOf(va + n)), steps[k]) && Sets(steps[..k], s, segs, root, va, n, value)
      }
  }

  /** The step sets n bytes at address w. */
  ghost predicate Piece(s: State, st: Step, root: nat, w: nat, n: nat, value: Byte) {
    var key := Key(root, PageOf(w));
    && w % PAGE_SIZE + n <= PAGE_SIZE
    && if Marked(s, key) then st == StrayWrite(s.t.maps[key].ppn, w % PAGE_SIZE, Same(value, n))
       else st == KernelWrite(key, w % PAGE_SIZE, Same(value, n))
  }

  lemma SetsNothing(s: State, segs: seq<Segment>, root: nat, va: nat, value: Byte)
    ensures Sets([], s, segs, root, va, 0, value)
  {
  }

  lemma SetsFault(steps: seq<Step>, st: seq<Step>, s: State, b: State, c: State, shm: set<nat>, segs: seq<Segment>, root: nat, va: nat, n: nat, value: Byte)
    requires Sets(steps, s, segs, root, va, n, value) && Faulting(b, c, shm, segs, Key(root, PageOf(va + n)), st)
    ensures Sets(steps + st, s, segs, root, va, n, value)
  {
    hide Next, PageOf, LazyContent, Piece;
    if st == [] {
      assert steps + st == steps;
    } else {
      assert st == [st[0]] && (steps + st)[..|steps|] == steps;
    }
  }

  lemma SetsPiece(steps: seq<Step>, st: Step, s: State, segs: seq<Segment>, root: nat, va: nat, n: nat, m: nat, value: Byte)
    requires Sets(steps, s, segs, root, va, n, value) && Piece(s, st, root, va + n, m, value)
    ensures Sets(steps + [st], s, segs, root, va, n + m, value)
  {
    hide PageOf, Marked, FaultStep;
    assert (steps + [st])[..|steps|] == steps;
  }

  /** The write of one piece, as a step. */
  lemma PieceIsStep(c: State, d: State, shm: set<nat>, page: nat, off: nat, data: seq<Byte>)
    requires CowInv(World(c, shm)) && page < |c.bytes| && off + |data| <= PAGE_SIZE && d == c.(bytes := c.bytes[page := Put(c.bytes[page], off, data)])
    ensures Does(World(c, shm), StrayWrite(page, off, data), World(d, shm)) && CowInv(World(d, shm))
  {
    hide Good, Exact, WritableAlone, ShmMarked, CowMarked;
    StrayKeeps(World(c, shm), page, off, data, World(d, shm));
  }

  // ----- memsetOut --------------------------------------------------------------------------------

  /** va2PA, passiveAlloc, cowHandler, as memsetOut uses them: of a marked page, the address before sharing was broken. */
  method ReachOld(mem: Memory, root: nat, va: nat, segs: seq<Segment>, ghost shm: set<nat>) returns (ok: bool, page: nat, ghost st: seq<Step>)
    requires mem.Valid() && mem.dead == {} && root in mem.place && mem.place[root].Root? && va < VA_MAX && Segments(segs)
    requires 3 <= |mem.free| && UserPage(mem.View(), segs, root, va)
    modifies mem
    ensures mem.Valid() && (ok <==> Reachable(old(mem.View()), segs, root, va))
    ensures !ok ==> mem.View() == old(mem.View())
    ensures ok ==> |mem.free| + 3 >= |old(mem.free)| && Faulting(old(mem.View()), mem.View(), shm, segs, Key(root, PageOf(va)), st)
    ensures ok ==> Reached(old(mem.View()), mem.View(), segs, Key(root, PageOf(va)))
    ensures ok ==> ReachedHow(old(mem.View()), mem.View(), Key(root, PageOf(va)), page)
  {
    hide Good, Exact, Users, Took, Loose, LowOf, Alive, Missing, Loaded, CowBroken, Reached, SameSight, IsImage, PageOf, LazyByte, Backed, Faulting, Marked;
    var key := Key(root, PageOf(va));
    ghost var a := mem.View();
    st := [];
    AliveAll(a, key);
    var p, low := mem.PageLookup(key);
    if p.Some? && !mem.table[low.value][key.v.k].perm.u {
      return false, 0, [];
    }
    if p.None? {
      ok, st := FaultIn(mem, root, va, segs, shm);
      if !ok {
        return false, 0, [];
      }
      ReachedFacts(a, mem.View(), segs, key);
      p, low := mem.PageLookup(key);
      NewlyThere(a, mem.View(), shm, segs, key, st);
      return true, p.value, st;
    }
    ok := true;
    page := p.value;
    if mem.table[low.value][key.v.k].perm.cow {
      ok := CowHandler(mem, key);
      CowReached(a, mem.View(), segs, key);
      CowIsStep(a, mem.View(), shm, key);
      st := [CowFault(key)];
      FaultingCow(a, mem.View(), shm, segs, key);
      CowHow(a, mem.View(), key);
    } else {
      ReachedSelf(a, segs, key);
      FaultingNone(a, shm, segs, key);
      SelfHow(a, key);
    }
  }

  /** How the page was reached, and the address used. */
  ghost predicate ReachedHow(a: State, b: State, key: Key, page: nat) {
    && key in b.t.maps && b.t.maps[key].Entry? && page < |b.bytes|
    && (if Marked(a, key) then CowBroken(a, b, key) && page == a.t.maps[key].ppn else page == b.t.maps[key].ppn)
    && (b.t.maps == a.t.maps || b.t.maps[key].ppn in a.free)
  }

  lemma CowHow(a: State, b: State, key: Key)
    requires Inv(a) && Inv(b) && CowBroken(a, b, key) && key in a.t.maps && a.t.maps[key].Entry? && a.t.maps[key].perm.cow
    ensures ReachedHow(a, b, key, a.t.maps[key].ppn)
  {
    hide Good, Exact;
  }

  lemma SelfHow(a: State, key: Key)
    requires Inv(a) && key in a.t.maps && a.t.maps[key].Entry? && !a.t.maps[key].perm.cow && a.t.maps[key].ppn < |a.bytes|
    ensures ReachedHow(a, a, key, a.t.maps[key].ppn)
  {
  }

  lemma NewlyThere(a: State, b: State, shm: set<nat>, segs: seq<Segment>, key: Key, st: seq<Step>)
    requires key !in a.t.maps && st != [] && Faulting(a, b, shm, segs, key, st) && Inv(b) && key in b.t.maps && b.t.maps[key].Entry?
    ensures ReachedHow(a, b, key, b.t.maps[key].ppn)
  {
    hide Inv, LazyContent, SameSight;
    assert Does(World(a, shm), st[0], World(b, shm));
    assert st[0].Load?;
  }

  lemma FaultingCow(a: State, b: State, shm: set<nat>, segs: seq<Segment>, key: Key)
    requires Next(World(a, shm), CowFault(key), World(b, shm))
    ensures Faulting(a, b, shm, segs, key, [CowFault(key)])
  {
    hide Next;
  }

  lemma FaultingNone(a: State, shm: set<nat>, segs: seq<Segment>, key: Key)
    ensures Faulting(a, a, shm, segs, key, [])
  {
  }

  /**
   memsetOut: false is passiveAlloc's panic, on an address that nothing backs. run and steps are what the
   kernel's memory went through, up to there.
   */
  method MemsetOut(mem: Memory, root: nat, dst: nat, value: Byte, len: nat, segs: seq<Segment>, ghost shm: set<nat>)
    returns (ok: bool, ghost run: seq<World>, ghost steps: seq<Step>)
    requires CowInv(World(mem.View(), shm)) && root in mem.place && mem.place[root].Root? && Segments(segs)
    requires dst + len <= VA_MAX && Range(mem.View(), segs, root, dst, len) && 3 * Pages(dst, len) <= |mem.free|
    modifies mem
    ensures CowInv(World(mem.View(), shm)) && Traced(run, steps, World(old(mem.View()), shm), World(mem.View(), shm))
    ensures ok && old(Unaliased(mem.View(), root, dst, len)) ==> Sets(steps, old(mem.View()), segs, root, dst, len, value)
    ensures !ok ==> exists x: nat :: dst <= x < dst + len && !Reachable(mem.View(), segs, root, x)
    ensures ok && old(OwnRange(mem.View(), root, dst, len) && Unaliased(mem.View(), root, dst, len)) ==>
              && SetSoFar(old(mem.View()), mem.View(), segs, root, dst, len, value)
              && (Copied(old(mem.View()), mem.View(), segs, root, dst, Same(value, len))
                  <==> forall y: nat :: dst <= y < dst + len && Marked(old(mem.View()), Key(root, PageOf(y))) ==> Seen(old(mem.View()), segs, root, y) == value)
  {
    hide Good, Exact, Users, Loose, Alive, Missing, Reached, Copied, SameSight, PageOf, Range, OwnRange, Reachable, Pages, Segments,
      CowInv, Next, Does, Went, Traced, Faulting, UserPage, Alpha, OwnPage, Unaliased, Sets, SetSoFar, Ahead, Seen, Marked, ReachedHow, Piece;
    ghost var a := mem.View();
    ghost var alone, own := Unaliased(a, root, dst, len), OwnRange(a, root, dst, len);
    var va, done := dst, 0;
    run, steps := [World(a, shm)], [];
    WentNowhere(World(a, shm));
    SetsNothing(a, segs, root, dst, value);
    SetNothing(a, segs, root, dst, len, value);
    CowParts(World(a, shm));
    while done < len
      invariant 0 <= done <= len && va == dst + done && CowInv(World(mem.View(), shm)) && mem.Valid() && mem.dead == {}
      invariant root in mem.place && mem.place[root].Root?
      invariant Range(mem.View(), segs, root, dst, len) && 3 * Pages(va, len - done) <= |mem.free|
      invariant Traced(run, steps, World(a, shm), World(mem.View(), shm))
      invariant own ==> OwnRange(mem.View(), root, dst, len)
      invariant alone ==> Ahead(a, mem.View(), root, va, len - done) && Unaliased(a, root, va, len - done)
      invariant alone ==> Sets(steps, a, segs, root, dst, done, value)
      invariant own && alone ==> SetSoFar(a, mem.View(), segs, root, dst, done, value)
      decreases len - done
    {
      ghost var b, key := mem.View(), Key(root, PageOf(va));
      RangeAt(b, segs, root, dst, len, va);
      PagesPositive(va, len - done);
      var page;
      ghost var st;
      ok, page, st := ReachOld(mem, root, va, segs, shm);
      if !ok {
        assert !Reachable(mem.View(), segs, root, va);
        return false, run, steps;
      }
      ghost var c := mem.View();
      run := FaultIsStep(World(a, shm), run, steps, b, c, shm, segs, key, st);
      RangeReached(b, c, segs, root, PageOf(va), dst, len);
      RootStays(b, c, segs, key);
      HowPage(b, c, key, page);
      var n := PAGE_SIZE - va % PAGE_SIZE;
      if n > len - done {
        n := len - done;
      }
      mem.bytes := mem.bytes[page := Put(mem.bytes[page], va % PAGE_SIZE, Same(value, n))];
      ghost var d := mem.View();
      ghost var w := if Marked(b, key) then StrayWrite(page, va % PAGE_SIZE, Same(value, n)) else KernelWrite(key, va % PAGE_SIZE, Same(value, n));
      WriteDone(c, d, shm, b, key, page, va % PAGE_SIZE, Same(value, n), w);
      TracedOn(run, steps + st, World(a, shm), World(c, shm), w, World(d, shm));
      run := run + [World(d, shm)];
      if alone {
        SetsFault(steps, st, a, b, c, shm, segs, root, dst, done, value);
        PieceAt(a, b, root, va, len - done, n, page, w, value, c);
        SetsPiece(steps + st, w, a, segs, root, dst, done, n, value);
        TurnAhead(a, b, c, d, segs, root, va, len - done, n, page);
        if own {
          Turn(a, b, c, d, segs, root, dst, done, va, len, n, value, page, shm);
        }
      }
      steps := steps + st + [w];
      RangeBytes(c, d, segs, root, dst, len);
      PagesStep(va, len - done, n);
      CowParts(World(d, shm));
      done, va := done + n, va + n;
    }
    if own && alone {
      SetIff(a, mem.View(), segs, root, dst, len, value);
    }
    ok := true;
  }

  lemma HowPage(b: State, c: State, key: Key, page: nat)
    requires ReachedHow(b, c, key, page)
    ensures page < |c.bytes|
  {
  }

  lemma WriteDone(c: State, d: State, shm: set<nat>, b: State, key: Key, page: nat, off: nat, data: seq<Byte>, w: Step)
    requires CowInv(World(c, shm)) && ReachedHow(b, c, key, page) && off + |data| <= PAGE_SIZE
    requires d == c.(bytes := c.bytes[page := Put(c.bytes[page], off, data)])
    requires w == if Marked(b, key) then StrayWrite(page, off, data) else KernelWrite(key, off, data)
    ensures Does(World(c, shm), w, World(d, shm)) && CowInv(World(d, shm))
  {
    hide CowInv, CowBroken;
    PieceIsStep(c, d, shm, page, off, data);
    hide Inv;
  }

  lemma PieceAt(a: State, b: State, root: nat, w: nat, n: nat, m: nat, page: nat, st: Step, value: Byte, c: State)
    requires Ahead(a, b, root, w, n) && 0 < m <= n && ReachedHow(b, c, Key(root, PageOf(w)), page) && w % PAGE_SIZE + m <= PAGE_SIZE
    requires var key := Key(root, PageOf(w));
             st == if Marked(b, key) then StrayWrite(page, w % PAGE_SIZE, Same(value, m)) else KernelWrite(key, w % PAGE_SIZE, Same(value, m))
    ensures Piece(a, st, root, w, m, value)
  {
    hide PageOf, CowBroken;
    assert AheadAt(a, b, Key(root, PageOf(w)));
  }

  lemma TurnAhead(a: State, b: State, c: State, d: State, segs: seq<Segment>, root: nat, w: nat, n: nat, m: nat, page: nat)
    requires Inv(a) && Inv(b) && Ahead(a, b, root, w, n) && 0 < m <= n && w + n <= VA_MAX && Reached(b, c, segs, Key(root, PageOf(w)))
    requires ReachedHow(b, c, Key(root, PageOf(w)), page) && d.t == c.t && Unaliased(a, root, w, n)
    requires m == if PAGE_SIZE - w % PAGE_SIZE > n then n else PAGE_SIZE - w % PAGE_SIZE
    ensures Ahead(a, d, root, w + m, n - m) && Unaliased(a, root, w + m, n - m)
  {
    hide Inv, PageOf, CowBroken, Reached, Unaliased, Aliases, Marked;
    StillAhead(a, b, c, segs, root, w, n, m);
    SameAhead(a, c, d, root, w + m, n - m);
  }

  lemma SameAhead(a: State, c: State, d: State, root: nat, w: nat, n: nat)
    requires Ahead(a, c, root, w, n) && d.t == c.t
    ensures Ahead(a, d, root, w, n)
  {
    hide PageOf, Marked;
    forall x: nat | w <= x < w + n ensures AheadAt(a, d, Key(root, PageOf(x))) {
      assert AheadAt(a, c, Key(root, PageOf(x)));
      assert forall k: Key, p: nat :: MapsTo(d, k, p) <==> MapsTo(c, k, p);
    }
  }

  /** One turn of the loop, as everybody sees it. */
  lemma Turn(a: State, b: State, c: State, d: State, segs: seq<Segment>, root: nat, dst: nat, done: nat, w: nat, len: nat, n: nat, value: Byte, page: nat, shm: set<nat>)
    requires Inv(a) && Inv(b) && CowInv(World(c, shm)) && SetSoFar(a, b, segs, root, dst, done, value) && w == dst + done && dst + len <= VA_MAX && 0 < n <= len - done
    requires w % PAGE_SIZE + n <= PAGE_SIZE && Ahead(a, b, root, w, len - done) && OwnRange(c, root, dst, len)
    requires Reached(b, c, segs, Key(root, PageOf(w))) && ReachedHow(b, c, Key(root, PageOf(w)), page)
    requires d == c.(bytes := c.bytes[page := Put(c.bytes[page], w % PAGE_SIZE, Same(value, n))])
    ensures SetSoFar(a, d, segs, root, dst, done + n, value)
  {
    hide Good, Exact, PageOf, Reached, SetSoFar, OwnRange, SameSight, CowBroken, Copied, Seen, WritableAlone, ShmMarked, CowMarked, Users, Aliases;
    var key := Key(root, PageOf(w));
    assert AheadAt(a, b, key);
    if Marked(a, key) {
      StrayTurn(a, b, c, d, segs, root, dst, done, w, n, value);
    } else {
      PlainPiece(b, c, segs, root, w, key);
      OwnedAt(c, root, dst, len, w);
      FullPage(c, page);
      StoreSeen(c, d, segs, key, w, Same(value, n));
      forall x: nat | w <= x < w + n ensures !Marked(a, Key(root, PageOf(x))) {
        InPage(w, x, n);
        SamePage(w, x);
      }
      PlainTurn(a, b, c, d, segs, root, dst, done, w, n, value);
    }
  }

  lemma PlainPiece(b: State, c: State, segs: seq<Segment>, root: nat, w: nat, key: Key)
    requires Reached(b, c, segs, key)
    ensures SameSight(b, c, segs) && key in c.t.maps && c.t.maps[key].Entry? && !c.t.maps[key].perm.cow
  {
    hide Inv, SameSight;
  }
}
