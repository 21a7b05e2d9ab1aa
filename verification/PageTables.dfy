/**
 Sv39 page tables as the kernel keeps them: a forest of 512-entry pages inside physical
 memory, against the flat map from virtual page to leaf entry that it stands for.
 */
module PageTables {
  const ENTRIES := 512

  type Idx = i: int | 0 <= i < ENTRIES

  /** A virtual page number, cut into the three 9-bit fields that pageWalk uses. */
  datatype VPage = VPage(i: Idx, j: Idx, k: Idx)

  datatype Perm = Perm(r: bool, w: bool, x: bool, u: bool, a: bool, d: bool, cow: bool, shm: bool)

  /** A page-table word: not valid, or a physical page and its permission bits. */
  datatype Pte = Empty | Entry(ppn: nat, perm: Perm)

  const TABLE_PERM := Perm(false, false, false, false, false, false, false, false)

  function ZeroTable(): (z: seq<Pte>)
    ensures |z| == ENTRIES && forall i :: 0 <= i < ENTRIES ==> z[i] == Empty
  {
    seq(ENTRIES, (i: nat) => Empty)
  }

  datatype Option<T> = None | Some(value: T)

  // ----- addresses ---------------------------------------------------------------------

  /** VAPPN for the three levels. */
  function PageOf(va: nat): VPage {
    VPage(va / 0x4000_0000 % 512, va / 0x20_0000 % 512, va / 0x1000 % 512)
  }

  /** The address that fork and teardown rebuild from the three table indices. */
  function AddressOf(v: VPage): nat {
    v.i * 0x4000_0000 + v.j * 0x20_0000 + v.k * 0x1000
  }

  /** Shifting by 12 + 9 * level is shifting by 12 and then by 9, level times. */
  lemma ShiftInSteps(va: nat)
    ensures va / 0x20_0000 == va / 0x1000 / 512
    ensures va / 0x4000_0000 == va / 0x1000 / 512 / 512
  {
    var q, r := va / 0x1000, va % 0x1000;
    assert va == 0x1000 * q + r;
    var q1, r1 := q / 512, q % 512;
    assert q == 512 * q1 + r1;
    var s1 := 0x1000 * r1 + r;
    assert va == 0x20_0000 * q1 + s1 && 0 <= s1 < 0x20_0000;
    var q2, r2 := q1 / 512, q1 % 512;
    assert q1 == 512 * q2 + r2;
    var s2 := 0x20_0000 * r2 + s1;
    assert va == 0x4000_0000 * q2 + s2 && 0 <= s2 < 0x4000_0000;
  }

  /** Indices to address and back is the identity, and an address loses only its page offset. */
  lemma AddressRoundTrip(v: VPage, va: nat)
    requires va < 0x80_0000_0000
    ensures PageOf(AddressOf(v)) == v
    ensures AddressOf(PageOf(va)) == va - va % 0x1000
  {
    DigitsOf(v.i, v.j, v.k);
    ShiftInSteps(va);
    var q := va / 0x1000;
    assert q / 512 / 512 < 512;
  }

  lemma DigitsOf(i: Idx, j: Idx, k: Idx)
    ensures PageOf(AddressOf(VPage(i, j, k))) == VPage(i, j, k)
  {
    var va := AddressOf(VPage(i, j, k));
    ShiftInSteps(va);
    var low := 512 * j + k;
    assert va == 0x1000 * (0x4_0000 * i + low);
    assert va / 0x1000 == 512 * (512 * i + j) + k;
    assert va / 0x1000 / 512 == 512 * i + j;
  }

  // ----- the forest --------------------------------------------------------------------

  /** One leaf position: an address space, named by its page directory, and a virtual page. */
  datatype Key = Key(root: nat, v: VPage)

  /** Where a table page hangs: it is a directory, or the child of one entry of one parent. */
  datatype Place = Root | Mid(up: nat, at: Idx) | Low(up: nat, at: Idx)

  /** `dead` holds entries that still look valid although teardown has released their page. */
  datatype Tables = Tables(table: seq<seq<Pte>>, place: map<nat, Place>, maps: map<Key, Pte>,
                           dead: set<(nat, Idx)>)

  function ChildOf(p: Place, f: nat, i: Idx): Place
    requires !p.Low?
  {
    if p.Root? then Mid(f, i) else Low(f, i)
  }

  ghost predicate Shape(t: Tables) {
    && (forall f: nat :: f < |t.table| ==> |t.table[f]| == ENTRIES)
    && (forall f :: f in t.place ==> f < |t.table|)
  }

  /** Every live entry of an upper table points to the one page placed under it, and grants nothing. */
  ghost predicate Down(t: Tables)
    requires Shape(t)
  {
    forall f: nat, i: Idx ::
      f in t.place && !t.place[f].Low? && t.table[f][i].Entry? && (f, i) !in t.dead ==>
      && t.table[f][i].ppn in t.place && t.place[t.table[f][i].ppn] == ChildOf(t.place[f], f, i)
      && t.table[f][i].perm == Perm(false, false, false, false, false, false, false, false)
  }

  ghost predicate HangsFrom(t: Tables, f: nat, u: nat, i: Idx)
    requires Shape(t)
  {
    && f in t.place && u in t.place && !t.place[u].Low? && t.place[f] == ChildOf(t.place[u], u, i)
    && t.table[u][i].Entry? && t.table[u][i].ppn == f && (u, i) !in t.dead
  }

  /** Every table page but a directory is pointed to by the entry its place names. */
  ghost predicate Up(t: Tables)
    requires Shape(t)
  {
    forall f :: f in t.place && !t.place[f].Root? ==>
      HangsFrom(t, f, t.place[f].up, t.place[f].at)
  }

  ghost predicate IsLow(t: Tables, f: nat) {
    f in t.place && t.place[f].Low? && t.place[f].up in t.place && t.place[t.place[f].up].Mid?
  }

  /** The leaf position that entry k of bottom-level table f serves. */
  ghost function KeyOf(t: Tables, f: nat, k: Idx): Key
    requires IsLow(t, f)
  {
    var m := t.place[f].up;
    Key(t.place[m].up, VPage(t.place[m].at, t.place[f].at, k))
  }

  /** No entry on the way to `key` is dead. */
  ghost predicate Alive(t: Tables, key: Key)
    requires Shape(t)
  {
    && key.root in t.place && t.place[key.root].Root?
    && (key.root, key.v.i) !in t.dead
    && (t.table[key.root][key.v.i].Entry? ==> (t.table[key.root][key.v.i].ppn, key.v.j) !in t.dead)
  }

  /** Bottom-level entries and the flat map agree, in both directions. */
  ghost predicate Flat(t: Tables)
    requires Shape(t)
  {
    && (forall f: nat, k: Idx :: IsLow(t, f) && t.table[f][k].Entry? ==>
          KeyOf(t, f, k) in t.maps && t.maps[KeyOf(t, f, k)] == t.table[f][k])
    && (forall key :: key in t.maps ==>
          t.maps[key].Entry? && Alive(t, key) && LowOf(t, key) != None && t.table[LowOf(t, key).value][key.v.k] == t.maps[key])
    && (forall key :: key in t.maps ==> t.maps[key].ppn < |t.table| && t.maps[key].ppn !in t.place)
  }

  /** The bottom-level table that pageWalk reaches without creating anything. */
  function LowOf(t: Tables, key: Key): (r: Option<nat>)
    requires Shape(t)
    ensures r.Some? ==> r.value in t.place
  {
    if key.root !in t.place || t.table[key.root][key.v.i].Empty? then None else
    var m := t.table[key.root][key.v.i].ppn;
    if m !in t.place || t.table[m][key.v.j].Empty? then None else
    var f := t.table[m][key.v.j].ppn;
    if f !in t.place || !t.place[f].Low? then None else Some(f)
  }

  ghost predicate Good(t: Tables) {
    Shape(t) && Down(t) && Up(t) && Flat(t)
  }

  /** pageLookup's answer: the leaf entry, through the tables. */
  function Lookup(t: Tables, key: Key): Pte
    requires Shape(t)
  {
    if LowOf(t, key).None? then Empty else t.table[LowOf(t, key).value][key.v.k]
  }

  lemma LowIsLow(t: Tables, f: nat)
    requires Good(t) && f in t.place && t.place[f].Low?
    ensures IsLow(t, f)
    ensures forall k: Idx :: Alive(t, KeyOf(t, f, k)) && LowOf(t, KeyOf(t, f, k)) == Some(f)
  {
    assert HangsFrom(t, f, t.place[f].up, t.place[f].at);
    var m := t.place[f].up;
    assert HangsFrom(t, m, t.place[m].up, t.place[m].at);
  }

  /** The tables form a tree: a bottom-level table serves one address range of one space. */
  lemma LowOfIsKeyOf(t: Tables, key: Key)
    requires Good(t) && Alive(t, key) && LowOf(t, key).Some?
    ensures IsLow(t, LowOf(t, key).value) && KeyOf(t, LowOf(t, key).value, key.v.k) == key
  {
    var m := t.table[key.root][key.v.i].ppn;
    assert t.place[m] == Mid(key.root, key.v.i);
    var f := t.table[m][key.v.j].ppn;
    assert t.place[f] == Low(m, key.v.j);
  }

  /** The three-level lookup computes the flat map. */
  lemma LookupIsMap(t: Tables, key: Key)
    requires Good(t) && Alive(t, key)
    ensures Lookup(t, key) == if key in t.maps then t.maps[key] else Empty
  {
    if LowOf(t, key).Some? {
      LowOfIsKeyOf(t, key);
    }
  }

  lemma MapsAt(t: Tables, key: Key)
    requires Good(t) && key in t.maps
    ensures t.maps[key].Entry? && Alive(t, key) && LowOf(t, key) != None
    ensures t.table[LowOf(t, key).value][key.v.k] == t.maps[key]
  {
  }

  lemma KeyOfInjective(t: Tables, f: nat, k: Idx, f': nat, k': Idx)
    requires Good(t) && IsLow(t, f) && IsLow(t, f') && KeyOf(t, f, k) == KeyOf(t, f', k')
    ensures f == f' && k == k'
  {
    LowIsLow(t, f);
    LowIsLow(t, f');
  }

  // ----- the writes that the kernel makes ----------------------------------------------

  /** pageWalk hangs the freshly zeroed page f under entry i of table u. */
  function Link(t: Tables, u: nat, i: Idx, f: nat): Tables
    requires Shape(t) && u in t.place && !t.place[u].Low?
  {
    Tables(t.table[u := t.table[u][i := Entry(f, TABLE_PERM)]], t.place[f := ChildOf(t.place[u], u, i)],
           t.maps, t.dead)
  }

  lemma LinkGood(t: Tables, u: nat, i: Idx, f: nat)
    requires Good(t) && u in t.place && !t.place[u].Low? && t.table[u][i].Empty? && (u, i) !in t.dead
    requires f !in t.place && f < |t.table| && t.table[f] == ZeroTable()
    requires forall j: Idx :: (f, j) !in t.dead
    requires forall key :: key in t.maps ==> t.maps[key].ppn != f
    ensures Good(Link(t, u, i, f))
  {
    var n := Link(t, u, i, f);
    LinkUp(t, u, i, f);
    forall g: nat, k: Idx | IsLow(n, g) && n.table[g][k].Entry?
      ensures KeyOf(n, g, k) in n.maps && n.maps[KeyOf(n, g, k)] == n.table[g][k]
    {
      assert g != f;
      assert HangsFrom(t, g, t.place[g].up, t.place[g].at);
      assert IsLow(t, g);
    }
    forall key | key in n.maps
      ensures Alive(n, key) && LowOf(n, key) == LowOf(t, key) && n.table[LowOf(t, key).value][key.v.k] == n.maps[key]
    {
      LinkKeepsWalk(t, u, i, f, key);
    }
  }

  lemma LinkUp(t: Tables, u: nat, i: Idx, f: nat)
    requires Good(t) && u in t.place && !t.place[u].Low? && t.table[u][i].Empty? && (u, i) !in t.dead
    requires f !in t.place && f < |t.table| && t.table[f] == ZeroTable()
    ensures var n := Link(t, u, i, f); Shape(n) && Down(n) && Up(n)
  {
    var n := Link(t, u, i, f);
    forall g | g in n.place && !n.place[g].Root?
      ensures HangsFrom(n, g, n.place[g].up, n.place[g].at)
    {
      if g != f {
        assert HangsFrom(t, g, t.place[g].up, t.place[g].at);
      }
    }
  }

  lemma LinkKeepsWalk(t: Tables, u: nat, i: Idx, f: nat, key: Key)
    requires Shape(t) && u in t.place && !t.place[u].Low? && t.table[u][i].Empty?
    requires f !in t.place && f < |t.table|
    requires Alive(t, key) && LowOf(t, key).Some? && key in t.maps
    ensures var n := Link(t, u, i, f);
            Shape(n) && Alive(n, key) && LowOf(n, key) == LowOf(t, key) && n.table[LowOf(t, key).value][key.v.k] == t.table[LowOf(t, key).value][key.v.k]
  {
    var n := Link(t, u, i, f);
    assert Shape(n);
    assert n.table[key.root][key.v.i] == t.table[key.root][key.v.i];
    var m := t.table[key.root][key.v.i].ppn;
    assert n.table[m][key.v.j] == t.table[m][key.v.j];
    var g := t.table[m][key.v.j].ppn;
    assert t.place[g].Low? && g != u;
  }

  /** A store to entry k of the bottom-level table f. */
  function SetLeaf(t: Tables, f: nat, k: Idx, e: Pte, key: Key): Tables
    requires f < |t.table| && k < |t.table[f]|
  {
    Tables(t.table[f := t.table[f][k := e]], t.place,
           if e.Empty? then t.maps - {key} else t.maps[key := e], t.dead)
  }

  /** Storing a leaf entry changes the flat map at that one position and keeps the forest. */
  lemma SetLeafGood(t: Tables, f: nat, k: Idx, e: Pte)
    requires Good(t) && IsLow(t, f)
    requires e.Entry? ==> e.ppn < |t.table| && e.ppn !in t.place
    ensures Good(SetLeaf(t, f, k, e, KeyOf(t, f, k)))
  {
    hide Down, Up, LowOf, KeyOf, Alive;
    var n := SetLeaf(t, f, k, e, KeyOf(t, f, k));
    SetLeafUp(t, f, k, e);
    forall g: nat, j: Idx | IsLow(n, g) && n.table[g][j].Entry?
      ensures KeyOf(n, g, j) in n.maps && n.maps[KeyOf(n, g, j)] == n.table[g][j]
    {
      SetLeafFrom(t, f, k, e, g, j);
    }
    forall key | key in n.maps
      ensures Alive(n, key) && LowOf(n, key) != None && n.table[LowOf(n, key).value][key.v.k] == n.maps[key]
    {
      SetLeafAt(t, f, k, e, key);
    }
  }

  lemma SetLeafFrom(t: Tables, f: nat, k: Idx, e: Pte, g: nat, j: Idx)
    requires Good(t) && IsLow(t, f) && IsLow(t, g)
    ensures var n := SetLeaf(t, f, k, e, KeyOf(t, f, k));
            KeyOf(n, g, j) == KeyOf(t, g, j)
            && (n.table[g][j].Entry? ==> KeyOf(t, g, j) in n.maps && n.maps[KeyOf(t, g, j)] == n.table[g][j])
  {
    hide Down, Up;
    if KeyOf(t, g, j) == KeyOf(t, f, k) {
      KeyOfInjective(t, f, k, g, j);
    }
  }

  lemma SetLeafUp(t: Tables, f: nat, k: Idx, e: Pte)
    requires Good(t) && IsLow(t, f)
    ensures var n := SetLeaf(t, f, k, e, KeyOf(t, f, k)); Shape(n) && Down(n) && Up(n)
  {
    var n := SetLeaf(t, f, k, e, KeyOf(t, f, k));
    forall g | g in n.place && !n.place[g].Root?
      ensures HangsFrom(n, g, n.place[g].up, n.place[g].at)
    {
      assert HangsFrom(t, g, t.place[g].up, t.place[g].at);
    }
  }

  lemma SetLeafAt(t: Tables, f: nat, k: Idx, e: Pte, key: Key)
    requires Good(t) && IsLow(t, f)
    requires key in SetLeaf(t, f, k, e, KeyOf(t, f, k)).maps
    ensures var n := SetLeaf(t, f, k, e, KeyOf(t, f, k));
            Shape(n) && Alive(n, key) && LowOf(n, key) != None && n.table[LowOf(n, key).value][key.v.k] == n.maps[key]
  {
    LowIsLow(t, f);
    SetLeafKeepsWalk(t, f, k, e, key);
    if key != KeyOf(t, f, k) && LowOf(t, key).value == f {
      LowOfIsKeyOf(t, key);
    }
  }

  lemma SetLeafKeepsWalk(t: Tables, f: nat, k: Idx, e: Pte, key: Key)
    requires Good(t) && IsLow(t, f) && Alive(t, key)
    ensures var n := SetLeaf(t, f, k, e, KeyOf(t, f, k));
            Shape(n) && Alive(n, key) && LowOf(n, key) == LowOf(t, key)
  {
    if t.table[key.root][key.v.i].Entry? {
      var m := t.table[key.root][key.v.i].ppn;
      assert t.place[m] == Mid(key.root, key.v.i);
    }
  }

  /** The pages that the walk to a mapped position goes through. */
  lemma PathOf(t: Tables, key: Key) returns (m: nat, g: nat)
    requires Good(t) && key in t.maps
    ensures t.table[key.root][key.v.i].Entry? && m == t.table[key.root][key.v.i].ppn
    ensures m in t.place && t.place[m] == Mid(key.root, key.v.i) && (key.root, key.v.i) !in t.dead
    ensures t.table[m][key.v.j].Entry? && g == t.table[m][key.v.j].ppn && LowOf(t, key) == Some(g)
    ensures g in t.place && t.place[g] == Low(m, key.v.j) && (m, key.v.j) !in t.dead
    ensures t.table[g][key.v.k] == t.maps[key]
  {
    m := t.table[key.root][key.v.i].ppn;
    g := t.table[m][key.v.j].ppn;
  }

  /** A state that agrees along the path finds the same bottom-level table. */
  lemma SameWalk(t: Tables, n: Tables, key: Key, m: nat, g: nat)
    requires Shape(n) && |n.table| == |t.table|
    requires key.root in n.place && n.place[key.root].Root? && m in n.place && g in n.place && n.place[g].Low?
    requires n.table[key.root][key.v.i].Entry? && n.table[key.root][key.v.i].ppn == m && (key.root, key.v.i) !in n.dead
    requires n.table[m][key.v.j].Entry? && n.table[m][key.v.j].ppn == g && (m, key.v.j) !in n.dead
    ensures Alive(n, key) && LowOf(n, key) == Some(g)
  {
  }

  ghost predicate Standing(t: Tables) {
    Shape(t) && Down(t) && Up(t)
  }

  /** n has all of t's table pages unchanged, and any further ones are blank. */
  ghost predicate Extends(t: Tables, n: Tables)
    requires Shape(t) && Shape(n)
  {
    && n.maps == t.maps && n.dead <= t.dead && |n.table| == |t.table|
    && (forall f :: f in t.place ==> f in n.place && n.place[f] == t.place[f] && n.table[f] == t.table[f])
    && (forall f, j: Idx :: f in n.place && f !in t.place ==> n.table[f][j].Empty?)
    && (forall key :: key in t.maps ==> t.maps[key].Entry? && t.maps[key].ppn !in n.place)
  }

  lemma ExtendsGood(t: Tables, n: Tables)
    requires Good(t) && Standing(n) && Extends(t, n)
    ensures Good(n)
  {
    forall g: nat, j: Idx | IsLow(n, g) && n.table[g][j].Entry?
      ensures KeyOf(n, g, j) in n.maps && n.maps[KeyOf(n, g, j)] == n.table[g][j]
    {
      assert g in t.place;
      LowIsLow(t, g);
    }
    forall key | key in n.maps
      ensures Alive(n, key) && LowOf(n, key) != None && n.table[LowOf(n, key).value][key.v.k] == n.maps[key]
    {
      var m, g := PathOf(t, key);
      SameWalk(t, n, key, m, g);
    }
  }

  function Clear(t: Tables, p: nat): Tables
    requires p < |t.table|
  {
    Tables(t.table[p := ZeroTable()], t.place, t.maps, t.dead)
  }

  /** pageAlloc clears a page that is not part of the forest. */
  lemma ClearGood(t: Tables, p: nat)
    requires Good(t) && p < |t.table| && p !in t.place
    ensures Good(Clear(t, p))
  {
    var n := Clear(t, p);
    forall g | g in n.place && !n.place[g].Root?
      ensures HangsFrom(n, g, n.place[g].up, n.place[g].at)
    {
      assert HangsFrom(t, g, t.place[g].up, t.place[g].at);
    }
    ExtendsGood(t, n);
  }

  /** A cleared page becomes a new page directory, with nothing mapped. */
  lemma PlantGood(t: Tables, p: nat)
    requires Good(t) && p < |t.table| && p !in t.place && t.table[p] == ZeroTable()
    requires forall key :: key in t.maps ==> t.maps[key].ppn != p
    ensures Good(t.(place := t.place[p := Root]))
  {
    var n := t.(place := t.place[p := Root]);
    forall g | g in n.place && !n.place[g].Root?
      ensures HangsFrom(n, g, n.place[g].up, n.place[g].at)
    {
      assert HangsFrom(t, g, t.place[g].up, t.place[g].at);
    }
    ExtendsGood(t, n);
  }

  /** Teardown releases table page f; the entry that pointed to it stays behind, dead. */
  function Uproot(t: Tables, f: nat): Tables
    requires f in t.place
  {
    Tables(t.table, t.place - {f}, t.maps,
           t.dead + if t.place[f].Root? then {} else {(t.place[f].up, t.place[f].at)})
  }

  ghost predicate Hollow(t: Tables, f: nat)
    requires Shape(t) && f in t.place
  {
    forall j: Idx :: t.table[f][j].Empty? || (!t.place[f].Low? && (f, j) in t.dead)
  }

  lemma UprootGood(t: Tables, f: nat)
    requires Good(t) && f in t.place && Hollow(t, f)
    ensures Good(Uproot(t, f))
  {
    var n := Uproot(t, f);
    forall g | g in n.place && !n.place[g].Root?
      ensures HangsFrom(n, g, n.place[g].up, n.place[g].at)
    {
      assert HangsFrom(t, g, t.place[g].up, t.place[g].at);
    }
    forall g: nat, i: Idx | g in n.place && !n.place[g].Low? && n.table[g][i].Entry? && (g, i) !in n.dead
      ensures n.table[g][i].ppn in n.place
    {
      assert t.place[t.table[g][i].ppn] == ChildOf(t.place[g], g, i);
    }
    forall g: nat, j: Idx | IsLow(n, g) && n.table[g][j].Entry?
      ensures KeyOf(n, g, j) in n.maps && n.maps[KeyOf(n, g, j)] == n.table[g][j]
    {
      assert IsLow(t, g);
    }
    forall key | key in n.maps
      ensures Alive(n, key) && LowOf(n, key) == LowOf(t, key)
    {
      UprootKeepsWalk(t, f, key);
    }
  }

  lemma UprootKeepsWalk(t: Tables, f: nat, key: Key)
    requires Good(t) && f in t.place && Hollow(t, f) && key in t.maps
    ensures Alive(Uproot(t, f), key) && LowOf(Uproot(t, f), key) == LowOf(t, key)
  {
    var m, g := PathOf(t, key);
    assert f != g && f != m && f != key.root;
    SameWalk(t, Uproot(t, f), key, m, g);
  }

  // ----- what the hardware sees ----------------------------------------------------------

  datatype Hit = Fault | Leaf(level: nat, pte: Pte)

  /** How many bytes an entry of the level maps, if it is a leaf. */
  function Span(level: nat): (n: nat)
    ensures n > 0
  {
    if level == 0 then 4096 else 512 * Span(level - 1)
  }

  /**
   The walk of section 4.3.2 of the RISC-V Privileged Architecture 20211203, by the raw words of
   memory, from the table at page f. An entry that grants r or x is a leaf at any level; one that
   grants w alone is reserved; a leaf above level 0 must be aligned; and the walk ends below level 0.
   */
  function HardWalk(table: seq<seq<Pte>>, f: nat, va: nat, level: nat): Hit
    decreases level
  {
    if f >= |table| || |table[f]| != 512 then Fault else
    var pte := table[f][va / Span(level) % 512];
    if pte.Empty? || (!pte.perm.r && pte.perm.w) then Fault
    else if pte.perm.r || pte.perm.x then
      if pte.ppn * 4096 % Span(level) != 0 then Fault else Leaf(level, pte)
    else if level == 0 then Fault
    else HardWalk(table, pte.ppn, va, level - 1)
  }

  /** The physical address that the walk translates to. */
  function Translated(table: seq<seq<Pte>>, root: nat, va: nat): Option<nat> {
    match HardWalk(table, root, va, 2)
    case Fault => None
    case Leaf(level, pte) => if pte.Empty? then None else Some(pte.ppn * 4096 + va % Span(level))
  }

  lemma Spans()
    ensures Span(0) == 0x1000 && Span(1) == 0x20_0000 && Span(2) == 0x4000_0000
  {
    assert Span(1) == 512 * Span(0);
    assert Span(2) == 512 * Span(1);
  }

  /**
   The hardware's walk of a live space reaches a leaf exactly where the flat map has an entry that
   grants r or x, and not w without r; it is that entry, at the lowest level.
   */
  lemma HardWalkIsMap(t: Tables, root: nat, va: nat)
    requires Good(t) && Alive(t, Key(root, PageOf(va)))
    ensures var key := Key(root, PageOf(va));
            HardWalk(t.table, root, va, 2)
            == if key in t.maps && t.maps[key].Entry? && (t.maps[key].perm.r || (t.maps[key].perm.x && !t.maps[key].perm.w))
               then Leaf(0, t.maps[key]) else Fault
  {
    hide Up, Flat, Span;
    var key := Key(root, PageOf(va));
    Spans();
    LookupIsMap(t, key);
    if t.table[root][key.v.i].Entry? {
      WalkLower(t, key, va);
    }
  }

  lemma WalkLower(t: Tables, key: Key, va: nat)
    requires Good(t) && key.v == PageOf(va) && Alive(t, key) && t.table[key.root][key.v.i].Entry?
    ensures HardWalk(t.table, t.table[key.root][key.v.i].ppn, va, 1)
            == if Lookup(t, key).Entry? && (Lookup(t, key).perm.r || (Lookup(t, key).perm.x && !Lookup(t, key).perm.w))
               then Leaf(0, Lookup(t, key)) else Fault
    ensures HardWalk(t.table, key.root, va, 2) == HardWalk(t.table, t.table[key.root][key.v.i].ppn, va, 1)
  {
    hide Up, Flat, Span;
    Spans();
    var m := t.table[key.root][key.v.i].ppn;
    if t.table[m][key.v.j].Entry? {
      WalkLast(t.table, t.table[m][key.v.j].ppn, va);
    }
  }

  lemma WalkLast(table: seq<seq<Pte>>, f: nat, va: nat)
    requires f < |table| && |table[f]| == 512
    ensures var pte := table[f][PageOf(va).k];
            HardWalk(table, f, va, 0)
            == if pte.Entry? && (pte.perm.r || (pte.perm.x && !pte.perm.w)) then Leaf(0, pte) else Fault
  {
    assert Span(0) == 0x1000;
    var pte := table[f][PageOf(va).k];
    assert pte.Entry? ==> pte.ppn * 4096 % 4096 == 0;
  }

  /** So a virtual address is translated to its place in the mapped page. */
  lemma TranslatedIs(t: Tables, root: nat, va: nat)
    requires Good(t) && Alive(t, Key(root, PageOf(va)))
    ensures var key := Key(root, PageOf(va));
            Translated(t.table, root, va)
            == if key in t.maps && t.maps[key].Entry? && (t.maps[key].perm.r || (t.maps[key].perm.x && !t.maps[key].perm.w))
               then Some(t.maps[key].ppn * 4096 + va % 4096) else None
  {
    hide Good, Alive, HardWalk;
    HardWalkIsMap(t, root, va);
    Spans();
  }

  /** Whoever runs in the space reaches the mapped page at the addresses of the position. */
  lemma MappedTranslates(t: Tables, key: Key, off: nat)
    requires Good(t) && key in t.maps && off < 0x1000
    requires t.maps[key].Entry? && (t.maps[key].perm.r || (t.maps[key].perm.x && !t.maps[key].perm.w))
    ensures Translated(t.table, key.root, AddressOf(key.v) + off) == Some(t.maps[key].ppn * 0x1000 + off)
  {
    hide Good, Alive, PageOf, AddressOf, Translated, LowOf;
    OffsetKeeps(key.v, off);
    OffsetIs(key.v, off);
    MapsAt(t, key);
    TranslatedIs(t, key.root, AddressOf(key.v) + off);
  }

  lemma OffsetIs(v: VPage, off: nat)
    requires off < 0x1000
    ensures (AddressOf(v) + off) % 4096 == off
  {
    PlaceIn(v.i * 0x4_0000 + v.j * 0x200 + v.k, off);
  }

  lemma PlaceIn(q: nat, off: nat)
    requires off < 0x1000
    ensures (0x1000 * q + off) % 4096 == off && (0x1000 * q + off) / 4096 == q
  {
  }

  lemma OffsetKeeps(v: VPage, off: nat)
    requires off < 0x1000
    ensures PageOf(AddressOf(v) + off) == v
  {
    DigitsOf(v.i, v.j, v.k);
    var a, b := AddressOf(v), AddressOf(v) + off;
    ShiftInSteps(a);
    ShiftInSteps(b);
    OffsetIs(v, 0);
    assert a / 0x1000 == b / 0x1000;
  }

  /** Once a whole space is gone its dead entries lie in released pages and can be forgotten. */
  lemma ForgetDead(t: Tables)
    requires Good(t) && forall f: nat, i: Idx :: (f, i) in t.dead ==> f !in t.place
    ensures Good(t.(dead := {}))
  {
    var n := t.(dead := {});
    forall g | g in n.place && !n.place[g].Root?
      ensures HangsFrom(n, g, n.place[g].up, n.place[g].at)
    {
      assert HangsFrom(t, g, t.place[g].up, t.place[g].at);
    }
    ExtendsGood(t, n);
  }
}
