/**
 Where the table pages of a space hang, and which of them a set of pages needs: the arithmetic of
 running out of memory while mapping.
 */
module TableSpots {
  import opened PageTables
  import opened PhysicalMemory

  /** The place of a middle or bottom-level table within its space. */
  datatype Spot = MidSpot(i: Idx) | LowSpot(i: Idx, j: Idx)

  ghost predicate Sits(place: map<nat, Place>, root: nat, s: Spot, p: nat) {
    match s
    case MidSpot(i) => p in place && place[p] == Mid(root, i)
    case LowSpot(i, j) => p in place && place[p].Low? && place[p].at == j && place[p].up in place && place[place[p].up] == Mid(root, i)
  }

  function SpotOf(place: map<nat, Place>, root: nat, p: nat): Option<Spot> {
    if p !in place then None
    else
      match place[p]
      case Root => None
      case Mid(up, i) => if up == root then Some(MidSpot(i)) else None
      case Low(up, j) =>
        if up in place && place[up].Mid? && place[up].up == root then Some(LowSpot(place[up].at, j)) else None
  }

  /** The tables that a space has. */
  function Spots(place: map<nat, Place>, root: nat): (r: set<Spot>)
    ensures forall p: nat, s: Spot :: Sits(place, root, s, p) ==> s in r
  {
    assert forall p: nat, s: Spot :: Sits(place, root, s, p) ==> SpotOf(place, root, p) == Some(s);
    set p | p in place && SpotOf(place, root, p).Some? :: SpotOf(place, root, p).value
  }

  lemma SpotSits(place: map<nat, Place>, root: nat, s: Spot) returns (p: nat)
    requires s in Spots(place, root)
    ensures Sits(place, root, s, p)
  {
    p :| p in place && SpotOf(place, root, p) == Some(s);
  }

  /** The tables on the way to a page. */
  function Way(v: VPage): set<Spot> {
    {MidSpot(v.i), LowSpot(v.i, v.j)}
  }

  function Ways(vs: set<VPage>): set<Spot> {
    (set v | v in vs :: MidSpot(v.i)) + (set v | v in vs :: LowSpot(v.i, v.j))
  }

  /** The tables that mapping the pages vs in a space would add to it. */
  function Needed(place: map<nat, Place>, root: nat, vs: set<VPage>): set<Spot> {
    Ways(vs) - Spots(place, root)
  }

  lemma WaysOf(vs: set<VPage>, s: Spot)
    ensures s in Ways(vs) <==> exists v :: v in vs && s in Way(v)
  {
  }

  lemma WaysUnion(vs: set<VPage>, ws: set<VPage>)
    ensures Ways(vs + ws) == Ways(vs) + Ways(ws) && Ways({}) == {}
    ensures forall v :: Ways({v}) == Way(v)
  {
  }

  /** From a to b every new table page hangs on the way to `key`; the old ones stay where they were. */
  ghost predicate Toward(a: Tables, b: Tables, key: Key) {
    && (forall p :: p in a.place ==> p in b.place && b.place[p] == a.place[p])
    && forall p: nat :: p in b.place && p !in a.place ==>
         Sits(b.place, key.root, MidSpot(key.v.i), p) || Sits(b.place, key.root, LowSpot(key.v.i, key.v.j), p)
  }

  /** Table pages that are missing on the way to a page, counted as spots. */
  lemma MissingIs(t: Tables, key: Key)
    requires Good(t) && t.dead == {} && key.root in t.place && t.place[key.root].Root?
    ensures Missing(t, key) == |Needed(t.place, key.root, {key.v})|
  {
    HasMid(t, key);
    HasLow(t, key);
    OneWay(Spots(t.place, key.root), key.v);
    hide Good, Spots;
  }

  lemma OneWay(s: set<Spot>, v: VPage)
    ensures |Ways({v}) - s| == (if MidSpot(v.i) in s then 0 else 1) + (if LowSpot(v.i, v.j) in s then 0 else 1)
  {
    WaysUnion({}, {});
    hide Ways;
    PairLess(s, MidSpot(v.i), LowSpot(v.i, v.j));
  }

  lemma PairLess(s: set<Spot>, m: Spot, l: Spot)
    requires m != l
    ensures |{m, l} - s| == (if m in s then 0 else 1) + (if l in s then 0 else 1)
  {
    var d := {m, l} - s;
    if m in s && l in s {
      assert d == {};
    } else if m in s {
      assert d == {l};
    } else if l in s {
      assert d == {m};
    } else {
      assert d == {m, l};
    }
  }

  lemma HasMid(t: Tables, key: Key)
    requires Good(t) && t.dead == {} && key.root in t.place && t.place[key.root].Root?
    ensures MidSpot(key.v.i) in Spots(t.place, key.root) <==> t.table[key.root][key.v.i].Entry?
    ensures t.table[key.root][key.v.i].Entry? ==>
      t.table[key.root][key.v.i].ppn in t.place && t.place[t.table[key.root][key.v.i].ppn] == Mid(key.root, key.v.i)
  {
    hide Flat;
    if t.table[key.root][key.v.i].Entry? {
      assert Sits(t.place, key.root, MidSpot(key.v.i), t.table[key.root][key.v.i].ppn);
    }
    if MidSpot(key.v.i) in Spots(t.place, key.root) {
      var p := SpotSits(t.place, key.root, MidSpot(key.v.i));
      assert HangsFrom(t, p, key.root, key.v.i);
    }
  }

  lemma HasLow(t: Tables, key: Key)
    requires Good(t) && t.dead == {} && key.root in t.place && t.place[key.root].Root?
    ensures var e := t.table[key.root][key.v.i];
            LowSpot(key.v.i, key.v.j) in Spots(t.place, key.root) <==> e.Entry? && e.ppn < |t.table| && t.table[e.ppn][key.v.j].Entry?
  {
    hide Flat;
    HasMid(t, key);
    var e := t.table[key.root][key.v.i];
    if e.Entry? && t.table[e.ppn][key.v.j].Entry? {
      assert Sits(t.place, key.root, LowSpot(key.v.i, key.v.j), t.table[e.ppn][key.v.j].ppn);
    }
    if LowSpot(key.v.i, key.v.j) in Spots(t.place, key.root) {
      var p := SpotSits(t.place, key.root, LowSpot(key.v.i, key.v.j));
      var m := t.place[p].up;
      assert HangsFrom(t, p, m, key.v.j) && HangsFrom(t, m, key.root, key.v.i);
    }
  }

  lemma LowSpotLow(t: Tables, key: Key)
    requires Good(t) && LowSpot(key.v.i, key.v.j) in Spots(t.place, key.root)
    ensures LowOf(t, key) != None
  {
    var p := SpotSits(t.place, key.root, LowSpot(key.v.i, key.v.j));
    LowIsLow(t, p);
    assert KeyOf(t, p, key.v.k) == key;
  }

  lemma LowOfNone(t: Tables, key: Key)
    requires Good(t) && LowOf(t, key) == None
    ensures LowSpot(key.v.i, key.v.j) !in Spots(t.place, key.root)
  {
    hide Good;
    if LowSpot(key.v.i, key.v.j) in Spots(t.place, key.root) {
      LowSpotLow(t, key);
    }
  }

  /** A creating walk adds tables on its way at most. */
  lemma SpotsToward(a: Tables, b: Tables, key: Key, root: nat)
    requires Good(a) && Toward(a, b, key)
    ensures Spots(a.place, root) <= Spots(b.place, root)
    ensures Spots(b.place, root) <= Spots(a.place, root) + if root == key.root then Way(key.v) else {}
  {
    hide Flat, Down;
    forall s | s in Spots(a.place, root) ensures s in Spots(b.place, root) {
      var p := SpotSits(a.place, root, s);
      assert Sits(b.place, root, s, p);
    }
    forall s | s in Spots(b.place, root) ensures s in Spots(a.place, root) + if root == key.root then Way(key.v) else {} {
      var p := SpotSits(b.place, root, s);
      if p in a.place {
        if a.place[p].Low? {
          assert HangsFrom(a, p, a.place[p].up, a.place[p].at);
        }
        assert Sits(a.place, root, s, p);
      }
    }
  }

  /** A mapped page has its tables. */
  lemma MappedWay(t: Tables, key: Key)
    requires Good(t) && key in t.maps
    ensures Way(key.v) <= Spots(t.place, key.root)
  {
    MapsAt(t, key);
    LowOfIsKeyOf(t, key);
    var f := LowOf(t, key).value;
    assert Sits(t.place, key.root, LowSpot(key.v.i, key.v.j), f) && Sits(t.place, key.root, MidSpot(key.v.i), t.place[f].up);
  }

  /** After a mapping that succeeded the space has just the tables it had and those on the way. */
  lemma SpotsAfter(a: Tables, b: Tables, key: Key)
    requires Good(a) && Good(b) && Toward(a, b, key) && key in b.maps
    ensures Spots(b.place, key.root) == Spots(a.place, key.root) + Way(key.v)
    ensures forall root: nat :: root != key.root ==> Spots(b.place, root) == Spots(a.place, root)
  {
    hide Good, Toward;
    forall root: nat ensures Spots(a.place, root) <= Spots(b.place, root) <= Spots(a.place, root) + if root == key.root then Way(key.v) else {} {
      SpotsToward(a, b, key, root);
    }
    MappedWay(b, key);
  }

  /** A space that has no tables yet. */
  lemma NoSpots(t: Tables, root: nat)
    requires Good(t) && root !in t.place
    ensures Spots(t.place, root) == {} && Spots(t.place[root := Root], root) == {}
    ensures forall r: nat :: Spots(t.place[root := Root], r) == Spots(t.place, r)
  {
    hide Flat, Down;
    var n := t.place[root := Root];
    forall r: nat, s: Spot ensures s in Spots(n, r) <==> s in Spots(t.place, r) {
      if s in Spots(t.place, r) {
        var p := SpotSits(t.place, r, s);
        assert Sits(n, r, s, p);
      }
      if s in Spots(n, r) {
        var p := SpotSits(n, r, s);
        assert HangsFrom(t, p, t.place[p].up, t.place[p].at);
        assert Sits(t.place, r, s, p);
      }
    }
    if s :| s in Spots(t.place, root) {
      SpotHasRoot(t, root, s);
    }
  }

  lemma SpotHasRoot(t: Tables, root: nat, s: Spot)
    requires Good(t) && s in Spots(t.place, root)
    ensures root in t.place
  {
    hide Flat, Down;
    var p := SpotSits(t.place, root, s);
    var m := if s.LowSpot? then t.place[p].up else p;
    assert HangsFrom(t, p, t.place[p].up, t.place[p].at);
    assert HangsFrom(t, m, root, s.i);
  }
}
