/**
 The file allocation table as a heap of linked lists: each file's cluster chain, the bitmap that
 mirrors the table, and the updates that the file system makes.
 */
module FatHeap {
  const EOC := 0x0FFF_FFF8

  /** `home[c]` says of which file's chain, and where in it, cluster c is. */
  datatype Heap = Heap(fat: seq<nat>, taken: seq<bool>, chain: seq<seq<nat>>, home: map<nat, (nat, nat)>)

  /** Bitmap and table agree; entries 0 and 1 are reserved. */
  ghost predicate Mirrored(h: Heap) {
    && |h.fat| == |h.taken| && 2 <= |h.fat| <= EOC && h.taken[0] && h.taken[1]
    && forall c :: 0 <= c < |h.fat| ==> (h.taken[c] <==> h.fat[c] != 0)
  }

  ghost predicate InChain(h: Heap, f: nat, i: nat) {
    f < |h.chain| && i < |h.chain[f]|
  }

  ghost predicate LinkAt(h: Heap, f: nat, i: nat)
    requires InChain(h, f, i)
  {
    && 2 <= h.chain[f][i] < |h.fat|
    && (if i + 1 < |h.chain[f]| then h.fat[h.chain[f][i]] == h.chain[f][i + 1] else h.fat[h.chain[f][i]] >= EOC)
  }

  /** Walking the table from a chain's first cluster visits the chain and ends. */
  ghost predicate Linked(h: Heap) {
    forall f: nat, i: nat :: InChain(h, f, i) ==> LinkAt(h, f, i)
  }

  /** No cluster is in two chains, or twice in one. */
  ghost predicate Apart(h: Heap) {
    && (forall f: nat, i: nat :: InChain(h, f, i) ==> h.chain[f][i] in h.home && h.home[h.chain[f][i]] == (f, i))
    && (forall c :: c in h.home ==> InChain(h, h.home[c].0, h.home[c].1) && h.chain[h.home[c].0][h.home[c].1] == c)
  }

  ghost predicate Inv(h: Heap) {
    Mirrored(h) && Linked(h) && Apart(h)
  }

  /** Clusters marked in use that belong to no chain; no operation may add to them for good. */
  ghost function Orphans(h: Heap): set<nat> {
    set c: nat | c < |h.taken| && h.taken[c] && c !in h.home
  }

  function Free(taken: seq<bool>): set<nat> {
    set c: nat | c < |taken| && !taken[c]
  }

  /** Chains are disjoint and acyclic. */
  lemma ChainsDisjoint(h: Heap, f: nat, i: nat, g: nat, j: nat)
    requires Inv(h) && InChain(h, f, i) && InChain(h, g, j) && h.chain[f][i] == h.chain[g][j]
    ensures f == g && i == j
  {
    assert h.home[h.chain[f][i]] == (f, i);
  }

  lemma HomeInside(h: Heap)
    requires Inv(h)
    ensures forall c :: c in h.home ==> 2 <= c < |h.fat| && h.fat[c] != 0
  {
    forall c | c in h.home ensures 2 <= c < |h.fat| && h.fat[c] != 0 {
      var f, i := h.home[c].0, h.home[c].1;
      assert InChain(h, f, i) && LinkAt(h, f, i);
      if i + 1 < |h.chain[f]| {
        assert InChain(h, f, i + 1) && LinkAt(h, f, i + 1);
      }
    }
  }

  // ----- updates -----------------------------------------------------------------------

  /** allocClus marks cluster c as the end of a chain of its own. */
  function Marked(h: Heap, c: nat): Heap
    requires c < |h.fat| && c < |h.taken|
  {
    Heap(h.fat[c := EOC + 7], h.taken[c := true], h.chain, h.home)
  }

  lemma MarkedInv(h: Heap, c: nat)
    requires Inv(h) && c < |h.fat| && !h.taken[c]
    ensures Inv(Marked(h, c)) && c !in h.home && 2 <= c
    ensures Orphans(Marked(h, c)) == Orphans(h) + {c} && c !in Orphans(h)
    ensures |Free(Marked(h, c).taken)| == |Free(h.taken)| - 1
  {
    HomeInside(h);
    assert Free(Marked(h, c).taken) == Free(h.taken) - {c};
    var n := Marked(h, c);
    forall f: nat, i: nat | InChain(n, f, i)
      ensures LinkAt(n, f, i)
    {
      assert InChain(h, f, i) && LinkAt(h, f, i);
    }
  }

  /** A marked cluster joins the end of chain f. */
  function Joined(h: Heap, f: nat, c: nat): Heap
    requires f < |h.chain| && (h.chain[f] != [] ==> h.chain[f][|h.chain[f]| - 1] < |h.fat|)
  {
    Heap(if h.chain[f] == [] then h.fat else h.fat[h.chain[f][|h.chain[f]| - 1] := c], h.taken,
         h.chain[f := h.chain[f] + [c]], h.home[c := (f, |h.chain[f]|)])
  }

  lemma TailInside(h: Heap, f: nat)
    requires Inv(h) && f < |h.chain| && h.chain[f] != []
    ensures var t := h.chain[f][|h.chain[f]| - 1]; 2 <= t < |h.fat| && h.fat[t] >= EOC
  {
    assert InChain(h, f, |h.chain[f]| - 1) && LinkAt(h, f, |h.chain[f]| - 1);
  }

  lemma JoinedInv(h: Heap, f: nat, c: nat)
    requires Inv(h) && f < |h.chain| && 2 <= c < |h.fat| && c in Orphans(h) && h.fat[c] >= EOC
    requires h.chain[f] != [] ==> h.chain[f][|h.chain[f]| - 1] < |h.fat|
    ensures Inv(Joined(h, f, c)) && Orphans(Joined(h, f, c)) == Orphans(h) - {c}
  {
    var n := Joined(h, f, c);
    if h.chain[f] != [] {
      TailInside(h, f);
    }
    JoinedApart(h, f, c);
    forall g: nat, i: nat | InChain(n, g, i)
      ensures LinkAt(n, g, i)
    {
      if !(g == f && i == |h.chain[f]|) {
        assert InChain(h, g, i) && LinkAt(h, g, i);
        if h.chain[f] != [] && h.chain[g][i] == h.chain[f][|h.chain[f]| - 1] {
          ChainsDisjoint(h, g, i, f, |h.chain[f]| - 1);
        }
      }
    }
  }

  lemma JoinedApart(h: Heap, f: nat, c: nat)
    requires Apart(h) && f < |h.chain| && c !in h.home
    requires h.chain[f] != [] ==> h.chain[f][|h.chain[f]| - 1] < |h.fat|
    ensures Apart(Joined(h, f, c))
  {
    var n := Joined(h, f, c);
    forall g: nat, i: nat | InChain(n, g, i) ensures n.chain[g][i] in n.home && n.home[n.chain[g][i]] == (g, i) {
      if !(g == f && i == |h.chain[f]|) {
        assert InChain(h, g, i);
      }
    }
    forall d | d in n.home ensures InChain(n, n.home[d].0, n.home[d].1) && n.chain[n.home[d].0][n.home[d].1] == d {
      if d != c {
        assert InChain(h, h.home[d].0, h.home[d].1);
      }
    }
  }

  /** Chain f given back: its entries are zero and its bits clear. */
  ghost predicate Emptied(h: Heap, n: Heap, f: nat)
    requires Inv(h) && f < |h.chain|
  {
    && |n.fat| == |h.fat| && |n.taken| == |h.taken|
    && (forall c: nat :: c < |h.fat| ==>
          if c in h.home && h.home[c].0 == f then n.fat[c] == 0 && !n.taken[c]
          else n.fat[c] == h.fat[c] && n.taken[c] == h.taken[c])
    && n.chain == h.chain[f := []] && n.home == map c | c in h.home && h.home[c].0 != f :: h.home[c]
  }

  lemma EmptiedInv(h: Heap, n: Heap, f: nat)
    requires Inv(h) && f < |h.chain| && Emptied(h, n, f)
    ensures Inv(n) && Orphans(n) == Orphans(h)
    ensures Free(n.taken) == Free(h.taken) + set i: nat | i < |h.chain[f]| :: h.chain[f][i]
  {
    EmptiedFree(h, n, f);
    HomeInside(h);
    forall g: nat, i: nat | InChain(n, g, i)
      ensures n.chain[g][i] in n.home && n.home[n.chain[g][i]] == (g, i) && LinkAt(n, g, i)
    {
      assert InChain(h, g, i) && LinkAt(h, g, i);
    }
    forall d | d in n.home ensures InChain(n, n.home[d].0, n.home[d].1) && n.chain[n.home[d].0][n.home[d].1] == d {
      assert InChain(h, h.home[d].0, h.home[d].1);
    }
  }

  lemma EmptiedFree(h: Heap, n: Heap, f: nat)
    requires Inv(h) && f < |h.chain| && Emptied(h, n, f)
    ensures Free(n.taken) == Free(h.taken) + set i: nat | i < |h.chain[f]| :: h.chain[f][i]
  {
    forall c | c in Free(n.taken) && c !in Free(h.taken)
      ensures c in set i: nat | i < |h.chain[f]| :: h.chain[f][i]
    {
      assert InChain(h, h.home[c].0, h.home[c].1);
      assert h.chain[f][h.home[c].1] == c;
    }
    forall i: nat | i < |h.chain[f]| ensures h.chain[f][i] in Free(n.taken) {
      assert InChain(h, f, i) && LinkAt(h, f, i);
    }
  }
}
