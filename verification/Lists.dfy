/**
 The intrusive lists of the kernel's queue header: each element carries the next element and the
 place of the link that points to it, so that it can leave its list without knowing which one it is in.
 */
module Lists {
  const NIL := -1

  /** Where a link is kept: in a list head or in an element. */
  datatype Ref = Nowhere | First(q: nat) | NextOf(i: nat)

  datatype View = View(first: seq<int>, next: seq<int>, prev: seq<Ref>, lists: seq<seq<nat>>)

  ghost predicate In(v: View, q: nat, k: nat) {
    q < |v.lists| && k < |v.lists[q]|
  }

  ghost predicate LinkAt(v: View, q: nat, k: nat)
    requires In(v, q, k)
  {
    var l, e := v.lists[q], v.lists[q][k];
    && e < |v.next| == |v.prev|
    && v.next[e] == (if k + 1 < |l| then l[k + 1] else NIL)
    && v.prev[e] == (if k == 0 then First(q) else NextOf(l[k - 1]))
  }

  ghost predicate HeadAt(v: View, q: nat)
    requires q < |v.lists| == |v.first|
  {
    v.first[q] == if v.lists[q] == [] then NIL else v.lists[q][0]
  }

  /** The links spell out the lists, and no element is in two of them or twice in one. */
  ghost predicate Inv(v: View) {
    && |v.first| == |v.lists| && |v.next| == |v.prev|
    && (forall q: nat :: q < |v.lists| ==> HeadAt(v, q))
    && (forall q: nat, k: nat :: In(v, q, k) ==> LinkAt(v, q, k))
    && forall q: nat, k: nat, r: nat, l: nat :: In(v, q, k) && In(v, r, l) && (q != r || k != l) ==> v.lists[q][k] != v.lists[r][l]
  }

  ghost predicate Loose(v: View, e: nat) {
    e < |v.next| && forall q: nat, k: nat :: In(v, q, k) ==> v.lists[q][k] != e
  }

  function WithFront(v: View, q: nat, e: nat): View
    requires Inv(v) && q < |v.lists| && e < |v.next|
  {
    var f := v.first[q];
    View(v.first[q := e], v.next[e := f],
         (if f != NIL then (InvHead(v, q); v.prev[f := NextOf(e)]) else v.prev)[e := First(q)],
         v.lists[q := [e] + v.lists[q]])
  }

  lemma InvHead(v: View, q: nat)
    requires Inv(v) && q < |v.lists|
    ensures v.first[q] == NIL <==> v.lists[q] == []
    ensures v.lists[q] != [] ==> 0 <= v.first[q] < |v.prev|
  {
    assert HeadAt(v, q);
    if v.lists[q] != [] {
      assert In(v, q, 0) && LinkAt(v, q, 0);
    }
  }

  lemma FrontInv(v: View, q: nat, e: nat)
    requires Inv(v) && q < |v.lists| && Loose(v, e)
    ensures Inv(WithFront(v, q, e))
  {
    InvHead(v, q);
    var w := WithFront(v, q, e);
    forall r: nat | r < |w.lists| ensures HeadAt(w, r) {
      assert HeadAt(v, r);
    }
    forall r: nat, k: nat | In(w, r, k) ensures LinkAt(w, r, k) && (w.lists[r][k] == e <==> r == q && k == 0) {
      FrontLink(v, q, e, r, k);
    }
    forall r: nat, k: nat, s: nat, l: nat | In(w, r, k) && In(w, s, l) && (r != s || k != l) ensures w.lists[r][k] != w.lists[s][l] {
      var rk, sl := if r == q then k - 1 else k, if s == q then l - 1 else l;
      assert rk >= 0 ==> In(v, r, rk) && w.lists[r][k] == v.lists[r][rk];
      assert sl >= 0 ==> In(v, s, sl) && w.lists[s][l] == v.lists[s][sl];
    }
  }

  lemma FrontLink(v: View, q: nat, e: nat, r: nat, k: nat)
    requires Inv(v) && q < |v.lists| && Loose(v, e) && In(WithFront(v, q, e), r, k)
    ensures LinkAt(WithFront(v, q, e), r, k) && (WithFront(v, q, e).lists[r][k] == e <==> r == q && k == 0)
  {
    InvHead(v, q);
    assert HeadAt(v, q);
    if r == q {
      if k > 0 {
        assert In(v, q, k - 1) && LinkAt(v, q, k - 1);
        assert In(v, q, 0);
      }
    } else {
      assert In(v, r, k) && LinkAt(v, r, k);
      if v.lists[q] != [] {
        assert In(v, q, 0);
      }
    }
  }

  class ListHeap {
    var first: seq<int>
    var next: seq<int>
    var prev: seq<Ref>
    ghost var lists: seq<seq<nat>>

    ghost function V(): View
      reads this
    {
      View(first, next, prev, lists)
    }

    ghost predicate Valid()
      reads this
    {
      Inv(V())
    }

    /** LIST_INSERT_HEAD. */
    method InsertHead(q: nat, e: nat)
      requires Valid() && q < |lists| && Loose(V(), e)
      modifies this
      ensures Valid() && lists == old(lists)[q := [e] + old(lists)[q]] && |next| == |old(next)|
    {
      FrontInv(V(), q, e);
      InvHead(V(), q);
      hide Inv;
      next := next[e := first[q]];
      if next[e] != NIL {
        prev := prev[first[q] := NextOf(e)];
      }
      first := first[q := e];
      prev := prev[e := First(q)];
      lists := lists[q := [e] + lists[q]];
    }

    /** LIST_INSERT_TAIL: walks the list with the new element's own link as the cursor. */
    method InsertTail(q: nat, e: nat)
      requires Valid() && q < |lists| && Loose(V(), e)
      modifies this
      ensures Valid() && lists == old(lists)[q := old(lists)[q] + [e]] && |next| == |old(next)|
    {
      ghost var v := V();
      InvHead(v, q);
      if first[q] != NIL {
        next := next[e := first[q]];
        ghost var k := 0;
        ghost var l := lists[q];
        Ahead(v, q, 0, e);
        while next[next[e]] != NIL
          invariant 0 <= k < |l| && |next| == |v.next| && 0 <= next[e] == l[k] < |next| && next == v.next[e := l[k]] && l[k] != e
          invariant next[l[k]] == if k + 1 < |l| then l[k + 1] else NIL
          decreases |l| - k
          modifies this`next
        {
          Ahead(v, q, k + 1, e);
          next := next[e := next[next[e]]];
          k := k + 1;
        }
        TailInv(v, q, e);
        next := next[next[e] := e];
        prev := prev[e := NextOf(next[e])];
        next := next[e := NIL];
        lists := lists[q := lists[q] + [e]];
        assert next == v.next[l[|l| - 1] := e][e := NIL];
      } else {
        InsertHead(q, e);
        assert [e] + v.lists[q] == v.lists[q] + [e];
      }
    }

    /** LIST_REMOVE of the element at place k of list q, which the code does not need to know. */
    method Remove(e: nat, ghost q: nat, ghost k: nat)
      requires Valid() && In(V(), q, k) && lists[q][k] == e
      modifies this
      ensures Valid() && lists == old(lists)[q := old(lists)[q][..k] + old(lists)[q][k + 1..]] && Loose(V(), e)
      ensures next[e] == NIL && prev[e] == Nowhere
    {
      ghost var v := V();
      Around(v, q, k);
      RemovedInv(v, q, k);
      hide Inv;
      if next[e] != NIL {
        prev := prev[next[e] := prev[e]];
      }
      match prev[e] {
        case First(h) => first := first[h := next[e]];
        case NextOf(i) => next := next[i := next[e]];
        case Nowhere => assert false;
      }
      next := next[e := NIL];
      prev := prev[e := Nowhere];
      lists := lists[q := lists[q][..k] + lists[q][k + 1..]];
    }
  }

  lemma Ahead(v: View, q: nat, k: nat, e: nat)
    requires Inv(v) && Loose(v, e) && In(v, q, k)
    ensures v.lists[q][k] < |v.next| && v.lists[q][k] != e && v.next[v.lists[q][k]] == if k + 1 < |v.lists[q]| then v.lists[q][k + 1] else NIL
    ensures v.first[q] == v.lists[q][0]
  {
    assert LinkAt(v, q, k) && HeadAt(v, q);
  }

  function WithTail(v: View, q: nat, e: nat): View
    requires q < |v.lists| && v.lists[q] != [] && v.lists[q][|v.lists[q]| - 1] < |v.next| == |v.prev| && e < |v.next|
  {
    var last := v.lists[q][|v.lists[q]| - 1];
    View(v.first, v.next[last := e][e := NIL], v.prev[e := NextOf(last)], v.lists[q := v.lists[q] + [e]])
  }

  lemma TailInv(v: View, q: nat, e: nat)
    requires Inv(v) && q < |v.lists| && v.lists[q] != [] && Loose(v, e)
    ensures v.lists[q][|v.lists[q]| - 1] < |v.next| && Inv(WithTail(v, q, e))
  {
    assert In(v, q, |v.lists[q]| - 1) && LinkAt(v, q, |v.lists[q]| - 1);
    var w := WithTail(v, q, e);
    forall r: nat | r < |w.lists| ensures HeadAt(w, r) {
      assert HeadAt(v, r);
    }
    forall r: nat, k: nat | In(w, r, k) ensures LinkAt(w, r, k) && (w.lists[r][k] == e <==> r == q && k == |v.lists[q]|) {
      if In(v, r, k) {
        assert LinkAt(v, r, k);
      }
    }
    forall r: nat, k: nat, s: nat, l: nat | In(w, r, k) && In(w, s, l) && (r != s || k != l) ensures w.lists[r][k] != w.lists[s][l] {
      assert In(v, r, k) ==> w.lists[r][k] == v.lists[r][k];
      assert In(v, s, l) ==> w.lists[s][l] == v.lists[s][l];
    }
  }

  /** The neighbours of a listed element. */
  lemma Around(v: View, q: nat, k: nat)
    requires Inv(v) && In(v, q, k)
    ensures var e, l := v.lists[q][k], v.lists[q];
            (e < |v.next| == |v.prev| && |v.first| == |v.lists| && v.next[e] < |v.prev|
            && (v.next[e] != NIL <==> k + 1 < |l|) && (k + 1 < |l| ==> v.next[e] == l[k + 1] != e)
            && (if k == 0 then v.prev[e] == First(q) else v.prev[e] == NextOf(l[k - 1]) && l[k - 1] < |v.next| && l[k - 1] != e))
  {
    assert LinkAt(v, q, k);
    if k + 1 < |v.lists[q]| {
      assert In(v, q, k + 1) && LinkAt(v, q, k + 1);
    }
    if k > 0 {
      assert In(v, q, k - 1) && LinkAt(v, q, k - 1);
    }
  }

  function Removed(v: View, q: nat, k: nat): View
    requires Inv(v) && In(v, q, k)
  {
    Around(v, q, k);
    var e := v.lists[q][k];
    var prev := if v.next[e] != NIL then v.prev[v.next[e] := v.prev[e]] else v.prev;
    var l := v.lists[q := v.lists[q][..k] + v.lists[q][k + 1..]];
    if k == 0 then View(v.first[q := v.next[e]], v.next[e := NIL], prev[e := Nowhere], l)
    else View(v.first, v.next[v.lists[q][k - 1] := v.next[e]][e := NIL], prev[e := Nowhere], l)
  }

  /** Place in the old list of what is at place j of the shortened one. */
  function Was(q: nat, k: nat, r: nat, j: nat): nat {
    if r == q && j >= k then j + 1 else j
  }

  lemma RemovedInv(v: View, q: nat, k: nat)
    requires Inv(v) && In(v, q, k)
    ensures Inv(Removed(v, q, k)) && Loose(Removed(v, q, k), v.lists[q][k])
  {
    Around(v, q, k);
    var e, w := v.lists[q][k], Removed(v, q, k);
    forall r: nat, j: nat | In(w, r, j)
      ensures In(v, r, Was(q, k, r, j)) && w.lists[r][j] == v.lists[r][Was(q, k, r, j)] != e && LinkAt(w, r, j)
    {
      RemovedLink(v, q, k, r, j);
    }
    forall r: nat | r < |w.lists| ensures HeadAt(w, r) {
      assert HeadAt(v, r);
    }
  }

  lemma RemovedLink(v: View, q: nat, k: nat, r: nat, j: nat)
    requires Inv(v) && In(v, q, k) && In(Removed(v, q, k), r, j)
    ensures In(v, r, Was(q, k, r, j)) && Removed(v, q, k).lists[r][j] == v.lists[r][Was(q, k, r, j)] != v.lists[q][k]
    ensures LinkAt(Removed(v, q, k), r, j)
  {
    Around(v, q, k);
    var i := Was(q, k, r, j);
    assert In(v, r, i) && LinkAt(v, r, i);
    if r == q {
      RemovedHere(v, q, k, j);
    } else {
      RemovedElsewhere(v, q, k, r, j);
    }
  }

  lemma RemovedHere(v: View, q: nat, k: nat, j: nat)
    requires Inv(v) && In(v, q, k) && In(Removed(v, q, k), q, j) && In(v, q, Was(q, k, q, j)) && LinkAt(v, q, Was(q, k, q, j))
    ensures LinkAt(Removed(v, q, k), q, j)
  {
    Around(v, q, k);
    var i, l, w := Was(q, k, q, j), v.lists[q], Removed(v, q, k);
    assert w.lists[q] == l[..k] + l[k + 1..];
    assert k + 1 < |l| ==> In(v, q, k + 1);
    assert k > 0 ==> In(v, q, k - 1);
    assert i > 0 ==> In(v, q, i - 1);
  }

  lemma RemovedElsewhere(v: View, q: nat, k: nat, r: nat, j: nat)
    requires Inv(v) && In(v, q, k) && r != q && In(v, r, j) && LinkAt(v, r, j)
    ensures In(Removed(v, q, k), r, j) && LinkAt(Removed(v, q, k), r, j)
  {
    Around(v, q, k);
    assert k + 1 < |v.lists[q]| ==> In(v, q, k + 1);
    assert k > 0 ==> In(v, q, k - 1);
  }
}
