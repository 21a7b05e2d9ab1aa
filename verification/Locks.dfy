/**
 Spin locks and the nesting of interrupt disabling on a hart.
 */
module Locks {
  /** A hart's interrupt bit, nesting depth and the bit saved at the outermost push. */
  datatype Hart = Hart(enabled: bool, layer: int, last: bool)

  function Push(h: Hart): Hart {
    Hart(false, h.layer + 1, if h.layer == 0 then h.enabled else h.last)
  }

  /** The two panics of interruptPop. */
  predicate PopPanics(h: Hart) {
    h.enabled || h.layer < 0
  }

  function Pop(h: Hart): Hart {
    Hart((h.layer == 1 && h.last) || h.enabled, h.layer - 1, h.last)
  }

  /** Pushes (true) and pops (false), in order. */
  function Apply(h: Hart, w: seq<bool>): Hart {
    if w == [] then h
    else
      var g := Apply(h, w[..|w| - 1]);
      if w[|w| - 1] then Push(g) else Pop(g)
  }

  function Depth(w: seq<bool>): int {
    if w == [] then 0 else Depth(w[..|w| - 1]) + if w[|w| - 1] then 1 else -1
  }

  /** No pop without its push. */
  ghost predicate Nested(w: seq<bool>) {
    forall k :: 0 <= k <= |w| ==> Depth(w[..k]) >= 0
  }

  /**
   However locks nest, interrupts are off while any is held, and the outermost release brings back
   exactly what was before; no pop of a matched pair panics.
   */
  lemma NestingRestores(h: Hart, w: seq<bool>)
    requires h.layer == 0 && Nested(w)
    ensures Apply(h, w).layer == Depth(w) >= 0
    ensures Apply(h, w).enabled <==> Depth(w) == 0 && h.enabled
    ensures Depth(w) > 0 ==> Apply(h, w).last == h.enabled && !PopPanics(Apply(h, w))
  {
    NestingFrom(h, w);
  }

  /** The k-th call of w is a pop, and panics. */
  predicate PanicsAt(h: Hart, w: seq<bool>, k: nat) {
    k < |w| && !w[k] && PopPanics(Apply(h, w[..k]))
  }

  ghost predicate NoPanic(h: Hart, w: seq<bool>) {
    forall k: nat :: k < |w| ==> !PanicsAt(h, w, k)
  }

  /** After no prefix are there more than -low pops without their push. */
  ghost predicate AtLeast(w: seq<bool>, low: int) {
    forall k: nat :: k <= |w| ==> Depth(w[..k]) >= low
  }

  /**
   Which sequences of pushes and pops never panic: with interrupts on at first, those without an
   unmatched pop; with interrupts off at first, interruptPop's guard also lets one unmatched pop
   through, and panics at the next.
   */
  lemma {:induction false} NoPanicIff(h: Hart, w: seq<bool>)
    requires h.layer == 0
    ensures NoPanic(h, w) <==> AtLeast(w, if h.enabled then 0 else -1)
    ensures NoPanic(h, w) ==> Tracked(h, w)
  {
    hide NoPanic, AtLeast;
    OneMore(h, w, if h.enabled then 0 else -1);
    if w != [] {
      OneMore(h, w[..|w| - 1], if h.enabled then 0 else -1);
      NoPanicIff(h, w[..|w| - 1]);
    }
  }

  lemma OneMore(h: Hart, w: seq<bool>, low: int)
    requires low <= 0
    ensures w == [] ==> NoPanic(h, w) && AtLeast(w, low)
    ensures w != [] ==> (NoPanic(h, w) <==> NoPanic(h, w[..|w| - 1]) && (w[|w| - 1] || !PopPanics(Apply(h, w[..|w| - 1]))))
    ensures w != [] ==> (AtLeast(w, low) <==> AtLeast(w[..|w| - 1], low) && Depth(w) >= low)
    ensures AtLeast(w, low) ==> Depth(w) >= low
  {
    assert w[..|w|] == w;
    if w != [] {
      var v := w[..|w| - 1];
      assert forall k: nat :: k <= |v| ==> v[..k] == w[..k];
      assert PanicsAt(h, w, |v|) <==> !w[|v|] && PopPanics(Apply(h, v));
      assert forall k: nat :: k < |v| ==> (PanicsAt(h, v, k) <==> PanicsAt(h, w, k));
      assert forall k: nat :: k < |v| ==> v[..k] == w[..k];
    }
  }

  /** What the hart's fields say after the calls w, none of which panicked. */
  ghost predicate Tracked(h: Hart, w: seq<bool>) {
    var g := Apply(h, w);
    && g.layer == Depth(w) && (g.enabled <==> Depth(w) == 0 && h.enabled)
    && (Depth(w) > 0 ==> g.last == h.enabled)
  }

  /**
   A lock taken and released leaves interrupts as they were exactly if the layer was zero before, or
   they were off. myThread's early return leaves the layer above zero for good, and fifoSched turns
   interrupts on all the same.
   */
  lemma BalancedIff(h: Hart, w: seq<bool>)
    requires h.layer >= 0 && Nested(w) && Depth(w) == 0 && w != []
    ensures Apply(h, w).layer == h.layer
    ensures Apply(h, w).enabled == h.enabled <==> h.layer == 0 || !h.enabled
  {
    NestingFrom(h, w);
  }

  lemma {:induction false} NestingFrom(h: Hart, w: seq<bool>)
    requires h.layer >= 0 && Nested(w)
    ensures Apply(h, w).layer == h.layer + Depth(w) && Depth(w) >= 0
    ensures w != [] ==> (Apply(h, w).enabled <==> h.layer == 0 && Depth(w) == 0 && h.enabled)
    ensures h.layer == 0 && Depth(w) > 0 ==> Apply(h, w).last == h.enabled
  {
    assert w[..|w|] == w;
    if w != [] {
      var v := w[..|w| - 1];
      forall k | 0 <= k <= |v| ensures Depth(v[..k]) >= 0 {
        assert v[..k] == w[..k];
      }
      NestingFrom(h, v);
    }
  }

  /** A lock among harts: `owner` is meaningful only while it is locked. */
  class Spinlock {
    var locked: bool
    var owner: nat
    var harts: array<Hart>

    ghost predicate Valid()
      reads this, harts
    {
      locked ==> owner < harts.Length && harts[owner].layer > 0 && !harts[owner].enabled
    }

    constructor (harts: array<Hart>)
      ensures Valid() && !locked && this.harts == harts
    {
      locked, owner, this.harts := false, 0, harts;
    }

    predicate Holding(me: nat)
      reads this
    {
      locked && owner == me
    }

    /** acquireLock up to the swap that succeeds; false while another hart has the lock. */
    method TryAcquire(me: nat) returns (ok: bool)
      requires Valid() && me < harts.Length && !Holding(me) && harts[me].layer >= 0
      modifies this`locked, this`owner, harts
      ensures Valid() && ok == !old(locked) && harts[me] == Push(old(harts[me]))
      ensures !harts[me].enabled && harts[me].layer == old(harts[me]).layer + 1
      ensures harts[me].last == if old(harts[me]).layer == 0 then old(harts[me]).enabled else old(harts[me]).last
      ensures ok ==> Holding(me)
      ensures !ok ==> locked && owner == old(owner)
      ensures forall h :: 0 <= h < harts.Length && h != me ==> harts[h] == old(harts[h])
    {
      harts[me] := Push(harts[me]);
      if locked {
        return false;
      }
      locked := true;
      owner := me;
      return true;
    }

    /** releaseLock: neither panic happens to the holder. */
    method Release(me: nat)
      requires Valid() && me < harts.Length && Holding(me)
      modifies this`locked, this`owner, harts
      ensures Valid() && !locked && !PopPanics(old(harts[me])) && harts[me] == Pop(old(harts[me]))
      ensures harts[me].layer == old(harts[me]).layer - 1 && harts[me].last == old(harts[me]).last
      ensures harts[me].enabled <==> old(harts[me]).layer == 1 && old(harts[me]).last
      ensures forall h :: 0 <= h < harts.Length && h != me ==> harts[h] == old(harts[h])
    {
      owner := 0;
      locked := false;
      harts[me] := Pop(harts[me]);
    }
  }
}
