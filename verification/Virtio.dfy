/**
 The virtio block driver and its device: requests are chains of three descriptors, offered in one
 ring and returned in another, and the two sides count modulo 2^16.
 */
module Virtio {
  const RING := 8
  const U16 := 0x1_0000
  const NEXT := 1
  const WRITE := 2

  /** VIRTIO_BLK_T_OUT and VIRTIO_BLK_T_IN. */
  function Kind(write: bool): nat { if write then 1 else 0 }

  type Block = seq<int>

  /** Place of the k-th entry in a ring. */
  function At(k: nat): (r: nat)
    ensures r < RING
  {
    k % RING
  }

  /** A 16-bit counter that has counted to k. */
  function Wrapped(k: nat): nat {
    k % U16
  }

  datatype Addr = Null | Req(i: nat) | Data(b: nat) | Status(i: nat)
  datatype Desc = Desc(addr: Addr, len: nat, flags: nat, next: nat)
  datatype Op = Op(kind: nat, sector: nat)

  /** How far a request has come: offered, held by the device, returned, seen by the driver. */
  datatype Phase = Offered | Held | Used | Seen
  datatype Chain = Chain(mid: nat, last: nat, buf: nat, write: bool, sector: nat, phase: Phase, ticket: nat)

  /**
   Driver and device. `chain` maps the first descriptor of a request to the request, `owner` a
   descriptor to the first of its chain; sent, taken, done and seen are the unbounded counters.
   */
  datatype View = View(desc: seq<Desc>, free: seq<bool>, avail: seq<nat>, availIdx: nat, used: seq<nat>, usedIdx: nat,
                       usedIndex: nat, buf: seq<int>, status: seq<nat>, ops: seq<Op>, busy: seq<bool>, data: seq<Block>, blocks: seq<Block>,
                       chain: map<nat, Chain>, owner: map<nat, nat>, sent: nat, taken: nat, done: nat, seen: nat)

  ghost predicate Sized(v: View) {
    && |v.desc| == |v.free| == |v.avail| == |v.used| == |v.buf| == |v.status| == |v.ops| == RING
    && |v.busy| == |v.data|
  }

  /** A request's three descriptors, its record, and its place in the rings. */
  ghost predicate Linked(v: View, h: nat)
    requires Sized(v) && h in v.chain
  {
    var c := v.chain[h];
    && h < RING && c.mid < RING && c.last < RING && h != c.mid && h != c.last && c.mid != c.last
    && !v.free[h] && !v.free[c.mid] && !v.free[c.last]
    && h in v.owner && c.mid in v.owner && c.last in v.owner && v.owner[h] == v.owner[c.mid] == v.owner[c.last] == h
    && v.desc[h] == Desc(Req(h), 16, NEXT, c.mid)
    && v.desc[c.mid] == Desc(Data(c.buf), 512, (if c.write then 0 else WRITE) + NEXT, c.last)
    && v.desc[c.last] == Desc(Status(h), 1, WRITE, 0)
    && v.ops[h] == Op(Kind(c.write), c.sector) && v.buf[h] == c.buf && v.status[h] == 0
    && c.buf < |v.busy| && c.sector < |v.blocks|
    && (c.phase == Offered ==> v.taken <= c.ticket < v.sent && v.avail[At(c.ticket)] == h)
    && (c.phase == Used ==> v.seen <= c.ticket < v.done && v.used[At(c.ticket)] == h)
  }

  /** And until its completion is noticed, the flag of its buffer is set. */
  ghost predicate ChainOk(v: View, h: nat)
    requires Sized(v) && h in v.chain
  {
    Linked(v, h) && (v.chain[h].phase != Seen ==> v.busy[v.chain[h].buf])
  }

  ghost predicate OfferedAt(v: View, k: nat)
    requires Sized(v)
  {
    v.avail[At(k)] in v.chain && v.chain[v.avail[At(k)]].phase == Offered && v.chain[v.avail[At(k)]].ticket == k
  }

  ghost predicate UsedAt(v: View, k: nat)
    requires Sized(v)
  {
    v.used[At(k)] in v.chain && v.chain[v.used[At(k)]].phase == Used && v.chain[v.used[At(k)]].ticket == k
  }

  /** A descriptor is free and blank, or belongs to exactly one request. */
  ghost predicate Owned(v: View, i: nat)
    requires Sized(v) && i < RING
  {
    && (v.free[i] <==> i !in v.owner) && (v.free[i] ==> v.desc[i] == Desc(Null, 0, 0, 0))
    && (i in v.owner ==> v.owner[i] in v.chain
                         && (i == v.owner[i] || i == v.chain[v.owner[i]].mid || i == v.chain[v.owner[i]].last))
  }

  ghost predicate Chains(v: View)
    requires Sized(v)
  {
    forall h :: h in v.chain ==> ChainOk(v, h)
  }

  ghost predicate Table(v: View)
    requires Sized(v)
  {
    && (forall i :: i in v.owner ==> i < RING)
    && (forall i: nat :: i < RING ==> Owned(v, i))
    && |v.owner| == 3 * |v.chain|
  }

  /** No two requests that wait for their completion share a buffer. */
  ghost predicate Apart(v: View) {
    forall g, h :: g in v.chain && h in v.chain && g != h && v.chain[g].buf == v.chain[h].buf ==>
      v.chain[g].phase == Seen || v.chain[h].phase == Seen
  }

  /** A flag is set only for a request that waits. */
  ghost predicate Flags(v: View) {
    forall b: nat :: b < |v.busy| && v.busy[b] ==> exists h :: h in v.chain && v.chain[h].phase != Seen && v.chain[h].buf == b
  }

  ghost predicate Rings(v: View)
    requires Sized(v)
  {
    && v.seen <= v.done && v.taken <= v.sent
    && v.availIdx == Wrapped(v.sent) && v.usedIdx == Wrapped(v.done) && v.usedIndex == Wrapped(v.seen)
    && (forall k: nat :: v.taken <= k < v.sent ==> OfferedAt(v, k))
    && (forall k: nat :: v.seen <= k < v.done ==> UsedAt(v, k))
  }

  ghost predicate Inv(v: View) {
    Sized(v) && Chains(v) && Table(v) && Apart(v) && Flags(v) && Rings(v)
  }

  // ----- consequences -----------------------------------------------------------------------

  /** Eight descriptors make at most two requests of three. */
  lemma AtMostTwo(v: View)
    requires Inv(v)
    ensures |v.chain| <= 2
  {
    hide At, Wrapped, ChainOk, Owned, UsedAt, OfferedAt;
    BoundedSize(v.owner.Keys, RING);
  }

  lemma {:induction false} BoundedSize(s: set<nat>, n: nat)
    requires forall i :: i in s ==> i < n
    ensures |s| <= n
  {
    if n == 0 {
      assert s == {};
    } else {
      BoundedSize(s - {n - 1}, n - 1);
    }
  }

  /** So neither ring ever holds more than two entries. */
  lemma FewInRings(v: View)
    requires Inv(v)
    ensures v.seen <= v.done <= v.seen + 2 && v.taken <= v.sent <= v.taken + 2
  {
    hide At, Wrapped, ChainOk, Owned;
    AtMostTwo(v);
    if v.done - v.seen > 2 {
      var k, l, m := v.seen, v.seen + 1, v.seen + 2;
      assert UsedAt(v, k) && UsedAt(v, l) && UsedAt(v, m);
      ThreeKeys(v.chain, v.used[At(k)], v.used[At(l)], v.used[At(m)]);
    }
    if v.sent - v.taken > 2 {
      var k, l, m := v.taken, v.taken + 1, v.taken + 2;
      assert OfferedAt(v, k) && OfferedAt(v, l) && OfferedAt(v, m);
      ThreeKeys(v.chain, v.avail[At(k)], v.avail[At(l)], v.avail[At(m)]);
    }
  }

  lemma ThreeKeys(c: map<nat, Chain>, x: nat, y: nat, z: nat)
    requires x in c && y in c && z in c && x != y && y != z && x != z
    ensures |c| >= 3
  {
    var t := {x, y, z};
    assert c.Keys == t + (c.Keys - t);
  }

  /** The driver's test on 16-bit counters modulo 8 says exactly whether a completion is unseen. */
  lemma ModuloTest(v: View)
    requires Inv(v)
    ensures At(v.usedIndex) != At(v.usedIdx) <==> v.seen != v.done
  {
    FewInRings(v);
    Wrap(v.seen);
    Wrap(v.done);
    if v.seen != v.done {
      Near(v.seen, v.done);
    }
  }

  lemma Wrap(n: nat)
    ensures At(Wrapped(n)) == At(n)
  {
    var q, r := n / U16, n % U16;
    Multiple(q * 0x2000 + r / RING, r % RING);
  }

  lemma Multiple(x: nat, r: nat)
    requires r < RING
    ensures (x * RING + r) % RING == r
  {
  }

  lemma Near(a: nat, b: nat)
    requires a < b <= a + 7
    ensures At(a) != At(b)
  {
  }

  // ----- the steps --------------------------------------------------------------------------

  function Submitted(v: View, h: nat, m: nat, l: nat, b: nat, write: bool, sector: nat): View
    requires Sized(v) && h < RING && m < RING && l < RING && b < |v.busy|
  {
    v.(desc := v.desc[h := Desc(Req(h), 16, NEXT, m)]
                     [m := Desc(Data(b), 512, (if write then 0 else WRITE) + NEXT, l)]
                     [l := Desc(Status(h), 1, WRITE, 0)],
       free := v.free[h := false][m := false][l := false], ops := v.ops[h := Op(Kind(write), sector)],
       buf := v.buf[h := b], status := v.status[h := 0], busy := v.busy[b := true],
       avail := v.avail[At(v.sent) := h], availIdx := Wrapped(v.availIdx + 1), sent := v.sent + 1,
       chain := v.chain[h := Chain(m, l, b, write, sector, Offered, v.sent)], owner := v.owner[h := h][m := h][l := h])
  }

  /** alloc3Desc found three descriptors for a transfer of buffer b. */
  ghost predicate CanSubmit(v: View, h: nat, m: nat, l: nat, b: nat, sector: nat)
    requires Sized(v)
  {
    && h < RING && m < RING && l < RING && h != m && h != l && m != l && v.free[h] && v.free[m] && v.free[l]
    && b < |v.busy| && sector < |v.blocks|
  }

  /** The device takes the next offered request. */
  function Taken(v: View): View
    requires Sized(v) && OfferedAt(v, v.taken)
  {
    var h := v.avail[At(v.taken)];
    v.(chain := v.chain[h := v.chain[h].(phase := Held)], taken := v.taken + 1)
  }

  // The device, by sections 2.4.5 and 5.2.6 of VIRTIO 1.0, with the numbers given there.

  /** What the device is asked for, or that it cannot serve the request. */
  datatype Order = Refused | Order(write: bool, sector: nat, buf: nat, status: nat)

  /** The descriptor after i, if i says that there is one. */
  function Following(desc: seq<Desc>, i: nat): Option
    requires |desc| == RING && i < RING
  {
    if desc[i].flags % 2 == 1 && desc[i].next < RING then Some(desc[i].next) else None
  }

  datatype Option = None | Some(value: nat)

  /** A descriptor table of its own is not offered by this device. */
  predicate Plain(d: Desc) {
    d.flags / 4 % 2 == 0
  }

  predicate DeviceMayWrite(d: Desc) {
    d.flags / 2 % 2 == 1
  }

  /** The request that the chain from h on describes: a header to read, 512 bytes to read or to write, a byte to write. */
  function OrderAt(v: View, h: nat): Order
    requires Sized(v)
  {
    if h >= RING || Following(v.desc, h).None? then Refused else
    var m := Following(v.desc, h).value;
    if Following(v.desc, m).None? then Refused else
    var l := Following(v.desc, m).value;
    var header, body, foot := v.desc[h], v.desc[m], v.desc[l];
    if !Plain(header) || !Plain(body) || !Plain(foot) || Following(v.desc, l).Some? then Refused
    else if DeviceMayWrite(header) || header.len != 16 || !header.addr.Req? || header.addr.i >= RING then Refused
    else if !DeviceMayWrite(foot) || foot.len != 1 || !foot.addr.Status? || foot.addr.i >= RING then Refused
    else
      var op := v.ops[header.addr.i];
      if body.len != 512 || !body.addr.Data? || body.addr.b >= |v.data| || op.sector >= |v.blocks| then Refused
      else if op.kind == 1 && !DeviceMayWrite(body) then Order(true, op.sector, body.addr.b, foot.addr.i)
      else if op.kind == 0 && DeviceMayWrite(body) then Order(false, op.sector, body.addr.b, foot.addr.i)
      else Refused
  }

  /**
   When the device serves a request: exactly for three descriptors linked by bit 1, none of them with bit
   4, the first of 16 bytes and without bit 2, the last of one byte and with it, and between them 512
   bytes, with bit 2 for kind 0 and without it for kind 1.
   */
  lemma ServedIff(v: View, h: nat)
    requires Sized(v)
    ensures OrderAt(v, h).Order? <==>
              && h < 8 && v.desc[h].next < 8 && v.desc[v.desc[h].next].next < 8
              && var m := v.desc[h].next; var l := v.desc[m].next;
              var a, b, c := v.desc[h], v.desc[m], v.desc[l];
              && a.flags % 2 == 1 && b.flags % 2 == 1 && (c.flags % 2 == 0 || c.next >= 8)
              && a.flags / 4 % 2 == 0 && b.flags / 4 % 2 == 0 && c.flags / 4 % 2 == 0
              && a.flags / 2 % 2 == 0 && c.flags / 2 % 2 == 1 && a.len == 16 && b.len == 512 && c.len == 1
              && a.addr.Req? && a.addr.i < 8 && b.addr.Data? && b.addr.b < |v.data| && c.addr.Status? && c.addr.i < 8
              && v.ops[a.addr.i].sector < |v.blocks| && v.ops[a.addr.i].kind <= 1
              && (v.ops[a.addr.i].kind == 0 <==> b.flags / 2 % 2 == 1)
    ensures OrderAt(v, h).Order? ==>
              && h < 8 && v.desc[h].next < 8 && v.desc[v.desc[h].next].next < 8 && v.desc[h].addr.Req? && v.desc[h].addr.i < 8
              && var m := v.desc[h].next; var op := v.ops[v.desc[h].addr.i];
              && v.desc[m].addr.Data? && v.desc[v.desc[m].next].addr.Status?
              && OrderAt(v, h) == Order(op.kind == 1, op.sector, v.desc[m].addr.b, v.desc[v.desc[m].next].addr.i)
  {
  }

  /** What the device does with the request at h: the transfer and the status if it can serve it, and the used ring. */
  function Completed(v: View, h: nat): View
    requires Sized(v) && h in v.chain
  {
    var o := OrderAt(v, h);
    v.(data := if o.Order? && !o.write then v.data[o.buf := v.blocks[o.sector]] else v.data,
       blocks := if o.Order? && o.write then v.blocks[o.sector := v.data[o.buf]] else v.blocks,
       status := if o.Order? then v.status[o.status := 0] else v.status,
       used := v.used[At(v.done) := h], usedIdx := Wrapped(v.usedIdx + 1), done := v.done + 1,
       chain := v.chain[h := v.chain[h].(phase := Used, ticket := v.done)])
  }

  /** Every request in the tables is one that the device serves as it was meant. */
  lemma OrderIs(v: View, h: nat)
    requires Sized(v) && h in v.chain && Linked(v, h)
    ensures OrderAt(v, h) == Order(v.chain[h].write, v.chain[h].sector, v.chain[h].buf, h)
  {
  }

  /** One turn of the interrupt handler's loop. */
  function Noticed(v: View): View
    requires Sized(v) && UsedAt(v, v.seen) && Linked(v, v.used[At(v.seen)])
  {
    var h := v.used[At(v.seen)];
    v.(busy := v.busy[v.chain[h].buf := false], usedIndex := Wrapped(v.usedIndex + 1), seen := v.seen + 1,
       chain := v.chain[h := v.chain[h].(phase := Seen)])
  }

  function Freed(v: View, h: nat): View
    requires Sized(v) && h in v.chain && Linked(v, h)
  {
    var c, blank := v.chain[h], Desc(Null, 0, 0, 0);
    v.(desc := v.desc[h := blank][c.mid := blank][c.last := blank], free := v.free[h := true][c.mid := true][c.last := true],
       buf := v.buf[h := -1], chain := v.chain - {h}, owner := v.owner - {h, c.mid, c.last})
  }

  lemma Increment(n: nat)
    ensures Wrapped(Wrapped(n) + 1) == Wrapped(n + 1)
  {
  }

  lemma ChainAt(v: View, h: nat)
    requires Sized(v) && Chains(v) && h in v.chain
    ensures ChainOk(v, h) && Linked(v, h)
  {
  }

  lemma OwnedAt(v: View, i: nat)
    requires Sized(v) && Table(v) && i < RING
    ensures Owned(v, i)
  {
  }

  lemma SubmittedInv(v: View, h: nat, m: nat, l: nat, b: nat, write: bool, sector: nat)
    requires Inv(v) && CanSubmit(v, h, m, l, b, sector) && !v.busy[b]
    ensures Inv(Submitted(v, h, m, l, b, write, sector))
  {
    hide At, Wrapped, Chains, Table, Rings, ChainOk, Owned, Apart, Flags;
    FewInRings(v);
    SubmittedIsNew(v, h, m, l);
    SubmittedChains(v, h, m, l, b, write, sector);
    SubmittedTable(v, h, m, l, b, write, sector);
    SubmittedRings(v, h, m, l, b, write, sector);
    SubmittedFlags(v, h, m, l, b, write, sector);
  }

  /** The invariant survives a submission exactly if the buffer's flag was clear. */
  lemma SubmittedInvIff(v: View, h: nat, m: nat, l: nat, b: nat, write: bool, sector: nat)
    requires Inv(v) && CanSubmit(v, h, m, l, b, sector)
    ensures Inv(Submitted(v, h, m, l, b, write, sector)) <==> !v.busy[b]
  {
    hide At, Wrapped, Table, Rings, ChainOk, Owned, Linked, Chains;
    if v.busy[b] {
      SubmittedIsNew(v, h, m, l);
      var g :| g in v.chain && v.chain[g].phase != Seen && v.chain[g].buf == b;
      var w := Submitted(v, h, m, l, b, write, sector);
      assert g in w.chain && h in w.chain && g != h && w.chain[g].phase != Seen && w.chain[h].phase != Seen;
    } else {
      SubmittedInv(v, h, m, l, b, write, sector);
    }
  }

  lemma SubmittedFlags(v: View, h: nat, m: nat, l: nat, b: nat, write: bool, sector: nat)
    requires Sized(v) && Chains(v) && Apart(v) && Flags(v) && CanSubmit(v, h, m, l, b, sector) && !v.busy[b] && h !in v.chain
    ensures Apart(Submitted(v, h, m, l, b, write, sector)) && Flags(Submitted(v, h, m, l, b, write, sector))
  {
    hide At, Wrapped, Linked;
    var w := Submitted(v, h, m, l, b, write, sector);
    forall g | g in v.chain && v.chain[g].buf == b ensures v.chain[g].phase == Seen {
      ChainAt(v, g);
    }
    forall c: nat | c < |w.busy| && w.busy[c] ensures exists g :: g in w.chain && w.chain[g].phase != Seen && w.chain[g].buf == c {
      if c == b {
        assert h in w.chain && w.chain[h].phase != Seen && w.chain[h].buf == c;
      } else {
        assert v.busy[c];
        var g :| g in v.chain && v.chain[g].phase != Seen && v.chain[g].buf == c;
        assert g in w.chain && w.chain[g].phase != Seen && w.chain[g].buf == c;
      }
    }
  }

  lemma SubmittedIsNew(v: View, h: nat, m: nat, l: nat)
    requires Sized(v) && Chains(v) && Table(v) && h < RING && m < RING && l < RING && v.free[h] && v.free[m] && v.free[l]
    ensures h !in v.chain && h !in v.owner && m !in v.owner && l !in v.owner
  {
    OwnedAt(v, h);
    OwnedAt(v, m);
    OwnedAt(v, l);
    if h in v.chain {
      ChainAt(v, h);
    }
  }

  lemma SubmittedChains(v: View, h: nat, m: nat, l: nat, b: nat, write: bool, sector: nat)
    requires Sized(v) && Chains(v) && CanSubmit(v, h, m, l, b, sector) && v.taken <= v.sent <= v.taken + 2
    requires h !in v.chain && h !in v.owner && m !in v.owner && l !in v.owner
    ensures Sized(Submitted(v, h, m, l, b, write, sector)) && Chains(Submitted(v, h, m, l, b, write, sector))
  {
    var w := Submitted(v, h, m, l, b, write, sector);
    forall g | g in w.chain ensures ChainOk(w, g) {
      if g != h {
        ChainAt(v, g);
        SubmittedChain(v, h, m, l, b, write, sector, g);
      }
    }
  }

  lemma SubmittedLinked(v: View, h: nat, m: nat, l: nat, b: nat, write: bool, sector: nat, g: nat)
    requires Sized(v) && g in v.chain && g != h && Linked(v, g) && CanSubmit(v, h, m, l, b, sector) && v.taken <= v.sent <= v.taken + 2
    requires h !in v.owner && m !in v.owner && l !in v.owner
    ensures var w := Submitted(v, h, m, l, b, write, sector); Sized(w) && g in w.chain && h in w.chain && Linked(w, g) && Linked(w, h)
  {
    OldLinked(v, h, m, l, b, write, sector, g);
    NewLinked(v, h, m, l, b, write, sector);
  }

  lemma NewLinked(v: View, h: nat, m: nat, l: nat, b: nat, write: bool, sector: nat)
    requires Sized(v) && CanSubmit(v, h, m, l, b, sector) && v.taken <= v.sent
    ensures var w := Submitted(v, h, m, l, b, write, sector); Sized(w) && h in w.chain && Linked(w, h)
  {
    hide Wrapped;
  }

  lemma OldLinked(v: View, h: nat, m: nat, l: nat, b: nat, write: bool, sector: nat, g: nat)
    requires Sized(v) && g in v.chain && g != h && Linked(v, g) && CanSubmit(v, h, m, l, b, sector) && v.taken <= v.sent <= v.taken + 2
    requires h !in v.owner && m !in v.owner && l !in v.owner
    ensures var w := Submitted(v, h, m, l, b, write, sector); Sized(w) && g in w.chain && Linked(w, g)
  {
    if v.chain[g].phase == Offered {
      Near(v.chain[g].ticket, v.sent);
    }
    hide At, Wrapped;
  }

  lemma SubmittedChain(v: View, h: nat, m: nat, l: nat, b: nat, write: bool, sector: nat, g: nat)
    requires Sized(v) && g in v.chain && g != h && ChainOk(v, g) && CanSubmit(v, h, m, l, b, sector) && v.taken <= v.sent <= v.taken + 2
    requires h !in v.owner && m !in v.owner && l !in v.owner
    ensures var w := Submitted(v, h, m, l, b, write, sector); Sized(w) && g in w.chain && h in w.chain && ChainOk(w, g) && ChainOk(w, h)
  {
    hide At, Wrapped;
    SubmittedLinked(v, h, m, l, b, write, sector, g);
    hide Linked;
    LinkedBuf(v, g);
  }

  lemma SubmittedTable(v: View, h: nat, m: nat, l: nat, b: nat, write: bool, sector: nat)
    requires Sized(v) && Chains(v) && Table(v) && CanSubmit(v, h, m, l, b, sector)
    requires h !in v.chain && h !in v.owner && m !in v.owner && l !in v.owner
    ensures Sized(Submitted(v, h, m, l, b, write, sector)) && Table(Submitted(v, h, m, l, b, write, sector))
  {
    hide At, Wrapped, ChainOk, Chains, Owned, Submitted;
    var w := Submitted(v, h, m, l, b, write, sector);
    SubmittedKeys(v, h, m, l, b, write, sector);
    forall i: nat | i < RING ensures Owned(w, i) {
      OwnedAt(v, i);
      SubmittedOwned(v, h, m, l, b, write, sector, i);
    }
  }

  lemma SubmittedKeys(v: View, h: nat, m: nat, l: nat, b: nat, write: bool, sector: nat)
    requires Sized(v) && CanSubmit(v, h, m, l, b, sector) && (forall i :: i in v.owner ==> i < RING)
    requires h !in v.chain && h !in v.owner && m !in v.owner && l !in v.owner
    ensures var w := Submitted(v, h, m, l, b, write, sector);
            (Sized(w) && |w.chain| == |v.chain| + 1 && |w.owner| == |v.owner| + 3 && forall i :: i in w.owner ==> i < RING)
  {
    OwnersMore(v.owner, h, m, l);
    OneMore(v.chain, h, Chain(m, l, b, write, sector, Offered, v.sent));
  }

  lemma OwnersMore(o: map<nat, nat>, h: nat, m: nat, l: nat)
    requires h !in o && m !in o && l !in o && h != m && h != l && m != l
    ensures |o[h := h][m := h][l := h]| == |o| + 3
  {
    ThreeMore(o.Keys, h, m, l);
    assert o[h := h][m := h][l := h].Keys == o.Keys + {h, m, l};
  }

  lemma OneMore(c: map<nat, Chain>, h: nat, x: Chain)
    requires h !in c
    ensures |c[h := x]| == |c| + 1
  {
    assert c[h := x].Keys == c.Keys + {h};
  }

  lemma ThreeMore(s: set<nat>, h: nat, m: nat, l: nat)
    requires h !in s && m !in s && l !in s && h != m && h != l && m != l
    ensures |s + {h, m, l}| == |s| + 3
  {
    assert s + {h, m, l} == s + {h} + {m} + {l};
  }

  lemma SubmittedOwned(v: View, h: nat, m: nat, l: nat, b: nat, write: bool, sector: nat, i: nat)
    requires Sized(v) && i < RING && Owned(v, i) && CanSubmit(v, h, m, l, b, sector) && h !in v.chain
    ensures var w := Submitted(v, h, m, l, b, write, sector); Sized(w) && Owned(w, i)
  {
  }

  lemma SubmittedRings(v: View, h: nat, m: nat, l: nat, b: nat, write: bool, sector: nat)
    requires Sized(v) && Rings(v) && CanSubmit(v, h, m, l, b, sector) && h !in v.chain && v.sent - v.taken <= 2
    ensures Sized(Submitted(v, h, m, l, b, write, sector)) && Rings(Submitted(v, h, m, l, b, write, sector))
  {
    var w := Submitted(v, h, m, l, b, write, sector);
    Increment(v.sent);
    forall k: nat | w.taken <= k < w.sent ensures OfferedAt(w, k) {
      if k < v.sent {
        assert OfferedAt(v, k);
        Near(k, v.sent);
      }
    }
    forall k: nat | w.seen <= k < w.done ensures UsedAt(w, k) {
      assert UsedAt(v, k);
    }
  }

  lemma TakenInv(v: View)
    requires Inv(v) && v.taken < v.sent
    ensures OfferedAt(v, v.taken) && Inv(Taken(v))
  {
    hide At, Wrapped, Owned, Table, ChainOk, UsedAt, Apart, Flags;
    assert OfferedAt(v, v.taken);
    var w := Taken(v);
    SameFlags(v, w);
    forall g | g in w.chain ensures ChainOk(w, g) {
      ChainAt(v, g);
      TakenChain(v, g);
    }
    TakenRings(v);
    PhaseTable(v, w);
  }

  /** Steps that leave the flags alone, and what waits waiting. */
  lemma SameFlags(v: View, w: View)
    requires Apart(v) && Flags(v) && w.busy == v.busy && w.chain.Keys == v.chain.Keys
    requires forall h :: h in v.chain ==> w.chain[h].buf == v.chain[h].buf && (w.chain[h].phase == Seen <==> v.chain[h].phase == Seen)
    ensures Apart(w) && Flags(w)
  {
    forall b: nat | b < |w.busy| && w.busy[b] ensures exists h :: h in w.chain && w.chain[h].phase != Seen && w.chain[h].buf == b {
      var h :| h in v.chain && v.chain[h].phase != Seen && v.chain[h].buf == b;
      assert h in w.chain && w.chain[h].phase != Seen && w.chain[h].buf == b;
    }
  }

  lemma TakenChain(v: View, g: nat)
    requires Sized(v) && g in v.chain && ChainOk(v, g) && OfferedAt(v, v.taken)
    ensures Sized(Taken(v)) && ChainOk(Taken(v), g)
  {
  }

  lemma TakenRings(v: View)
    requires Sized(v) && Rings(v) && v.taken < v.sent && OfferedAt(v, v.taken)
    ensures Sized(Taken(v)) && Rings(Taken(v))
  {
    var w := Taken(v);
    forall k: nat | w.taken <= k < w.sent ensures OfferedAt(w, k) {
      assert OfferedAt(v, k);
    }
    forall k: nat | w.seen <= k < w.done ensures UsedAt(w, k) {
      assert UsedAt(v, k);
    }
  }

  lemma CompletedInv(v: View, h: nat)
    requires Inv(v) && h in v.chain && v.chain[h].phase == Held
    ensures ChainOk(v, h) && Inv(Completed(v, h))
  {
    hide At, Wrapped, Owned, Table, ChainOk, Linked, OfferedAt, UsedAt, Rings, Apart, Flags;
    FewInRings(v);
    ChainAt(v, h);
    CompletedSized(v, h);
    var w := Completed(v, h);
    SameFlags(v, w);
    forall g | g in w.chain ensures ChainOk(w, g) {
      ChainAt(v, g);
      CompletedChain(v, h, g);
    }
    CompletedRings(v, h);
    PhaseTable(v, w);
  }

  lemma CompletedSized(v: View, h: nat)
    requires Sized(v) && h in v.chain && ChainOk(v, h)
    ensures Sized(Completed(v, h)) && |Completed(v, h).blocks| == |v.blocks|
  {
  }

  /** What a submission puts where the device looks for it. */
  lemma OfferedToDevice(v: View, h: nat, m: nat, l: nat, b: nat, write: bool, sector: nat)
    requires Inv(v) && CanSubmit(v, h, m, l, b, sector)
    ensures Sized(v) && Sized(Submitted(v, h, m, l, b, write, sector))
    ensures var w := Submitted(v, h, m, l, b, write, sector);
            && w.avail == v.avail[v.availIdx % 8 := h] && w.availIdx == (v.availIdx + 1) % 0x1_0000
            && OrderAt(w, h) == Order(write, sector, b, h)
  {
    hide Chains, Table, Apart, Flags, OfferedAt, UsedAt;
    Wrap(v.sent);
  }

  /** The device's transfer is the one that was asked for, and touches nothing else. */
  lemma CompletedTransfer(v: View, h: nat)
    requires Sized(v) && h in v.chain && ChainOk(v, h)
    ensures var c, w := v.chain[h], Completed(v, h);
            && OrderAt(v, h).Order? && w.status == v.status[h := 0]
            && (if c.write then w.blocks == v.blocks[c.sector := v.data[c.buf]] && w.data == v.data
                else w.data == v.data[c.buf := v.blocks[c.sector]] && w.blocks == v.blocks)
  {
    OrderIs(v, h);
  }

  lemma CompletedChain(v: View, h: nat, g: nat)
    requires Sized(v) && h in v.chain && g in v.chain && ChainOk(v, h) && ChainOk(v, g) && v.chain[h].phase == Held
    requires v.seen <= v.done <= v.seen + 2
    ensures Sized(Completed(v, h)) && ChainOk(Completed(v, h), g)
  {
    OrderIs(v, h);
    hide OrderAt;
    if v.chain[g].phase == Used {
      Near(v.chain[g].ticket, v.done);
    }
  }

  lemma CompletedRings(v: View, h: nat)
    requires Sized(v) && Rings(v) && h in v.chain && ChainOk(v, h) && v.chain[h].phase == Held && v.done <= v.seen + 2
    ensures Sized(Completed(v, h)) && Rings(Completed(v, h))
  {
    var w := Completed(v, h);
    Increment(v.done);
    forall k: nat | w.taken <= k < w.sent ensures OfferedAt(w, k) {
      assert OfferedAt(v, k);
    }
    forall k: nat | w.seen <= k < w.done ensures UsedAt(w, k) {
      if k < v.done {
        assert UsedAt(v, k);
        Near(k, v.done);
      }
    }
  }

  lemma NoticedInv(v: View)
    requires Inv(v) && v.seen < v.done
    ensures UsedAt(v, v.seen) && ChainOk(v, v.used[At(v.seen)]) && Inv(Noticed(v))
  {
    hide At, Wrapped, Owned, Table, ChainOk, Linked, OfferedAt, Flags;
    assert UsedAt(v, v.seen);
    var h := v.used[At(v.seen)];
    ChainAt(v, h);
    NoticedSized(v);
    var w := Noticed(v);
    NoticedFlags(v, h);
    forall g | g in w.chain ensures ChainOk(w, g) {
      ChainAt(v, g);
      NoticedChain(v, g);
    }
    NoticedRings(v);
    PhaseTable(v, w);
  }

  lemma NoticedFlags(v: View, h: nat)
    requires Sized(v) && UsedAt(v, v.seen) && h == v.used[At(v.seen)] && Linked(v, h) && Flags(v)
    ensures Flags(Noticed(v))
  {
    hide At, Wrapped;
    var w := Noticed(v);
    forall b: nat | b < |w.busy| && w.busy[b] ensures exists g :: g in w.chain && w.chain[g].phase != Seen && w.chain[g].buf == b {
      assert b != v.chain[h].buf;
      var g :| g in v.chain && v.chain[g].phase != Seen && v.chain[g].buf == b;
      assert g in w.chain && w.chain[g].phase != Seen && w.chain[g].buf == b;
    }
  }

  lemma NoticedSized(v: View)
    requires Sized(v) && UsedAt(v, v.seen) && ChainOk(v, v.used[At(v.seen)])
    ensures Sized(Noticed(v))
  {
  }

  lemma NoticedChain(v: View, g: nat)
    requires Sized(v) && UsedAt(v, v.seen) && ChainOk(v, v.used[At(v.seen)]) && Apart(v) && g in v.chain && ChainOk(v, g)
    ensures Sized(Noticed(v)) && ChainOk(Noticed(v), g)
  {
  }

  lemma NoticedRings(v: View)
    requires Sized(v) && Rings(v) && v.seen < v.done && UsedAt(v, v.seen) && ChainOk(v, v.used[At(v.seen)])
    ensures Sized(Noticed(v)) && Rings(Noticed(v))
  {
    var w := Noticed(v);
    Increment(v.seen);
    forall k: nat | w.taken <= k < w.sent ensures OfferedAt(w, k) {
      assert OfferedAt(v, k);
    }
    forall k: nat | w.seen <= k < w.done ensures UsedAt(w, k) {
      assert UsedAt(v, k);
    }
  }

  lemma FreedInv(v: View, h: nat)
    requires Inv(v) && h in v.chain && v.chain[h].phase == Seen
    ensures ChainOk(v, h) && Inv(Freed(v, h))
  {
    hide At, Wrapped, Owned, Table, ChainOk, Linked, OfferedAt, UsedAt, Rings, Flags;
    ChainAt(v, h);
    FreedSized(v, h);
    var w := Freed(v, h);
    FreedFlags(v, h);
    forall g | g in w.chain ensures ChainOk(w, g) {
      ChainAt(v, g);
      FreedChain(v, h, g);
    }
    FreedTable(v, h);
    FreedRings(v, h);
  }

  lemma FreedFlags(v: View, h: nat)
    requires Sized(v) && h in v.chain && Linked(v, h) && v.chain[h].phase == Seen && Flags(v)
    ensures Flags(Freed(v, h))
  {
    hide At, Wrapped;
    var w := Freed(v, h);
    forall b: nat | b < |w.busy| && w.busy[b] ensures exists g :: g in w.chain && w.chain[g].phase != Seen && w.chain[g].buf == b {
      var g :| g in v.chain && v.chain[g].phase != Seen && v.chain[g].buf == b;
      assert g in w.chain && w.chain[g].phase != Seen && w.chain[g].buf == b;
    }
  }

  lemma FreedSized(v: View, h: nat)
    requires Sized(v) && h in v.chain && ChainOk(v, h)
    ensures Sized(Freed(v, h))
  {
  }

  lemma FreedChain(v: View, h: nat, g: nat)
    requires Sized(v) && h in v.chain && g in v.chain && ChainOk(v, h) && ChainOk(v, g) && g != h
    ensures Sized(Freed(v, h)) && g in Freed(v, h).chain && ChainOk(Freed(v, h), g)
  {
  }

  lemma FreedRings(v: View, h: nat)
    requires Sized(v) && Rings(v) && h in v.chain && ChainOk(v, h) && v.chain[h].phase == Seen
    ensures Sized(Freed(v, h)) && Rings(Freed(v, h))
  {
    var w := Freed(v, h);
    forall k: nat | w.taken <= k < w.sent ensures OfferedAt(w, k) {
      assert OfferedAt(v, k);
    }
    forall k: nat | w.seen <= k < w.done ensures UsedAt(w, k) {
      assert UsedAt(v, k);
    }
  }

  lemma FreedTable(v: View, h: nat)
    requires Sized(v) && Table(v) && h in v.chain && ChainOk(v, h)
    ensures Sized(Freed(v, h)) && Table(Freed(v, h))
  {
    hide At, Wrapped, Owned;
    var c, w := v.chain[h], Freed(v, h);
    FreedSized(v, h);
    forall i: nat | i < RING ensures Owned(w, i) {
      OwnedAt(v, i);
      FreedOwned(v, h, i);
    }
    OwnersFewer(v.owner, h, c.mid, c.last);
    OneFewer(v.chain, h);
  }

  lemma OwnersFewer(o: map<nat, nat>, h: nat, m: nat, l: nat)
    requires h in o && m in o && l in o && h != m && h != l && m != l
    ensures |o - {h, m, l}| == |o| - 3
  {
    var n := o - {h, m, l};
    ThreeMore(n.Keys, h, m, l);
    assert o.Keys == n.Keys + {h, m, l};
  }

  lemma OneFewer(c: map<nat, Chain>, h: nat)
    requires h in c
    ensures |c - {h}| == |c| - 1
  {
    assert c.Keys == (c - {h}).Keys + {h};
  }

  lemma FreedOwned(v: View, h: nat, i: nat)
    requires Sized(v) && h in v.chain && ChainOk(v, h) && i < RING && Owned(v, i)
    ensures Sized(Freed(v, h)) && Owned(Freed(v, h), i)
  {
  }

  /** Steps that only move a request on leave descriptors and their owners alone. */
  lemma PhaseTable(v: View, w: View)
    requires Sized(v) && Sized(w) && Table(v) && w.desc == v.desc && w.free == v.free && w.owner == v.owner
    requires w.chain.Keys == v.chain.Keys && forall h :: h in v.chain ==> w.chain[h].mid == v.chain[h].mid && w.chain[h].last == v.chain[h].last
    ensures Table(w)
  {
    forall i: nat | i < RING ensures Owned(w, i) {
      OwnedAt(v, i);
    }
    assert |w.chain| == |w.chain.Keys| == |v.chain|;
  }

  // ----- the driver's code ------------------------------------------------------------------

  class Disk {
    var desc: seq<Desc>
    var free: seq<bool>
    var avail: seq<nat>
    var availIdx: nat
    var used: seq<nat>
    var usedIdx: nat
    var usedIndex: nat
    var buf: seq<int>
    var status: seq<nat>
    var ops: seq<Op>
    var busy: seq<bool>
    var data: seq<Block>
    var blocks: seq<Block>
    ghost var chain: map<nat, Chain>
    ghost var owner: map<nat, nat>
    ghost var sent: nat
    ghost var taken: nat
    ghost var done: nat
    ghost var seen: nat

    ghost function V(): View
      reads this
    {
      View(desc, free, avail, availIdx, used, usedIdx, usedIndex, buf, status, ops, busy, data, blocks, chain, owner, sent, taken, done, seen)
    }

    ghost predicate Valid()
      reads this
    {
      Inv(V())
    }

    /** virtioDiskInit's queue: every descriptor free and zero. */
    constructor (data: seq<Block>, blocks: seq<Block>)
      ensures Valid() && chain == map[] && this.data == data && this.blocks == blocks
    {
      this.data, this.blocks := data, blocks;
      desc, free, avail := seq(RING, _ => Desc(Null, 0, 0, 0)), seq(RING, _ => true), seq(RING, _ => 0);
      used, buf, status := seq(RING, _ => 0), seq(RING, _ => -1), seq(RING, _ => 0);
      ops, busy := seq(RING, _ => Op(0, 0)), seq(|data|, _ => false);
      availIdx, usedIdx, usedIndex := 0, 0, 0;
      chain, owner, sent, taken, done, seen := map[], map[], 0, 0, 0, 0;
      new;
      hide Inv, Sized;
      InitInv(V());
    }

    /** allocDesc: the first free descriptor, or -1. */
    method AllocDesc() returns (d: int)
      requires |free| == RING
      modifies this`free
      ensures |free| == RING
      ensures d == -1 ==> free == old(free) && forall k :: 0 <= k < RING ==> !free[k]
      ensures d != -1 ==> 0 <= d < RING && old(free)[d] && free == old(free)[d := false]
    {
      var i := 0;
      while i < RING
        invariant 0 <= i <= RING && free == old(free) && forall k :: 0 <= k < i ==> !free[k]
      {
        if free[i] {
          free := free[i := false];
          return i;
        }
        i := i + 1;
      }
      return -1;
    }

    /** freeDesc; neither of its panics happens. */
    method FreeDesc(i: nat)
      requires |free| == |desc| == RING && i < RING && !free[i]
      modifies this`free, this`desc
      ensures free == old(free)[i := true] && desc == old(desc)[i := Desc(Null, 0, 0, 0)]
    {
      desc := desc[i := Desc(Null, 0, 0, 0)];
      free := free[i := true];
    }

    /** freeDescChain: follow the next links and free each descriptor. */
    method FreeDescChain(h: nat, ghost m: nat, ghost l: nat)
      requires |free| == |desc| == RING && h < RING && m < RING && l < RING && h != m && h != l && m != l
      requires !free[h] && !free[m] && !free[l] && desc[h].next == m && desc[m].next == l
      requires desc[h].flags % 2 == NEXT && desc[m].flags % 2 == NEXT && desc[l].flags % 2 != NEXT
      modifies this`free, this`desc
      ensures desc == old(desc)[h := Desc(Null, 0, 0, 0)][m := Desc(Null, 0, 0, 0)][l := Desc(Null, 0, 0, 0)]
      ensures free == old(free)[h := true][m := true][l := true]
    {
      var i := h;
      ghost var n := 0;
      while true
        invariant 0 <= n <= 2 && i == (if n == 0 then h else if n == 1 then m else l) && |free| == |desc| == RING
        invariant desc == if n == 0 then old(desc) else if n == 1 then old(desc)[h := Desc(Null, 0, 0, 0)]
                          else old(desc)[h := Desc(Null, 0, 0, 0)][m := Desc(Null, 0, 0, 0)]
        invariant free == if n == 0 then old(free) else if n == 1 then old(free)[h := true] else old(free)[h := true][m := true]
        decreases 2 - n
      {
        var flag, nxt := desc[i].flags, desc[i].next;
        FreeDesc(i);
        if flag % 2 == NEXT {
          i, n := nxt, n + 1;
        } else {
          break;
        }
      }
    }

    /** The clean-up of alloc3Desc. */
    method GiveBack(idx: seq<nat>, ghost was: View)
      requires Sized(was) && desc == was.desc && Claimed(was.free, free, idx)
      requires forall k :: 0 <= k < |idx| ==> idx[k] < RING && was.desc[idx[k]] == Desc(Null, 0, 0, 0)
      modifies this`free, this`desc
      ensures desc == was.desc && free == was.free
    {
      var j := 0;
      while j < |idx|
        invariant 0 <= j <= |idx| && desc == was.desc && Claimed(was.free, free, idx[j..])
      {
        assert idx[j..][0] == idx[j] && idx[j..][1..] == idx[j + 1..];
        Unclaim(was.free, free, idx[j..]);
        FreeDesc(idx[j]);
        j := j + 1;
      }
      assert idx[j..] == [];
    }

    /** alloc3Desc: three free descriptors, or none taken at all. */
    method Alloc3Desc() returns (ok: bool, idx: seq<nat>)
      requires Valid()
      modifies this`free, this`desc
      ensures ok <==> |chain| <= 1
      ensures !ok ==> V() == old(V())
      ensures ok ==> |idx| == 3 && desc == old(desc) && Claimed(old(free), free, idx)
    {
      hide At, Wrapped, Inv, Claimed, Chains, Table, Rings, ChainOk, Sized;
      ghost var was := V();
      SizedInv(was);
      Lengths(was);
      FreeCount(was);
      idx := [];
      NoneClaimed(free);
      var i := 0;
      while i < 3
        invariant 0 <= i <= 3 && |idx| == i && |free| == RING && desc == old(desc) && Claimed(was.free, free, idx)
      {
        ghost var before := free;
        var d := AllocDesc();
        if d < 0 {
          AllClaimed(was, free, idx);
          GiveBack(idx, was);
          return false, idx;
        }
        ClaimOne(was.free, before, idx, d);
        idx := idx + [d];
        i := i + 1;
      }
      ThreeClaimed(was, free, idx);
      ok := true;
    }

    /**
     virtioDiskRW up to its wait: false when it has to sleep for descriptors first. The caller is not
     asked whether its buffer already waits for a transfer; if it does, the invariant is gone.
     */
    method Submit(b: nat, write: bool, sector: nat) returns (ok: bool, h: nat)
      requires Valid() && b < |busy| && sector < |blocks|
      modifies this
      ensures (ok <==> |old(chain)| <= 1) && (!ok ==> V() == old(V()))
      ensures Valid() <==> !(ok && old(busy)[b])
      ensures ok ==> avail == old(avail)[old(availIdx) % 8 := h] && availIdx == (old(availIdx) + 1) % 0x1_0000
      ensures ok ==> Sized(V()) && OrderAt(V(), h) == Order(write, sector, b, h)
      ensures ok ==> h !in old(chain) && h in chain && chain.Keys == old(chain).Keys + {h} && chain[h].buf == b && chain[h].write == write
                     && chain[h].sector == sector && chain[h].phase == Offered && CanSubmit(old(V()), h, chain[h].mid, chain[h].last, b, sector)
                     && V() == Submitted(old(V()), h, chain[h].mid, chain[h].last, b, write, sector)
    {
      hide At, Wrapped, Inv, Claimed, Submitted, Chains, Table, Rings, ChainOk, Sized, CanSubmit, Sent, OrderAt;
      ghost var was := V();
      SizedInv(was);
      Lengths(was);
      var idx;
      ok, idx := Alloc3Desc();
      h := 0;
      if !ok {
        return;
      }
      ClaimedThree(was, free, idx);
      MaySubmit(was, idx[0], idx[1], idx[2], b, sector);
      SubmittedInvIff(was, idx[0], idx[1], idx[2], b, write, sector);
      SubmittedIsNew(was, idx[0], idx[1], idx[2]);
      h := idx[0];
      ghost var a := V();
      Send(h, idx[1], idx[2], b, write, sector);
      SubmittedIs(was, a, V(), h, idx[1], idx[2], b, write, sector);
      OfferedToDevice(was, h, idx[1], idx[2], b, write, sector);
    }

    /** virtioDiskRW between allocation and wait. */
    method Send(h: nat, m: nat, l: nat, b: nat, write: bool, sector: nat)
      requires |desc| == |ops| == |buf| == |status| == |avail| == RING && h < RING && m < RING && l < RING && b < |busy|
      requires availIdx == Wrapped(sent)
      modifies this
      ensures Sent(old(V()), V(), h, m, l, b, write, sector)
    {
      hide At, Wrapped;
      FillAndPublish(h, m, l, b, write, sector);
    }

    method FillAndPublish(h: nat, m: nat, l: nat, b: nat, write: bool, sector: nat)
      requires |desc| == |ops| == |buf| == |status| == |avail| == RING && h < RING && m < RING && l < RING && b < |busy|
      requires availIdx == Wrapped(sent)
      modifies this`ops, this`desc, this`status, this`busy, this`buf, this`avail, this`availIdx, this`chain, this`owner, this`sent
      ensures desc == old(desc)[h := Desc(Req(h), 16, NEXT, m)]
                               [m := Desc(Data(b), 512, (if write then 0 else WRITE) + NEXT, l)]
                               [l := Desc(Status(h), 1, WRITE, 0)]
      ensures ops == old(ops)[h := Op(Kind(write), sector)] && buf == old(buf)[h := b] && status == old(status)[h := 0] && busy == old(busy)[b := true]
      ensures avail == old(avail)[At(old(sent)) := h] && availIdx == Wrapped(old(availIdx) + 1) && sent == old(sent) + 1
      ensures chain == old(chain)[h := Chain(m, l, b, write, sector, Offered, old(sent))] && owner == old(owner)[h := h][m := h][l := h]
    {
      hide At, Wrapped;
      Fill(h, m, l, b, write, sector);
      Publish(h, Chain(m, l, b, write, sector, Offered, sent));
    }

    /** virtioDiskRW: the three descriptors, the request and its record. */
    method Fill(h: nat, m: nat, l: nat, b: nat, write: bool, sector: nat)
      requires |desc| == |ops| == |buf| == |status| == RING && h < RING && m < RING && l < RING && b < |busy|
      modifies this`ops, this`desc, this`status, this`busy, this`buf
      ensures desc == old(desc)[h := Desc(Req(h), 16, NEXT, m)]
                               [m := Desc(Data(b), 512, (if write then 0 else WRITE) + NEXT, l)]
                               [l := Desc(Status(h), 1, WRITE, 0)]
      ensures ops == old(ops)[h := Op(Kind(write), sector)] && buf == old(buf)[h := b] && status == old(status)[h := 0] && busy == old(busy)[b := true]
    {
      ops := ops[h := Op(Kind(write), sector)];
      desc := desc[h := Desc(Req(h), 16, NEXT, m)];
      desc := desc[m := Desc(Data(b), 512, (if write then 0 else WRITE) + NEXT, l)];
      status := status[h := 0];
      desc := desc[l := Desc(Status(h), 1, WRITE, 0)];
      busy := busy[b := true];
      buf := buf[h := b];
    }

    /** virtioDiskRW: offer the chain to the device. */
    method Publish(h: nat, ghost c: Chain)
      requires |avail| == RING && availIdx == Wrapped(sent)
      modifies this`avail, this`availIdx, this`chain, this`owner, this`sent
      ensures avail == old(avail)[At(old(sent)) := h] && availIdx == Wrapped(old(availIdx) + 1) && sent == old(sent) + 1
      ensures chain == old(chain)[h := c] && owner == old(owner)[h := h][c.mid := h][c.last := h]
    {
      Wrap(sent);
      hide At, Wrapped;
      avail := avail[At(availIdx) := h];
      availIdx := Wrapped(availIdx + 1);
      chain := chain[h := c];
      owner := owner[h := h][c.mid := h][c.last := h];
      sent := sent + 1;
    }

    /** The rest of virtioDiskRW, once the flag of its buffer is clear. */
    method Finish(h: nat)
      requires Valid() && h in chain && chain[h].buf < |busy| && !busy[chain[h].buf]
      modifies this
      ensures old(chain)[h].phase == Seen
      ensures Valid() && ChainOk(old(V()), h) && V() == Freed(old(V()), h)
      ensures chain == old(chain) - {h} && |desc| == 8 && |free| == 8 && avail == old(avail) && availIdx == old(availIdx)
      ensures forall i :: 0 <= i < 8 ==>
                if i in [h, old(chain)[h].mid, old(chain)[h].last] then free[i] && !old(free)[i] && desc[i] == Desc(Null, 0, 0, 0)
                else free[i] == old(free)[i] && desc[i] == old(desc)[i]
    {
      hide At, Wrapped, Inv, ChainOk, Chains, Table, Rings, Freed, Sized;
      ghost var v := V();
      SizedInv(v);
      SeenWhenClear(v, h);
      FreedInv(v, h);
      ChainFacts(v, h);
      Lengths(v);
      ghost var c := chain[h];
      Release(h, c);
      FreedIs(v, V(), h);
      GivenBack(v.free, v.desc, free, desc, h, c.mid, c.last);
    }

    /** The last lines of virtioDiskRW: forget the buffer, free the chain. */
    method Release(h: nat, ghost c: Chain)
      requires |buf| == |free| == |desc| == RING && h < RING && c.mid < RING && c.last < RING && h != c.mid && h != c.last && c.mid != c.last
      requires !free[h] && !free[c.mid] && !free[c.last] && desc[h].next == c.mid && desc[c.mid].next == c.last
      requires desc[h].flags % 2 == NEXT && desc[c.mid].flags % 2 == NEXT && desc[c.last].flags % 2 != NEXT
      modifies this`buf, this`free, this`desc, this`chain, this`owner
      ensures desc == old(desc)[h := Desc(Null, 0, 0, 0)][c.mid := Desc(Null, 0, 0, 0)][c.last := Desc(Null, 0, 0, 0)]
      ensures free == old(free)[h := true][c.mid := true][c.last := true] && buf == old(buf)[h := -1]
      ensures chain == old(chain) - {h} && owner == old(owner) - {h, c.mid, c.last}
    {
      buf := buf[h := -1];
      FreeDescChain(h, c.mid, c.last);
      chain := chain - {h};
      owner := owner - {h, c.mid, c.last};
    }

    /** One turn of the interrupt handler's loop. */
    method NoticeOne()
      requires Valid() && seen < done
      modifies this
      ensures Valid() && UsedAt(old(V()), old(seen)) && ChainOk(old(V()), old(used)[At(old(seen))]) && V() == Noticed(old(V()))
      ensures usedIndex == (old(usedIndex) + 1) % 0x1_0000 && |used| == 8
      ensures var id := old(used)[old(usedIndex) % 8];
              id in old(chain) && old(chain)[id].buf < |old(busy)| && busy == old(busy)[old(chain)[id].buf := false]
    {
      hide At, Wrapped, Inv, ChainOk, Chains, Table, Rings, Noticed, UsedAt, Sized;
      ghost var v := V();
      SizedInv(v);
      NoticedInv(v);
      NoticedFacts(v);
      Lengths(v);
      AtIs(usedIndex);
      AtIs(usedIndex + 1);
      Notice();
      NoticedIs(v, V(), v.used[At(v.seen)]);
    }

    method Notice()
      requires |used| == |buf| == RING && used[At(usedIndex)] < RING && 0 <= buf[used[At(usedIndex)]] < |busy| && used[At(usedIndex)] in chain
      modifies this`busy, this`usedIndex, this`chain, this`seen
      ensures var id := old(used)[At(old(usedIndex))];
              (busy == old(busy)[old(buf)[id] := false] && chain == old(chain)[id := old(chain)[id].(phase := Seen)])
      ensures usedIndex == Wrapped(old(usedIndex) + 1) && seen == old(seen) + 1
    {
      hide At, Wrapped;
      var id := used[At(usedIndex)];
      busy := busy[buf[id] := false];
      usedIndex := Wrapped(usedIndex + 1);
      chain := chain[id := chain[id].(phase := Seen)];
      seen := seen + 1;
    }

    /** virtioDiskIntrupt: every completion so far is noticed, each with status 0. */
    method Interrupt()
      requires Valid()
      modifies this
      ensures Valid() && seen == done == old(done) && chain.Keys == old(chain).Keys
      ensures forall h :: h in chain ==>
                chain[h] == if old(chain)[h].phase == Used then old(chain)[h].(phase := Seen) else old(chain)[h]
      ensures data == old(data) && blocks == old(blocks) && |busy| == |old(busy)|
      ensures forall b: nat :: b < |busy| ==> (busy[b] <==> exists h :: h in chain && chain[h].phase != Seen && chain[h].buf == b)
    {
      hide At, Wrapped, Inv, Noticed, ChainOk, UsedAt;
      ghost var v := V();
      ModuloTest(v);
      Ordered(v);
      while At(usedIndex) != At(usedIdx)
        invariant Valid() && (At(usedIndex) != At(usedIdx) <==> seen != done)
        invariant seen <= done == v.done && data == v.data && blocks == v.blocks && |busy| == |v.busy|
        invariant NoticedUpTo(v.chain, chain, seen)
        decreases done - seen
      {
        ghost var w := V();
        NoticeOne();
        NoticedMore(v.chain, w);
        ModuloTest(V());
      }
      AllNoticed(V());
      Ordered(v);
      BusyIff(V());
    }
  }

  lemma GivenBack(free: seq<bool>, desc: seq<Desc>, free': seq<bool>, desc': seq<Desc>, h: nat, m: nat, l: nat)
    requires |free| == |desc| == RING && h < RING && m < RING && l < RING && h != m && h != l && m != l && !free[h] && !free[m] && !free[l]
    requires free' == free[h := true][m := true][l := true]
    requires desc' == desc[h := Desc(Null, 0, 0, 0)][m := Desc(Null, 0, 0, 0)][l := Desc(Null, 0, 0, 0)]
    ensures |free'| == |desc'| == 8
    ensures forall i :: 0 <= i < 8 ==>
              if i in [h, m, l] then free'[i] && !free[i] && desc'[i] == Desc(Null, 0, 0, 0) else free'[i] == free[i] && desc'[i] == desc[i]
  {
  }

  lemma AtIs(k: nat)
    ensures At(k) == k % 8 && Wrapped(k) == k % 0x1_0000
  {
  }

  /** The flag of a buffer is set exactly while a request for it has not been noticed. */
  lemma BusyIff(v: View)
    requires Inv(v)
    ensures forall b: nat :: b < |v.busy| ==> (v.busy[b] <==> exists h :: h in v.chain && v.chain[h].phase != Seen && v.chain[h].buf == b)
  {
    hide Table, Rings;
    forall h | h in v.chain && v.chain[h].phase != Seen ensures v.chain[h].buf < |v.busy| && v.busy[v.chain[h].buf] {
      assert ChainOk(v, h);
    }
  }

  /** Requests returned with a ticket below t have been noticed; the others are as they were. */
  ghost predicate NoticedUpTo(was: map<nat, Chain>, now: map<nat, Chain>, t: nat) {
    && now.Keys == was.Keys
    && forall h :: h in was ==> now[h] == if was[h].phase == Used && was[h].ticket < t then was[h].(phase := Seen) else was[h]
  }

  lemma NoticedMore(was: map<nat, Chain>, w: View)
    requires Inv(w) && w.seen < w.done && UsedAt(w, w.seen) && ChainOk(w, w.used[At(w.seen)]) && NoticedUpTo(was, w.chain, w.seen)
    ensures NoticedUpTo(was, Noticed(w).chain, w.seen + 1) && Noticed(w).seen == w.seen + 1 && Noticed(w).done == w.done
    ensures Noticed(w).data == w.data && Noticed(w).blocks == w.blocks && |Noticed(w).busy| == |w.busy|
    ensures Noticed(w).usedIdx == w.usedIdx
  {
    hide At, Wrapped, Inv;
    NoticedFacts(w);
    SeenFacts(w);
  }

  /** The device's side, the counters and the buffers' contents are the same. */
  ghost predicate SameDevice(v: View, w: View) {
    && w.used == v.used && w.usedIdx == v.usedIdx && w.data == v.data && w.blocks == v.blocks
    && w.taken == v.taken && w.done == v.done
  }

  ghost predicate Sent(v: View, w: View, h: nat, m: nat, l: nat, b: nat, write: bool, sector: nat) {
    && |v.desc| == |v.ops| == |v.buf| == |v.status| == |v.avail| == RING && h < RING && m < RING && l < RING && b < |v.busy|
    && w.desc == v.desc[h := Desc(Req(h), 16, NEXT, m)]
                       [m := Desc(Data(b), 512, (if write then 0 else WRITE) + NEXT, l)]
                       [l := Desc(Status(h), 1, WRITE, 0)]
    && w.ops == v.ops[h := Op(Kind(write), sector)] && w.buf == v.buf[h := b] && w.status == v.status[h := 0] && w.busy == v.busy[b := true]
    && w.avail == v.avail[At(v.sent) := h] && w.availIdx == Wrapped(v.availIdx + 1) && w.sent == v.sent + 1
    && w.chain == v.chain[h := Chain(m, l, b, write, sector, Offered, v.sent)] && w.owner == v.owner[h := h][m := h][l := h]
    && SameDevice(v, w) && w.free == v.free && w.usedIndex == v.usedIndex && w.seen == v.seen
  }

  lemma SubmittedIs(v: View, a: View, w: View, h: nat, m: nat, l: nat, b: nat, write: bool, sector: nat)
    requires Sized(v) && h < RING && m < RING && l < RING && b < |v.busy|
    requires a == v.(free := v.free[h := false][m := false][l := false]) && Sent(a, w, h, m, l, b, write, sector)
    ensures w == Submitted(v, h, m, l, b, write, sector) && h in w.chain && w.chain[h] == Chain(m, l, b, write, sector, Offered, v.sent)
    ensures w.chain.Keys == v.chain.Keys + {h}
  {
    hide At, Wrapped;
  }

  lemma InitInv(v: View)
    requires |v.desc| == |v.free| == |v.avail| == |v.used| == |v.buf| == |v.status| == |v.ops| == RING && |v.busy| == |v.data|
    requires forall i :: 0 <= i < RING ==> v.free[i] && v.desc[i] == Desc(Null, 0, 0, 0)
    requires v.chain == map[] && v.owner == map[] && (forall b :: 0 <= b < |v.busy| ==> !v.busy[b]) && v.sent == v.taken == v.done == v.seen == 0 == v.availIdx == v.usedIdx == v.usedIndex
    ensures Inv(v)
  {
    forall i: nat | i < RING ensures Sized(v) && Owned(v, i) {
    }
  }

  lemma MaySubmit(v: View, h: nat, m: nat, l: nat, b: nat, sector: nat)
    requires Sized(v) && h < RING && m < RING && l < RING && h != m && h != l && m != l && v.free[h] && v.free[m] && v.free[l]
    requires b < |v.busy| && sector < |v.blocks|
    ensures CanSubmit(v, h, m, l, b, sector)
  {
  }

  lemma Lengths(v: View)
    requires Sized(v)
    ensures |v.desc| == |v.free| == |v.avail| == |v.used| == |v.buf| == |v.status| == |v.ops| == RING
  {
  }

  lemma FreedIs(v: View, w: View, h: nat)
    requires Sized(v) && h in v.chain && ChainOk(v, h)
    requires w.desc == v.desc[h := Desc(Null, 0, 0, 0)][v.chain[h].mid := Desc(Null, 0, 0, 0)][v.chain[h].last := Desc(Null, 0, 0, 0)]
    requires w.free == v.free[h := true][v.chain[h].mid := true][v.chain[h].last := true] && w.buf == v.buf[h := -1]
    requires w.chain == v.chain - {h} && w.owner == v.owner - {h, v.chain[h].mid, v.chain[h].last}
    requires SameDevice(v, w) && w.avail == v.avail && w.availIdx == v.availIdx && w.usedIndex == v.usedIndex && w.status == v.status
    requires w.ops == v.ops && w.busy == v.busy && w.sent == v.sent && w.seen == v.seen
    ensures w == Freed(v, h)
  {
  }

  lemma ChainFacts(v: View, h: nat)
    requires Sized(v) && h in v.chain && ChainOk(v, h)
    ensures var c := v.chain[h];
            (h < RING && c.mid < RING && c.last < RING && h != c.mid && h != c.last && c.mid != c.last
            && !v.free[h] && !v.free[c.mid] && !v.free[c.last] && v.desc[h].next == c.mid && v.desc[c.mid].next == c.last
            && v.desc[h].flags % 2 == NEXT && v.desc[c.mid].flags % 2 == NEXT && v.desc[c.last].flags % 2 != NEXT)
  {
  }

  lemma NoticedIs(v: View, w: View, id: nat)
    requires Sized(v) && UsedAt(v, v.seen) && ChainOk(v, v.used[At(v.seen)]) && id == v.used[At(v.seen)]
    requires w.busy == v.busy[v.buf[id] := false] && w.chain == v.chain[id := v.chain[id].(phase := Seen)]
    requires w.usedIndex == Wrapped(v.usedIndex + 1) && w.seen == v.seen + 1
    requires SameDevice(v, w) && w.avail == v.avail && w.availIdx == v.availIdx && w.status == v.status && w.desc == v.desc && w.free == v.free
    requires w.ops == v.ops && w.buf == v.buf && w.owner == v.owner && w.sent == v.sent
    ensures w == Noticed(v)
  {
  }

  lemma SizedInv(v: View)
    requires Inv(v)
    ensures Sized(v) && Chains(v) && Table(v) && Rings(v) && v.availIdx == Wrapped(v.sent)
  {
  }

  lemma Ordered(v: View)
    requires Inv(v)
    ensures v.seen <= v.done && forall h :: h in v.chain && v.chain[h].phase == Used ==> v.seen <= v.chain[h].ticket < v.done
  {
    forall h | h in v.chain && v.chain[h].phase == Used ensures v.seen <= v.chain[h].ticket < v.done {
      ChainAt(v, h);
    }
  }

  /** free became `now` by taking the descriptors of idx. */
  ghost predicate Claimed(was: seq<bool>, now: seq<bool>, idx: seq<nat>) {
    && |was| == |now| == RING
    && (forall k :: 0 <= k < |idx| ==> idx[k] < RING && was[idx[k]] && !now[idx[k]])
    && (forall k, l :: 0 <= k < l < |idx| ==> idx[k] != idx[l])
    && forall i: nat :: i < RING && i !in idx ==> now[i] == was[i]
  }

  lemma NoneClaimed(free: seq<bool>)
    requires |free| == RING
    ensures Claimed(free, free, [])
  {
  }

  lemma ClaimOne(was: seq<bool>, now: seq<bool>, idx: seq<nat>, d: nat)
    requires Claimed(was, now, idx) && d < RING && now[d]
    ensures Claimed(was, now[d := false], idx + [d])
  {
    var t := idx + [d];
    assert t[|idx|] == d && forall k :: 0 <= k < |idx| ==> t[k] == idx[k];
    assert forall i: nat :: i !in t ==> i !in idx;
    assert d in t;
  }

  lemma Unclaim(was: seq<bool>, now: seq<bool>, idx: seq<nat>)
    requires Claimed(was, now, idx) && idx != []
    ensures idx[0] < RING && !now[idx[0]] && Claimed(was, now[idx[0] := true], idx[1..])
  {
    var t := idx[1..];
    forall i: nat | i < RING && i !in t ensures now[idx[0] := true][i] == was[i] {
      if i != idx[0] {
        assert i !in idx;
      }
    }
  }

  /** Nothing is left: the descriptors claimed are all that were free, and they were blank. */
  lemma AllClaimed(v: View, now: seq<bool>, idx: seq<nat>)
    requires Sized(v) && Table(v) && Claimed(v.free, now, idx) && |idx| < 3 && forall k :: 0 <= k < RING ==> !now[k]
    requires |set i: nat | i < RING && v.free[i]| == RING - 3 * |v.chain|
    ensures |v.chain| > 1
    ensures forall k :: 0 <= k < |idx| ==> idx[k] < RING && v.desc[idx[k]] == Desc(Null, 0, 0, 0)
  {
    var f := set i: nat | i < RING && v.free[i];
    forall i | i in f ensures i in idx {
      assert !now[i];
    }
    ListSize(f, idx);
    forall k | 0 <= k < |idx| ensures v.desc[idx[k]] == Desc(Null, 0, 0, 0) {
      OwnedAt(v, idx[k]);
    }
  }

  lemma {:induction false} ListSize(s: set<nat>, t: seq<nat>)
    requires forall i :: i in s ==> i in t
    ensures |s| <= |t|
  {
    if t == [] {
      assert s == {};
    } else {
      forall i | i in s - {t[0]} ensures i in t[1..] {
        assert i in t;
      }
      ListSize(s - {t[0]}, t[1..]);
    }
  }

  lemma ThreeClaimed(v: View, now: seq<bool>, idx: seq<nat>)
    requires Sized(v) && Claimed(v.free, now, idx) && |idx| == 3
    requires |set i: nat | i < RING && v.free[i]| == RING - 3 * |v.chain|
    ensures |v.chain| <= 1
  {
    var f := set i: nat | i < RING && v.free[i];
    ThreeIn(f, idx[0], idx[1], idx[2]);
  }

  lemma ThreeIn(s: set<nat>, a: nat, b: nat, c: nat)
    requires a in s && b in s && c in s && a != b && a != c && b != c
    ensures |s| >= 3
  {
    var t := s - {a, b, c};
    ThreeMore(t, a, b, c);
    assert s == t + {a, b, c};
  }

  lemma ClaimedThree(v: View, now: seq<bool>, idx: seq<nat>)
    requires Sized(v) && Claimed(v.free, now, idx) && |idx| == 3
    ensures idx[0] < RING && idx[1] < RING && idx[2] < RING && idx[0] != idx[1] && idx[0] != idx[2] && idx[1] != idx[2]
    ensures v.free[idx[0]] && v.free[idx[1]] && v.free[idx[2]] && now == v.free[idx[0] := false][idx[1] := false][idx[2] := false]
  {
    assert idx == [idx[0], idx[1], idx[2]];
  }

  /** A clear flag means that the waiting thread's own request is done. */
  lemma SeenWhenClear(v: View, h: nat)
    requires Inv(v) && h in v.chain && v.chain[h].buf < |v.busy| && !v.busy[v.chain[h].buf]
    ensures v.chain[h].phase == Seen
  {
    ChainAt(v, h);
  }

  lemma NoticedFacts(v: View)
    requires Inv(v) && v.seen < v.done
    ensures var h := v.used[At(v.seen)];
            (h in v.chain && h < |v.buf| && v.buf[h] == v.chain[h].buf < |v.busy| && v.status[h] == 0
            && v.chain[h].phase == Used && v.chain[h].ticket == v.seen && At(v.usedIndex) == At(v.seen) && v.usedIndex == Wrapped(v.seen))
  {
    assert UsedAt(v, v.seen);
    ChainAt(v, v.used[At(v.seen)]);
    Wrap(v.seen);
  }

  /** Tickets of returned requests are distinct. */
  lemma SeenFacts(v: View)
    requires Inv(v) && v.seen < v.done
    ensures forall h :: h in v.chain && v.chain[h].phase == Used && v.chain[h].ticket == v.seen ==> h == v.used[At(v.seen)]
  {
    forall h | h in v.chain && v.chain[h].phase == Used && v.chain[h].ticket == v.seen ensures h == v.used[At(v.seen)] {
      ChainAt(v, h);
    }
  }

  lemma AllNoticed(v: View)
    requires Inv(v) && v.seen == v.done
    ensures forall h :: h in v.chain ==> v.chain[h].phase != Used
  {
    forall h | h in v.chain ensures v.chain[h].phase != Used {
      ChainAt(v, h);
    }
  }

  /** Three descriptors are free exactly while fewer than two requests are outstanding. */
  lemma FreeCount(v: View)
    requires Inv(v)
    ensures |set i: nat | i < RING && v.free[i]| == RING - 3 * |v.chain|
  {
    hide At, Wrapped, ChainOk, Chains, Rings, Apart;
    AtMostTwo(v);
    var f := set i: nat | i < RING && v.free[i];
    forall i: nat | i < RING ensures i in f <==> i !in v.owner {
      OwnedAt(v, i);
    }
    UpTo(f, v.owner.Keys, RING);
  }

  lemma {:induction false} UpTo(s: set<nat>, t: set<nat>, n: nat)
    requires forall i: nat :: (i < n <==> i in s || i in t) && !(i in s && i in t)
    ensures |s| + |t| == n
  {
    if n == 0 {
      assert s == {} && t == {};
    } else {
      UpTo(s - {n - 1}, t - {n - 1}, n - 1);
    }
  }

  // ----- every interleaving -----------------------------------------------------------------

  /** The moves of threads, of the interrupt handler and of the device. */
  datatype Move =
    | Submit(h: nat, m: nat, l: nat, b: nat, write: bool, sector: nat)
    | Take
    | Complete(h: nat)
    | Notice
    | Free(h: nat)

  /** A thread submits whatever buffer it holds, and frees its chain when it finds its buffer's flag clear. */
  ghost predicate Can(v: View, e: Move) {
    && Sized(v)
    && match e {
      case Submit(h, m, l, b, _, sector) => CanSubmit(v, h, m, l, b, sector)
      case Take => v.taken < v.sent && OfferedAt(v, v.taken)
      case Complete(h) => h in v.chain && Linked(v, h) && v.chain[h].phase == Held
      case Notice => v.seen < v.done && UsedAt(v, v.seen) && Linked(v, v.used[At(v.seen)])
      case Free(h) => h in v.chain && Linked(v, h) && !v.busy[v.chain[h].buf]
    }
  }

  ghost function After(v: View, e: Move): View
    requires Can(v, e)
  {
    match e {
      case Submit(h, m, l, b, write, sector) => Submitted(v, h, m, l, b, write, sector)
      case Take => Taken(v)
      case Complete(h) => Completed(v, h)
      case Notice => Noticed(v)
      case Free(h) => Freed(v, h)
    }
  }

  /** A transfer of a buffer whose flag is set: another transfer of it has not been noticed yet. */
  ghost predicate Shares(v: View, e: Move) {
    e.Submit? && e.b < |v.busy| && v.busy[e.b]
  }

  /** A chain is freed that the device has still to read, or is reading. */
  ghost predicate Early(v: View, e: Move) {
    e.Free? && e.h in v.chain && (v.chain[e.h].phase == Offered || v.chain[e.h].phase == Held)
  }

  lemma MoveInvIff(v: View, e: Move)
    requires Inv(v) && Can(v, e)
    ensures Inv(After(v, e)) <==> !Shares(v, e)
    ensures !Early(v, e)
  {
    hide At, Wrapped, Inv, OfferedAt, UsedAt, ChainOk, Linked, Taken, Completed, Noticed, Freed, Submitted, CanSubmit;
    SizedInv(v);
    match e {
      case Submit(h, m, l, b, write, sector) =>
        InRange(v, h, m, l, b, sector);
        SubmittedInvIff(v, h, m, l, b, write, sector);
      case Take => TakenInv(v);
      case Complete(h) => CompletedInv(v, h);
      case Notice => NoticedInv(v);
      case Free(h) =>
        LinkedBuf(v, h);
        SeenWhenClear(v, h);
        FreedInv(v, h);
    }
  }

  lemma InRange(v: View, h: nat, m: nat, l: nat, b: nat, sector: nat)
    requires Sized(v) && CanSubmit(v, h, m, l, b, sector)
    ensures b < |v.busy|
  {
  }

  lemma LinkedBuf(v: View, h: nat)
    requires Sized(v) && h in v.chain && Linked(v, h)
    ensures v.chain[h].buf < |v.busy|
  {
  }

  ghost predicate Run(r: seq<View>, es: seq<Move>) {
    |r| == |es| + 1 && forall i :: 0 <= i < |es| ==> Can(r[i], es[i]) && r[i + 1] == After(r[i], es[i])
  }

  /** A run keeps the protocol in every state exactly if no transfer of a waiting buffer is submitted. */
  lemma RunInvIff(r: seq<View>, es: seq<Move>)
    requires Run(r, es) && Inv(r[0])
    ensures (forall i :: 0 <= i < |r| ==> Inv(r[i])) <==> (forall i :: 0 <= i < |es| ==> !Shares(r[i], es[i]))
  {
    hide Inv, Can, After, Shares, Early;
    if forall i :: 0 <= i < |es| ==> !Shares(r[i], es[i]) {
      forall i | 0 <= i < |r| ensures Inv(r[i]) {
        RunInv(r, es, i);
      }
    }
    if forall i :: 0 <= i < |r| ==> Inv(r[i]) {
      forall i | 0 <= i < |es| ensures !Shares(r[i], es[i]) {
        assert Inv(r[i + 1]);
        MoveInvIff(r[i], es[i]);
      }
    }
  }

  /** Without such a submission the invariant holds in every state, and no chain is freed early. */
  lemma {:induction false} RunInv(r: seq<View>, es: seq<Move>, i: nat)
    requires Run(r, es) && i < |r| && Inv(r[0]) && forall j :: 0 <= j < i ==> !Shares(r[j], es[j])
    ensures Inv(r[i]) && (i < |es| ==> !Early(r[i], es[i]))
  {
    hide Inv, Can, After, Shares, Early;
    if i > 0 {
      RunInv(r, es, i - 1);
      MoveInvIff(r[i - 1], es[i - 1]);
    }
    if i < |es| {
      MoveInvIff(r[i], es[i]);
    }
  }

  // ----- two threads on one buffer ------------------------------------------------------------

  /** Requests g and h of one buffer, h still offered, and nothing else. */
  ghost predicate Pair(w: View, g: nat, h: nat) {
    && Sized(w) && g != h && g in w.chain && h in w.chain && Linked(w, g) && Linked(w, h)
    && w.chain[g].buf == w.chain[h].buf && w.chain[h].phase == Offered && w.chain[h].ticket + 1 == w.sent && w.seen <= w.done
  }

  lemma FromUsed(w: View, g: nat, h: nat) returns (r: seq<View>, es: seq<Move>)
    requires Pair(w, g, h) && w.chain[g].phase == Used && w.seen < w.done && w.used[At(w.seen)] == g && w.chain[g].ticket == w.seen
    ensures Run(r, es) && r[0] == w && es != [] && Early(r[|es| - 1], es[|es| - 1])
  {
    hide At, Wrapped;
    var n := Noticed(w);
    es := [Notice, Free(h)];
    r := [w, n, Freed(n, h)];
  }

  lemma FromHeld(w: View, g: nat, h: nat) returns (r: seq<View>, es: seq<Move>)
    requires Pair(w, g, h) && w.chain[g].phase == Held && w.seen == w.done
    ensures Run(r, es) && r[0] == w && es != [] && Early(r[|es| - 1], es[|es| - 1])
  {
    hide Run, Early, At, Wrapped;
    CompletedPair(w, g, h);
    r, es := FromUsed(Completed(w, g), g, h);
    RunFront(w, Complete(g), r, es);
    r, es := [w] + r, [Complete(g)] + es;
  }

  lemma CompletedPair(w: View, g: nat, h: nat)
    requires Pair(w, g, h) && w.chain[g].phase == Held && w.seen == w.done
    ensures Can(w, Complete(g))
    ensures var n := Completed(w, g);
            (Pair(n, g, h) && n.chain[g].phase == Used && n.seen < n.done && n.used[At(n.seen)] == g && n.chain[g].ticket == n.seen)
  {
    hide At, Wrapped, OrderAt;
    OrderIs(w, g);
  }

  lemma FromOffered(w: View, g: nat, h: nat) returns (r: seq<View>, es: seq<Move>)
    requires Pair(w, g, h) && w.chain[g].phase == Offered && w.seen == w.done && w.taken < w.sent
    requires w.chain[g].ticket == w.taken < w.chain[h].ticket && w.avail[At(w.taken)] == g
    ensures Run(r, es) && r[0] == w && es != [] && Early(r[|es| - 1], es[|es| - 1])
  {
    hide Run, Early, At, Wrapped;
    TakenPair(w, g, h);
    r, es := FromHeld(Taken(w), g, h);
    RunFront(w, Take, r, es);
    r, es := [w] + r, [Take] + es;
  }

  lemma TakenPair(w: View, g: nat, h: nat)
    requires Pair(w, g, h) && w.chain[g].phase == Offered && w.seen == w.done && w.taken < w.sent
    requires w.chain[g].ticket == w.taken < w.chain[h].ticket && w.avail[At(w.taken)] == g
    ensures Can(w, Take) && Pair(Taken(w), g, h) && Taken(w).chain[g].phase == Held && Taken(w).seen == Taken(w).done
  {
    hide At, Wrapped;
  }

  lemma RunFront(w: View, e: Move, r: seq<View>, es: seq<Move>)
    requires Can(w, e) && Run(r, es) && r[0] == After(w, e) && es != [] && Early(r[|es| - 1], es[|es| - 1])
    ensures Run([w] + r, [e] + es) && Early(([w] + r)[|es|], ([e] + es)[|es|])
  {
    hide Can, After, Early;
    var s, fs := [w] + r, [e] + es;
    forall i | 0 <= i < |fs| ensures Can(s[i], fs[i]) && s[i + 1] == After(s[i], fs[i]) {
      if i > 0 {
        assert s[i] == r[i - 1] && fs[i] == es[i - 1] && s[i + 1] == r[i];
      }
    }
  }

  /** With three descriptors free there is at most one request. */
  lemma OnlyRequest(v: View, h: nat, m: nat, l: nat, b: nat, sector: nat, g: nat)
    requires Inv(v) && CanSubmit(v, h, m, l, b, sector) && g in v.chain
    ensures v.chain.Keys == {g}
  {
    FreeCount(v);
    hide Inv, At, Wrapped;
    var f := set i: nat | i < RING && v.free[i];
    ThreeIn(f, h, m, l);
    assert v.chain.Keys == {g} + (v.chain.Keys - {g});
    assert |v.chain.Keys - {g}| == 0;
  }

  /** Where the only request of a state stands. */
  lemma OnlyPlace(v: View, g: nat)
    requires Inv(v) && g in v.chain && v.chain.Keys == {g}
    ensures v.chain[g].phase == Offered ==> v.sent == v.taken + 1 && v.chain[g].ticket == v.taken && v.avail[At(v.taken)] == g
    ensures v.chain[g].phase != Offered ==> v.sent == v.taken
    ensures v.chain[g].phase == Used ==> v.done == v.seen + 1 && v.chain[g].ticket == v.seen && v.used[At(v.seen)] == g
    ensures v.chain[g].phase != Used ==> v.seen == v.done
  {
    hide At, Wrapped, Table, Flags, Apart;
    ChainAt(v, g);
    if v.taken < v.sent {
      OfferedIs(v, g, v.taken);
      OfferedIs(v, g, v.sent - 1);
    }
    if v.seen < v.done {
      UsedIs(v, g, v.seen);
      UsedIs(v, g, v.done - 1);
    }
  }

  lemma OfferedIs(v: View, g: nat, k: nat)
    requires Inv(v) && v.chain.Keys == {g} && v.taken <= k < v.sent
    ensures v.avail[At(k)] == g && v.chain[g].phase == Offered && v.chain[g].ticket == k
  {
    hide At, Wrapped, Table, Flags, Apart;
    assert OfferedAt(v, k);
  }

  lemma UsedIs(v: View, g: nat, k: nat)
    requires Inv(v) && v.chain.Keys == {g} && v.seen <= k < v.done
    ensures v.used[At(k)] == g && v.chain[g].phase == Used && v.chain[g].ticket == k
  {
    hide At, Wrapped, Table, Flags, Apart;
    assert UsedAt(v, k);
  }

  lemma SharedPair(v: View, h: nat, m: nat, l: nat, b: nat, write: bool, sector: nat, g: nat)
    requires Inv(v) && CanSubmit(v, h, m, l, b, sector) && g in v.chain && v.chain.Keys == {g} && v.chain[g].buf == b && v.chain[g].phase != Seen
    ensures var w := Submitted(v, h, m, l, b, write, sector);
            (Pair(w, g, h) && w.chain[g] == v.chain[g] && w.chain[h].ticket == v.sent
            && (v.chain[g].phase == Offered ==> w.avail[At(v.taken)] == v.avail[At(v.taken)]))
  {
    hide Wrapped, Flags, Apart, Owned;
    SubmittedIsNew(v, h, m, l);
    ChainAt(v, g);
    OnlyPlace(v, g);
    FewInRings(v);
    if v.chain[g].phase == Offered {
      Near(v.taken, v.sent);
    }
    hide At, Table;
    SubmittedLinked(v, h, m, l, b, write, sector, g);
  }

  /**
   A submission for a waiting buffer does harm: there is always a continuation in which the device
   completes the first transfer, the handler clears the flag, and the second thread frees a chain that
   the device has not even taken.
   */
  lemma SharingHarms(v: View, e: Move) returns (r: seq<View>, es: seq<Move>)
    requires Inv(v) && Can(v, e) && Shares(v, e)
    ensures Run(r, es) && r[0] == v && |es| > 1 && es[0] == e && Early(r[|es| - 1], es[|es| - 1])
  {
    hide Run, Early, At, Wrapped, Pair, CanSubmit, Submitted, ChainOk, Linked, Rings, Table, Apart, Chains;
    var g :| g in v.chain && v.chain[g].phase != Seen && v.chain[g].buf == e.b;
    OnlyRequest(v, e.h, e.m, e.l, e.b, e.sector, g);
    OnlyPlace(v, g);
    SharedPair(v, e.h, e.m, e.l, e.b, e.write, e.sector, g);
    var w := After(v, e);
    SubmittedCounts(v, e);
    if v.chain[g].phase == Offered {
      r, es := FromOffered(w, g, e.h);
    } else if v.chain[g].phase == Held {
      r, es := FromHeld(w, g, e.h);
    } else {
      r, es := FromUsed(w, g, e.h);
    }
    RunFront(v, e, r, es);
    r, es := [v] + r, [e] + es;
  }

  lemma SubmittedCounts(v: View, e: Move)
    requires Can(v, e) && e.Submit?
    ensures var w := After(v, e);
            (w.taken == v.taken && w.sent == v.sent + 1 && w.seen == v.seen && w.done == v.done && w.used == v.used)
  {
  }

  /** The queue that virtioDiskInit leaves. */
  ghost function Boot(data: seq<Block>, blocks: seq<Block>): View {
    View(seq(RING, _ => Desc(Null, 0, 0, 0)), seq(RING, _ => true), seq(RING, _ => 0), 0, seq(RING, _ => 0), 0, 0,
         seq(RING, _ => -1), seq(RING, _ => 0), seq(RING, _ => Op(0, 0)), seq(|data|, _ => false), data, blocks,
         map[], map[], 0, 0, 0, 0)
  }

  lemma FirstRead(data: seq<Block>, blocks: seq<Block>, b: nat, sector: nat)
    requires b < |data| && sector < |blocks|
    ensures var v, e := Boot(data, blocks), Submit(0, 1, 2, b, false, sector);
            (Inv(v) && Can(v, e) && !Shares(v, e) && Can(After(v, e), Submit(3, 4, 5, b, false, sector))
            && Shares(After(v, e), Submit(3, 4, 5, b, false, sector)))
  {
    InitInv(Boot(data, blocks));
    hide Inv, At, Wrapped;
  }

  /**
   Two threads that read one block which the cache does not hold yet: bget gives both the same
   buffer, the first is asleep in virtioDiskRW when the second calls it. From boot this can free the
   second thread's chain before the device has taken it.
   */
  lemma ConcurrentReads(data: seq<Block>, blocks: seq<Block>, b: nat, sector: nat) returns (r: seq<View>, es: seq<Move>)
    requires b < |data| && sector < |blocks|
    ensures Run(r, es) && r[0] == Boot(data, blocks) && Inv(r[0]) && |es| > 2
    ensures es[0] == Submit(0, 1, 2, b, false, sector) && es[1] == Submit(3, 4, 5, b, false, sector)
    ensures Early(r[|es| - 1], es[|es| - 1])
  {
    hide *;
    var v, e, f := Boot(data, blocks), Submit(0, 1, 2, b, false, sector), Submit(3, 4, 5, b, false, sector);
    FirstRead(data, blocks, b, sector);
    MoveInvIff(v, e);
    var w := After(v, e);
    r, es := SharingHarms(w, f);
    RunFront(v, e, r, es);
    r, es := [v] + r, [e] + es;
  }
}
