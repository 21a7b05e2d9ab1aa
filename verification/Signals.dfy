/**
 Signal contexts: sent signals wait in a thread's pending list, delivered ones save what they
 interrupt on its handling stack, and rt_sigreturn pops it.
 */
module Signals {
  const CONTEXTS := 4096
  const SIGNALS := 64
  const SIGNAL_TRAMPOLINE := 0x3F_FFFF_D000
  const PAGE := 4096

  datatype Frame = Frame(sp: nat, ra: nat, epc: nat, rest: seq<nat>)
  datatype Context = Context(signal: nat, tf: Frame, mask: set<nat>)
  datatype Action = Action(handler: nat, flags: nat, mask: set<nat>)
  datatype Thread = Thread(tf: Frame, blocked: set<nat>, pending: seq<nat>, handling: seq<nat>, action: nat)

  /** Which list a context is in. */
  datatype Place = Free | Pending(t: nat) | Handling(t: nat)

  /** action[p] is the action table of process p; place is the partition of the contexts. */
  datatype State = State(ctx: seq<Context>, free: seq<nat>, th: seq<Thread>, action: seq<seq<Action>>, place: seq<Place>)

  function ListOf(s: State, p: Place): seq<nat>
    requires p.Free? || p.t < |s.th|
  {
    match p
    case Free => s.free
    case Pending(t) => s.th[t].pending
    case Handling(t) => s.th[t].handling
  }

  ghost predicate Distinct(q: seq<nat>) {
    forall j, k :: 0 <= j < k < |q| ==> q[j] != q[k]
  }

  ghost predicate Known(s: State, p: Place) {
    p.Free? || p.t < |s.th|
  }

  ghost predicate ListOk(s: State, p: Place)
    requires Known(s, p)
  {
    Distinct(ListOf(s, p)) && forall c :: c in ListOf(s, p) ==> c < |s.place| && s.place[c] == p
  }

  /** Every context is in exactly one list, once. */
  ghost predicate Partition(s: State) {
    && |s.ctx| == |s.place|
    && (forall p :: Known(s, p) ==> ListOk(s, p))
    && forall c: nat :: c < |s.place| ==> Known(s, s.place[c]) && c in ListOf(s, s.place[c])
  }

  ghost predicate Inv(s: State) {
    && Partition(s)
    && (forall t: nat :: t < |s.th| ==> s.th[t].action < |s.action|)
    && (forall p :: 0 <= p < |s.action| ==> |s.action[p]| == SIGNALS)
    && forall c: nat :: c < |s.ctx| && s.place[c] != Free ==> 1 <= s.ctx[c].signal <= SIGNALS
  }

  // ----- moving a context from list to list ------------------------------------------------------

  function Index(q: seq<nat>, c: nat): (k: nat)
    requires c in q
    ensures k < |q| && q[k] == c
  {
    if q[0] == c then 0 else 1 + Index(q[1..], c)
  }

  function Without(q: seq<nat>, c: nat): seq<nat>
    requires c in q
  {
    q[..Index(q, c)] + q[Index(q, c) + 1..]
  }

  lemma WithoutIs(q: seq<nat>, c: nat)
    requires c in q && Distinct(q)
    ensures |Without(q, c)| == |q| - 1 && Distinct(Without(q, c))
    ensures forall d :: d in Without(q, c) <==> d in q && d != c
  {
    var k := Index(q, c);
    var w := Without(q, c);
    assert forall j :: 0 <= j < |w| ==> w[j] == q[if j < k then j else j + 1];
    WithoutHas(q[..k], c, q[k + 1..], w);
    assert q == q[..k] + [c] + q[k + 1..];
    assert c !in q[..k] && c !in q[k + 1..];
  }

  lemma WithoutHas(a: seq<nat>, c: nat, b: seq<nat>, w: seq<nat>)
    requires w == a + b
    ensures forall d :: d in w <==> d in a || d in b
    ensures forall d :: d in a + [c] + b <==> d in a || d == c || d in b
  {
  }

  function Put(s: State, p: Place, q: seq<nat>): State
    requires Known(s, p)
  {
    match p
    case Free => s.(free := q)
    case Pending(t) => s.(th := s.th[t := s.th[t].(pending := q)])
    case Handling(t) => s.(th := s.th[t := s.th[t].(handling := q)])
  }

  /** LIST_REMOVE, then insertion at one end of another list. */
  function Shifted(s: State, c: nat, to: Place, front: bool): State
    requires c < |s.place| && Known(s, s.place[c]) && Known(s, to) && c in ListOf(s, s.place[c])
  {
    var a := Put(s, s.place[c], Without(ListOf(s, s.place[c]), c));
    var b := Put(a, to, if front then [c] + ListOf(a, to) else ListOf(a, to) + [c]);
    b.(place := s.place[c := to])
  }

  /** Each list after the move. */
  lemma ShiftedList(s: State, c: nat, to: Place, front: bool, p: Place)
    requires c < |s.place| && Known(s, s.place[c]) && Known(s, to) && c in ListOf(s, s.place[c]) && to != s.place[c]
    ensures var w := Shifted(s, c, to, front); (|w.th| == |s.th| && w.place == s.place[c := to] && (Known(w, p) <==> Known(s, p)))
    ensures Known(s, p) ==>
              ListOf(Shifted(s, c, to, front), p)
              == if p == s.place[c] then Without(ListOf(s, p), c)
                 else if p == to then (if front then [c] + ListOf(s, p) else ListOf(s, p) + [c])
                 else ListOf(s, p)
  {
    hide Without, Index;
  }

  lemma ShiftedPartition(s: State, c: nat, to: Place, front: bool)
    requires Partition(s) && c < |s.place| && Known(s, to) && to != s.place[c]
    ensures Known(s, s.place[c]) && c in ListOf(s, s.place[c]) && Partition(Shifted(s, c, to, front))
  {
    var from := s.place[c];
    assert Known(s, from) && ListOk(s, from) && ListOk(s, to);
    WithoutIs(ListOf(s, from), c);
    hide Without, Index;
    var w := Shifted(s, c, to, front);
    assert |w.ctx| == |w.place|;
    hide Shifted, ListOf;
    forall p | Known(w, p) ensures ListOk(w, p) {
      ShiftedList(s, c, to, front, p);
      ShiftedListOk(s, w, c, to, front, p);
    }
    forall d: nat | d < |w.place| ensures Known(w, w.place[d]) && d in ListOf(w, w.place[d]) {
      ShiftedList(s, c, to, front, w.place[d]);
      assert Known(s, s.place[d]) && d in ListOf(s, s.place[d]);
    }
  }

  lemma ShiftedListOk(s: State, w: State, c: nat, to: Place, front: bool, p: Place)
    requires Partition(s) && c < |s.place| && Known(s, to) && to != s.place[c] && Known(s, p) && Known(w, p)
    requires Known(s, s.place[c]) && c in ListOf(s, s.place[c]) && w.place == s.place[c := to]
    requires ListOf(w, p) == if p == s.place[c] then Without(ListOf(s, p), c)
                             else if p == to then (if front then [c] + ListOf(s, p) else ListOf(s, p) + [c])
                             else ListOf(s, p)
    ensures ListOk(w, p)
  {
    hide Partition, Without, Index, ListOf, Distinct;
    ListAt(s, p);
    ListAt(s, s.place[c]);
    WithoutIs(ListOf(s, s.place[c]), c);
    if p == to {
      EndsAre(ListOf(s, to), c);
    }
  }

  lemma ListAt(s: State, p: Place)
    requires Partition(s) && Known(s, p)
    ensures ListOk(s, p)
  {
  }

  lemma EndsAre(q: seq<nat>, c: nat)
    requires Distinct(q) && c !in q
    ensures Distinct([c] + q) && Distinct(q + [c])
    ensures (forall d :: d in [c] + q <==> d == c || d in q) && (forall d :: d in q + [c] <==> d == c || d in q)
  {
  }

  // ----- what happens to a thread -----------------------------------------------------------------

  datatype How = Block | Unblock | SetMask

  /** Sending, delivering, dropping, returning, a thread's end and the setting up of its record; and what user code does in between. */
  datatype Event =
    | Send(t: nat, sig: nat) | Deliver(t: nat, c: nat) | Drop(t: nat, c: nat) | Return(t: nat)
    | RunUser(t: nat, tf: Frame) | Mask(t: nat, how: How, mask: set<nat>) | SetAction(p: nat, sig: nat, a: Action)
    | Exit(t: nat) | Setup(t: nat, tf: Frame, p: nat)

  function ActionOf(s: State, t: nat, c: nat): Action
    requires t < |s.th| && s.th[t].action < |s.action| && c < |s.ctx| && 1 <= s.ctx[c].signal <= |s.action[s.th[t].action]|
  {
    s.action[s.th[t].action][s.ctx[c].signal - 1]
  }

  ghost predicate Enabled(s: State, e: Event) {
    match e
    case Send(t, sig) => t < |s.th| && 1 <= sig <= SIGNALS && s.free != []
    case Deliver(t, c) => t < |s.th| && c in s.th[t].pending && Armed(s, t, c)
    case Drop(t, c) => t < |s.th| && c in s.th[t].pending
    case Return(t) => t < |s.th| && s.th[t].handling != []
    case RunUser(t, _) => t < |s.th|
    case Mask(t, _, _) => t < |s.th|
    case SetAction(p, sig, _) => p < |s.action| && 1 <= sig <= |s.action[p]|
    case Exit(t) => t < |s.th|
    case Setup(t, _, p) => t < |s.th| && p < |s.action| && s.th[t].pending == [] == s.th[t].handling
  }

  /** The signal of c has a handler. */
  ghost predicate Armed(s: State, t: nat, c: nat)
    requires t < |s.th|
  {
    && c < |s.ctx| && s.th[t].action < |s.action| && 1 <= s.ctx[c].signal <= |s.action[s.th[t].action]|
    && ActionOf(s, t, c).handler != 0
  }

  /** The handler's entry: aligned stack, return to the trampoline. */
  function Entry(tf: Frame, handler: nat): Frame {
    Frame(tf.sp / PAGE * PAGE, SIGNAL_TRAMPOLINE, handler, tf.rest)
  }

  /** handleSignal's changes other than moving the context. */
  function Saved(s: State, t: nat, c: nat): State
    requires t < |s.th| && c < |s.ctx| && s.th[t].action < |s.action| && 1 <= s.ctx[c].signal <= |s.action[s.th[t].action]|
  {
    var a, x := ActionOf(s, t, c), s.th[t];
    s.(ctx := s.ctx[c := Context(s.ctx[c].signal, x.tf, x.blocked)],
       th := s.th[t := x.(blocked := x.blocked + {s.ctx[c].signal} + a.mask, tf := Entry(x.tf, a.handler))],
       action := if a.flags / 4 % 2 == 1 then
                   s.action[x.action := s.action[x.action][s.ctx[c].signal - 1 := Action(0, a.flags, {})]]
                 else s.action)
  }

  /** rt_sigreturn's restoring. */
  function Restored(s: State, t: nat, c: nat): State
    requires t < |s.th| && c < |s.ctx|
  {
    s.(th := s.th[t := s.th[t].(tf := s.ctx[c].tf, blocked := s.ctx[c].mask)])
  }

  /** threadFree gives back every pending context, then every handling one, the first of the list each time. */
  ghost function Left(s: State, t: nat): State
    requires Partition(s) && t < |s.th|
    decreases |s.th[t].pending| + |s.th[t].handling|
  {
    if s.th[t].pending == [] && s.th[t].handling == [] then s
    else
      GiveBack(s, t);
      Left(Shifted(s, NextBack(s, t), Free, true), t)
  }

  function NextBack(s: State, t: nat): nat
    requires t < |s.th| && (s.th[t].pending != [] || s.th[t].handling != [])
  {
    if s.th[t].pending != [] then s.th[t].pending[0] else s.th[t].handling[0]
  }

  /** One context given back. */
  lemma GiveBack(s: State, t: nat)
    requires Partition(s) && t < |s.th| && (s.th[t].pending != [] || s.th[t].handling != [])
    ensures var c := NextBack(s, t);
            && c < |s.place| == |s.ctx| && Known(s, s.place[c]) && c in ListOf(s, s.place[c])
            && s.place[c] == if s.th[t].pending != [] then Pending(t) else Handling(t)
    ensures var w := Shifted(s, NextBack(s, t), Free, true);
            && Partition(w) && |w.th| == |s.th| && w.ctx == s.ctx && w.action == s.action
            && w.free == [NextBack(s, t)] + s.free
            && w.th == (if s.th[t].pending != [] then s.th[t := s.th[t].(pending := s.th[t].pending[1..])]
                        else s.th[t := s.th[t].(handling := s.th[t].handling[1..])])
  {
    hide ListOk, Shifted, Without, Index;
    var c := NextBack(s, t);
    var from := if s.th[t].pending != [] then Pending(t) else Handling(t);
    InList(s, from, c);
    ShiftedPartition(s, c, Free, true);
    ShiftedBack(s, c, from);
    FirstOut(ListOf(s, from));
  }

  lemma ShiftedBack(s: State, c: nat, from: Place)
    requires c < |s.place| && Known(s, from) && c in ListOf(s, from) && s.place[c] == from && !from.Free?
    ensures var w := Shifted(s, c, Free, true);
            && w.ctx == s.ctx && w.action == s.action && w.free == [c] + s.free
            && w.th == if from.Pending? then s.th[from.t := s.th[from.t].(pending := Without(s.th[from.t].pending, c))]
                       else s.th[from.t := s.th[from.t].(handling := Without(s.th[from.t].handling, c))]
  {
    hide Without, Index;
  }

  function Reversed(q: seq<nat>): (r: seq<nat>)
    ensures |r| == |q|
  {
    if q == [] then [] else Reversed(q[1..]) + [q[0]]
  }

  /** A thread that has left holds no context, all of them are free, and no other thread notices. */
  lemma {:induction false} LeftIs(s: State, t: nat)
    requires Partition(s) && t < |s.th|
    ensures var w := Left(s, t);
            && Partition(w) && w.ctx == s.ctx && w.action == s.action
            && w.th == s.th[t := s.th[t].(pending := [], handling := [])]
            && w.free == Reversed(s.th[t].handling) + Reversed(s.th[t].pending) + s.free
    decreases |s.th[t].pending| + |s.th[t].handling|
  {
    hide Partition, Shifted, ListOf;
    if s.th[t].pending == [] && s.th[t].handling == [] {
      assert s.th[t].(pending := [], handling := []) == s.th[t];
    } else {
      GiveBack(s, t);
      var w := Shifted(s, NextBack(s, t), Free, true);
      LeftIs(w, t);
      FreeMore(s.th[t].pending, s.th[t].handling, s.free);
    }
  }

  lemma FreeMore(pending: seq<nat>, handling: seq<nat>, free: seq<nat>)
    ensures pending != [] ==> Reversed(handling) + Reversed(pending[1..]) + ([pending[0]] + free) == Reversed(handling) + Reversed(pending) + free
    ensures handling != [] ==> Reversed(handling[1..]) + Reversed([]) + ([handling[0]] + free) == Reversed(handling) + Reversed([]) + free
  {
  }

  lemma LeftInv(s: State, t: nat)
    requires Inv(s) && t < |s.th|
    ensures Inv(Left(s, t))
  {
    hide ListOk, Left;
    LeftIs(s, t);
    var w := Left(s, t);
    forall c: nat | c < |w.ctx| && w.place[c] != Free ensures 1 <= w.ctx[c].signal <= SIGNALS {
      Elsewhere(s, w, t, c);
    }
  }

  /** A context that is still in use was in use before. */
  lemma Elsewhere(s: State, w: State, t: nat, c: nat)
    requires Partition(s) && Partition(w) && t < |s.th| && c < |w.ctx| && w.place[c] != Free && w.ctx == s.ctx
    requires w.th == s.th[t := s.th[t].(pending := [], handling := [])]
    ensures s.place[c] != Free
  {
    var p := w.place[c];
    assert Known(w, p) && c in ListOf(w, p);
    assert Known(s, p) && c in ListOf(s, p) && ListOk(s, p);
  }

  function Remasked(old_: set<nat>, how: How, mask: set<nat>): set<nat> {
    match how
    case Block => old_ + mask
    case Unblock => old_ - mask
    case SetMask => mask
  }

  ghost function After(s: State, e: Event): State
    requires Partition(s) && Enabled(s, e)
  {
    match e
    case Send(t, sig) =>
      InFree(s);
      Shifted(s.(ctx := s.ctx[s.free[0] := s.ctx[s.free[0]].(signal := sig)]), s.free[0], Pending(t), false)
    case Deliver(t, c) =>
      InList(s, Pending(t), c);
      Shifted(Saved(s, t, c), c, Handling(t), true)
    case Drop(t, c) =>
      InList(s, Pending(t), c);
      Shifted(s, c, Free, true)
    case Return(t) =>
      InList(s, Handling(t), s.th[t].handling[0]);
      Shifted(Restored(s, t, s.th[t].handling[0]), s.th[t].handling[0], Free, true)
    case RunUser(t, tf) => s.(th := s.th[t := s.th[t].(tf := tf)])
    case Mask(t, how, mask) => s.(th := s.th[t := s.th[t].(blocked := Remasked(s.th[t].blocked, how, mask))])
    case SetAction(p, sig, a) => s.(action := s.action[p := s.action[p][sig - 1 := a]])
    case Exit(t) => Left(s, t)
    case Setup(t, tf, p) => s.(th := s.th[t := Thread(tf, {}, [], [], p)])
  }

  /** q without the entry at some place that holds c. */
  ghost predicate TakenOut(q: seq<nat>, c: nat, r: seq<nat>) {
    exists k :: 0 <= k < |q| && q[k] == c && r == q[..k] + q[k + 1..]
  }

  lemma TakenOutIs(q: seq<nat>, c: nat)
    requires c in q
    ensures TakenOut(q, c, Without(q, c))
  {
    var k := Index(q, c);
    assert q[k] == c && Without(q, c) == q[..k] + q[k + 1..];
  }

  /** What a list move does to the two lists of thread t. */
  lemma MovedIs(s: State, c: nat, t: nat, to: Place, front: bool)
    requires c < |s.place| && t < |s.th|
    requires s.place[c] == Pending(t) && c in s.th[t].pending && (to == Handling(t) || to.Free?)
    ensures var w, x := Shifted(s, c, to, front), s.th[t];
            && w.ctx == s.ctx && w.action == s.action && |w.th| == |s.th| && w.th == s.th[t := w.th[t]]
            && TakenOut(x.pending, c, w.th[t].pending)
            && w.th[t] == x.(pending := w.th[t].pending, handling := w.th[t].handling)
            && w.th[t].handling == (if to.Free? then x.handling else if front then [c] + x.handling else x.handling + [c])
            && w.free == (if to.Free? then (if front then [c] + s.free else s.free + [c]) else s.free)
  {
    TakenOutIs(s.th[t].pending, c);
    hide Without, Index, TakenOut;
  }

  /**
   Delivery makes the thread enter the handler: epc is the handler's address, ra the trampoline, sp the
   largest multiple of 4096 not above the old one; its own signal and the action's mask are blocked as
   well; and the innermost context holds what was interrupted.
   */
  ghost predicate Entered(s: State, w: State, t: nat, c: nat) {
    && c < |s.ctx| && t < |s.th| == |w.th| && s.th[t].action < |s.action| && 1 <= s.ctx[c].signal <= |s.action[s.th[t].action]|
    && var x, y, sig, p := s.th[t], w.th[t], s.ctx[c].signal, s.th[t].action;
    var a := s.action[p][sig - 1];
    && y.tf.epc == a.handler != 0 && y.tf.ra == 0x3F_FFFF_D000 && y.tf.sp % 4096 == 0 && y.tf.sp <= x.tf.sp < y.tf.sp + 4096
    && y.tf.rest == x.tf.rest && y.blocked == x.blocked + {sig} + a.mask && y.action == p
    && TakenOut(x.pending, c, y.pending) && y.handling == [c] + x.handling && w.th == s.th[t := y] && w.free == s.free
    && w.ctx == s.ctx[c := Context(sig, x.tf, x.blocked)]
    && w.action == if a.flags / 4 % 2 == 1 then s.action[p := s.action[p][sig - 1 := Action(0, a.flags, {})]] else s.action
  }

  lemma DeliverIs(s: State, t: nat, c: nat)
    requires Partition(s) && Enabled(s, Deliver(t, c))
    ensures Entered(s, After(s, Deliver(t, c)), t, c)
  {
    hide Partition, Shifted, TakenOut;
    InList(s, Pending(t), c);
    MovedIs(Saved(s, t, c), c, t, Handling(t), true);
  }

  /** A signal without a handler leaves the pending list and its context is free again. */
  lemma DropIs(s: State, t: nat, c: nat)
    requires Partition(s) && Enabled(s, Drop(t, c))
    ensures Dropped(s, After(s, Drop(t, c)), t, c)
  {
    hide Partition, Shifted, TakenOut;
    InList(s, Pending(t), c);
    MovedIs(s, c, t, Free, true);
  }

  ghost predicate Dropped(s: State, w: State, t: nat, c: nat) {
    && t < |s.th| == |w.th| && w.ctx == s.ctx && w.action == s.action && w.free == [c] + s.free
    && w.th == s.th[t := s.th[t].(pending := w.th[t].pending)] && TakenOut(s.th[t].pending, c, w.th[t].pending)
  }

  lemma SendIs(s: State, t: nat, sig: nat)
    requires Partition(s) && Enabled(s, Event.Send(t, sig))
    ensures s.free != [] && s.free[0] < |s.ctx|
    ensures var w, c := After(s, Event.Send(t, sig)), s.free[0];
            && w.free == s.free[1..] && w.th == s.th[t := s.th[t].(pending := s.th[t].pending + [c])] && w.action == s.action
            && w.ctx == s.ctx[c := Context(sig, s.ctx[c].tf, s.ctx[c].mask)]
  {
    hide Partition, Without, Index;
    InFree(s);
    FirstOut(s.free);
  }

  lemma ReturnIs(s: State, t: nat)
    requires Partition(s) && Enabled(s, Return(t))
    ensures s.th[t].handling[0] < |s.ctx|
    ensures var w, c := After(s, Return(t)), s.th[t].handling[0];
            && w.free == [c] + s.free && w.action == s.action && w.ctx == s.ctx
            && w.th == s.th[t := s.th[t].(tf := s.ctx[c].tf, blocked := s.ctx[c].mask, handling := s.th[t].handling[1..])]
  {
    hide Partition, Without, Index;
    InList(s, Handling(t), s.th[t].handling[0]);
    FirstOut(s.th[t].handling);
  }

  lemma InList(s: State, p: Place, c: nat)
    requires Partition(s) && Known(s, p) && c in ListOf(s, p)
    ensures c < |s.place| == |s.ctx| && s.place[c] == p
  {
    assert ListOk(s, p);
  }

  lemma InFree(s: State)
    requires Partition(s) && s.free != []
    ensures s.free[0] < |s.place| == |s.ctx| && s.place[s.free[0]] == Free
  {
    assert ListOk(s, Free) && s.free[0] in ListOf(s, Free);
  }

  /** The same lists and places. */
  ghost predicate SameLists(s: State, w: State) {
    && w.place == s.place && w.free == s.free && |w.ctx| == |s.ctx| && |w.th| == |s.th|
    && forall t: nat :: t < |s.th| ==> w.th[t].pending == s.th[t].pending && w.th[t].handling == s.th[t].handling
  }

  lemma SamePartition(s: State, w: State)
    requires Partition(s) && SameLists(s, w)
    ensures Partition(w)
  {
    forall p | Known(w, p) ensures ListOk(w, p) {
      assert ListOk(s, p) && ListOf(w, p) == ListOf(s, p);
    }
    forall c: nat | c < |w.place| ensures Known(w, w.place[c]) && c in ListOf(w, w.place[c]) {
      assert Known(s, s.place[c]) && c in ListOf(s, s.place[c]);
    }
  }

  lemma AfterInv(s: State, e: Event)
    requires Inv(s) && Enabled(s, e)
    ensures Inv(After(s, e))
  {
    hide ListOk, Shifted;
    match e {
      case Send(t, sig) => SendInv(s, t, sig);
      case Deliver(t, c) => DeliverInv(s, t, c);
      case Drop(t, c) =>
        InList(s, Pending(t), c);
        ShiftedInv(s, c, Free, true);
      case Return(t) => ReturnInv(s, t);
      case RunUser(t, tf) => SamePartition(s, After(s, e));
      case Mask(t, how, mask) => SamePartition(s, After(s, e));
      case SetAction(p, sig, a) => SamePartition(s, After(s, e));
      case Exit(t) => LeftInv(s, t);
      case Setup(t, tf, p) => SamePartition(s, After(s, e));
    }
  }

  lemma SendInv(s: State, t: nat, sig: nat)
    requires Inv(s) && Enabled(s, Send(t, sig))
    ensures Inv(After(s, Send(t, sig)))
  {
    hide ListOk, Shifted;
    InFree(s);
    var b := s.(ctx := s.ctx[s.free[0] := s.ctx[s.free[0]].(signal := sig)]);
    SamePartition(s, b);
    ShiftedInv(b, s.free[0], Pending(t), false);
  }

  lemma DeliverInv(s: State, t: nat, c: nat)
    requires Inv(s) && Enabled(s, Deliver(t, c))
    ensures Inv(After(s, Deliver(t, c)))
  {
    hide ListOk, Shifted;
    InList(s, Pending(t), c);
    SamePartition(s, Saved(s, t, c));
    ShiftedInv(Saved(s, t, c), c, Handling(t), true);
  }

  lemma ReturnInv(s: State, t: nat)
    requires Inv(s) && Enabled(s, Return(t))
    ensures Inv(After(s, Return(t)))
  {
    hide ListOk, Shifted;
    var c := s.th[t].handling[0];
    InList(s, Handling(t), c);
    SamePartition(s, Restored(s, t, c));
    ShiftedInv(Restored(s, t, c), c, Free, true);
  }

  lemma ShiftedInv(s: State, c: nat, to: Place, front: bool)
    requires Partition(s) && c < |s.place| && Known(s, to) && to != s.place[c]
    requires forall t: nat :: t < |s.th| ==> s.th[t].action < |s.action|
    requires forall p :: 0 <= p < |s.action| ==> |s.action[p]| == SIGNALS
    requires forall d: nat :: d < |s.ctx| && (d == c || s.place[d] != Free) ==> 1 <= s.ctx[d].signal <= SIGNALS
    ensures Known(s, s.place[c]) && c in ListOf(s, s.place[c]) && Inv(Shifted(s, c, to, front))
  {
    ShiftedPartition(s, c, to, front);
    hide Without, Index, Partition;
    var w := Shifted(s, c, to, front);
    forall t: nat | t < |w.th| ensures w.th[t].action < |w.action| {
      assert w.th[t].action == s.th[t].action;
    }
  }

  // ----- the handling list is a stack of what was interrupted --------------------------------------

  datatype Saving = Saving(tf: Frame, mask: set<nat>)

  /** What thread t's handling contexts will restore, innermost first. */
  ghost function Stack(s: State, t: nat): (r: seq<Saving>)
    requires Partition(s) && t < |s.th|
    ensures |r| == |s.th[t].handling|
  {
    seq(|s.th[t].handling|, (k: nat) requires k < |s.th[t].handling| =>
      (Inside(s, t, k); Saving(s.ctx[s.th[t].handling[k]].tf, s.ctx[s.th[t].handling[k]].mask)))
  }

  lemma Inside(s: State, t: nat, k: nat)
    requires Partition(s) && t < |s.th| && k < |s.th[t].handling|
    ensures s.th[t].handling[k] < |s.ctx| == |s.place| && s.place[s.th[t].handling[k]] == Handling(t)
  {
    assert ListOk(s, Handling(t)) && s.th[t].handling[k] in ListOf(s, Handling(t));
  }

  /** Delivery pushes what it interrupts, return pops it into force, the thread's end clears the stack, and nothing else touches it. */
  lemma StackAfter(s: State, e: Event, t: nat)
    requires Inv(s) && Enabled(s, e) && t < |s.th|
    ensures Inv(After(s, e)) && |After(s, e).th| == |s.th|
    ensures Stack(After(s, e), t)
            == if e.Deliver? && e.t == t then [Saving(s.th[t].tf, s.th[t].blocked)] + Stack(s, t)
               else if e.Return? && e.t == t then Stack(s, t)[1..]
               else if e.Exit? && e.t == t then []
               else Stack(s, t)
    ensures e.Return? && e.t == t ==> Stack(s, t) != [] && Saving(After(s, e).th[t].tf, After(s, e).th[t].blocked) == Stack(s, t)[0]
  {
    hide After, Stack, HandlingStep;
    AfterInv(s, e);
    HandlingAfter(s, e, t);
    StackFrom(s, After(s, e), e, t);
  }

  /** The handling list of t after an event, and the contexts it names. */
  ghost predicate HandlingStep(s: State, w: State, e: Event, t: nat) {
    && t < |s.th| == |w.th| && |w.ctx| == |s.ctx| && (e.Return? && e.t == t ==> s.th[t].handling != [])
    && w.th[t].handling == (if e.Deliver? && e.t == t then [e.c] + s.th[t].handling
                            else if e.Return? && e.t == t then s.th[t].handling[1..]
                            else if e.Exit? && e.t == t then [] else s.th[t].handling)
    && (forall k: nat :: k < |s.th[t].handling| ==>
          s.th[t].handling[k] < |s.ctx| && w.ctx[s.th[t].handling[k]] == s.ctx[s.th[t].handling[k]])
    && (e.Deliver? && e.t == t ==> e.c < |s.ctx| && w.ctx[e.c].tf == s.th[t].tf && w.ctx[e.c].mask == s.th[t].blocked)
    && (e.Return? && e.t == t ==> w.th[t].tf == s.ctx[s.th[t].handling[0]].tf && w.th[t].blocked == s.ctx[s.th[t].handling[0]].mask)
  }

  lemma StackFrom(s: State, w: State, e: Event, t: nat)
    requires Partition(s) && Partition(w) && HandlingStep(s, w, e, t)
    ensures Stack(w, t)
            == if e.Deliver? && e.t == t then [Saving(s.th[t].tf, s.th[t].blocked)] + Stack(s, t)
               else if e.Return? && e.t == t then Stack(s, t)[1..]
               else if e.Exit? && e.t == t then []
               else Stack(s, t)
    ensures e.Return? && e.t == t ==> Stack(s, t) != [] && Saving(w.th[t].tf, w.th[t].blocked) == Stack(s, t)[0]
  {
    hide Partition, Stack;
    var x := if e.Deliver? && e.t == t then [Saving(s.th[t].tf, s.th[t].blocked)] + Stack(s, t)
             else if e.Return? && e.t == t then Stack(s, t)[1..]
             else if e.Exit? && e.t == t then []
             else Stack(s, t);
    forall k: nat | k < |x| ensures Stack(w, t)[k] == x[k] {
      StackEntry(w, t, k);
      if e.Deliver? && e.t == t {
        if k > 0 {
          StackEntry(s, t, k - 1);
        }
      } else {
        StackEntry(s, t, if e.Return? && e.t == t then k + 1 else k);
      }
    }
    if e.Return? && e.t == t {
      StackEntry(s, t, 0);
    }
  }

  ghost predicate StackAt(s: State, t: nat, k: nat)
    requires Partition(s) && t < |s.th|
  {
    && k < |s.th[t].handling| && s.th[t].handling[k] < |s.ctx|
    && Stack(s, t)[k] == Saving(s.ctx[s.th[t].handling[k]].tf, s.ctx[s.th[t].handling[k]].mask)
  }

  lemma StackEntry(s: State, t: nat, k: nat)
    requires Partition(s) && t < |s.th| && k < |s.th[t].handling|
    ensures StackAt(s, t, k)
  {
    Inside(s, t, k);
  }

  lemma HandlingAfter(s: State, e: Event, t: nat)
    requires Inv(s) && Enabled(s, e) && t < |s.th|
    ensures HandlingStep(s, After(s, e), e, t) && |After(s, e).th| == |s.th|
  {
    forall k: nat | k < |s.th[t].handling| ensures s.th[t].handling[k] < |s.ctx| == |s.place| && s.place[s.th[t].handling[k]] == Handling(t) {
      Inside(s, t, k);
    }
    Partitioned(s);
    hide Inv, Partition, HandlingStep, After, Enabled;
    match e {
      case Send(u, sig) => SendHandling(s, u, sig, t);
      case Deliver(u, c) => DeliverHandling(s, u, c, t);
      case Drop(u, c) => DropHandling(s, u, c, t);
      case Return(u) => ReturnHandling(s, u, t);
      case RunUser(_, _) => QuietHandling(s, e, t);
      case Mask(_, _, _) => QuietHandling(s, e, t);
      case SetAction(_, _, _) => QuietHandling(s, e, t);
      case Exit(u) => EnabledExit(s, u); ExitHandling(s, u, t);
      case Setup(_, _, _) => QuietHandling(s, e, t);
    }
    SizeKept(s, After(s, e), e, t);
  }

  lemma Partitioned(s: State)
    requires Inv(s)
    ensures Partition(s)
  {
  }

  lemma EnabledExit(s: State, u: nat)
    requires Enabled(s, Exit(u))
    ensures u < |s.th|
  {
  }

  lemma SizeKept(s: State, w: State, e: Event, t: nat)
    requires HandlingStep(s, w, e, t)
    ensures |w.th| == |s.th|
  {
  }

  lemma QuietHandling(s: State, e: Event, t: nat)
    requires Partition(s) && Enabled(s, e) && t < |s.th| && (e.RunUser? || e.Mask? || e.SetAction? || e.Setup?)
    requires forall k: nat :: k < |s.th[t].handling| ==>
               s.th[t].handling[k] < |s.ctx| == |s.place| && s.place[s.th[t].handling[k]] == Handling(t)
    ensures HandlingStep(s, After(s, e), e, t)
  {
    hide Partition;
  }

  lemma DropHandling(s: State, u: nat, c: nat, t: nat)
    requires Partition(s) && Enabled(s, Drop(u, c)) && t < |s.th|
    requires forall k: nat :: k < |s.th[t].handling| ==>
               s.th[t].handling[k] < |s.ctx| == |s.place| && s.place[s.th[t].handling[k]] == Handling(t)
    ensures HandlingStep(s, After(s, Drop(u, c)), Drop(u, c), t)
  {
    hide Partition;
    InList(s, Pending(u), c);
    ShiftedHandling(s, c, Free, true, t);
    hide Shifted;
  }

  lemma SendHandling(s: State, u: nat, sig: nat, t: nat)
    requires Partition(s) && Enabled(s, Send(u, sig)) && t < |s.th|
    requires forall k: nat :: k < |s.th[t].handling| ==>
               s.th[t].handling[k] < |s.ctx| == |s.place| && s.place[s.th[t].handling[k]] == Handling(t)
    ensures HandlingStep(s, After(s, Send(u, sig)), Send(u, sig), t)
  {
    hide Partition;
    InFree(s);
    var b := s.(ctx := s.ctx[s.free[0] := s.ctx[s.free[0]].(signal := sig)]);
    ShiftedHandling(b, s.free[0], Pending(u), false, t);
  }

  lemma DeliverHandling(s: State, u: nat, c: nat, t: nat)
    requires Partition(s) && Enabled(s, Deliver(u, c)) && t < |s.th|
    requires forall k: nat :: k < |s.th[t].handling| ==>
               s.th[t].handling[k] < |s.ctx| == |s.place| && s.place[s.th[t].handling[k]] == Handling(t)
    ensures HandlingStep(s, After(s, Deliver(u, c)), Deliver(u, c), t)
  {
    hide Partition, ActionOf, Saved, Shifted, HandlingStep;
    InList(s, Pending(u), c);
    SavedIs(s, u, c);
    DeliverShift(s, Saved(s, u, c), u, c, t);
  }

  lemma DeliverShift(s: State, m: State, u: nat, c: nat, t: nat)
    requires t < |s.th| && u < |s.th| && c in s.th[u].pending && c < |s.place| == |s.ctx| && s.place[c] == Pending(u)
    requires m.place == s.place && |m.th| == |s.th| && m.ctx == s.ctx[c := Context(s.ctx[c].signal, s.th[u].tf, s.th[u].blocked)]
    requires forall v: nat :: v < |s.th| ==> m.th[v].pending == s.th[v].pending && m.th[v].handling == s.th[v].handling
    requires forall k: nat :: k < |s.th[t].handling| ==>
               s.th[t].handling[k] < |s.ctx| == |s.place| && s.place[s.th[t].handling[k]] == Handling(t)
    ensures HandlingStep(s, Shifted(m, c, Handling(u), true), Deliver(u, c), t)
  {
    ShiftedHandling(m, c, Handling(u), true, t);
    hide Shifted;
  }

  lemma SavedIs(s: State, u: nat, c: nat)
    requires u < |s.th| && c < |s.ctx| && s.th[u].action < |s.action| && 1 <= s.ctx[c].signal <= |s.action[s.th[u].action]|
    ensures var m := Saved(s, u, c);
            && m.place == s.place && |m.th| == |s.th| && m.ctx == s.ctx[c := Context(s.ctx[c].signal, s.th[u].tf, s.th[u].blocked)]
            && forall t: nat :: t < |s.th| ==> m.th[t].pending == s.th[t].pending && m.th[t].handling == s.th[t].handling
  {
    hide ActionOf;
  }

  lemma ReturnHandling(s: State, u: nat, t: nat)
    requires Partition(s) && Enabled(s, Return(u)) && t < |s.th|
    requires forall k: nat :: k < |s.th[t].handling| ==>
               s.th[t].handling[k] < |s.ctx| == |s.place| && s.place[s.th[t].handling[k]] == Handling(t)
    ensures HandlingStep(s, After(s, Return(u)), Return(u), t)
  {
    hide Partition;
    var c := s.th[u].handling[0];
    InList(s, Handling(u), c);
    ShiftedHandling(Restored(s, u, c), c, Free, true, t);
    FirstOut(s.th[u].handling);
  }

  lemma ExitHandling(s: State, u: nat, t: nat)
    requires Partition(s) && u < |s.th| && t < |s.th|
    requires forall k: nat :: k < |s.th[t].handling| ==>
               s.th[t].handling[k] < |s.ctx| == |s.place| && s.place[s.th[t].handling[k]] == Handling(t)
    ensures HandlingStep(s, After(s, Exit(u)), Exit(u), t)
  {
    LeftIs(s, u);
    hide Partition, Left;
  }

  lemma FirstOut(q: seq<nat>)
    requires q != []
    ensures Without(q, q[0]) == q[1..]
  {
  }

  lemma ShiftedHandling(s: State, c: nat, to: Place, front: bool, t: nat)
    requires c < |s.place| && Known(s, s.place[c]) && Known(s, to) && c in ListOf(s, s.place[c]) && to != s.place[c] && t < |s.th|
    ensures var w := Shifted(s, c, to, front);
            (|w.th| == |s.th| && w.ctx == s.ctx && w.th[t].tf == s.th[t].tf && w.th[t].blocked == s.th[t].blocked
            && w.th[t].handling == if s.place[c] == Handling(t) then Without(s.th[t].handling, c)
                                   else if to == Handling(t) then (if front then [c] + s.th[t].handling else s.th[t].handling + [c])
                                   else s.th[t].handling)
  {
    hide Without, Index;
  }

  // ----- every run ------------------------------------------------------------------------------------

  /** As signalInit leaves things: every context is free, the last one first, and no thread has any. */
  ghost predicate Booted(s: State) {
    && |s.ctx| == |s.place| == |s.free| == CONTEXTS && (forall c :: 0 <= c < CONTEXTS ==> s.place[c] == Place.Free)
    && (forall k :: 0 <= k < CONTEXTS ==> s.free[k] == CONTEXTS - 1 - k)
    && (forall t :: 0 <= t < |s.th| ==> s.th[t].pending == [] && s.th[t].handling == [] && s.th[t].action < |s.action|)
    && forall p :: 0 <= p < |s.action| ==> |s.action[p]| == SIGNALS
  }

  lemma BootedInv(s: State)
    requires Booted(s)
    ensures Inv(s)
  {
    forall c: nat | c < CONTEXTS ensures c in s.free {
      assert s.free[CONTEXTS - 1 - c] == c;
    }
  }

  /** A run from boot. */
  ghost predicate Run(r: seq<State>, es: seq<Event>) {
    && |r| == |es| + 1 && Booted(r[0])
    && forall k :: 0 <= k < |es| ==> Partition(r[k]) && Enabled(r[k], es[k]) && r[k + 1] == After(r[k], es[k])
  }

  lemma {:induction false} RunInv(r: seq<State>, es: seq<Event>, k: nat)
    requires Run(r, es) && k < |r|
    ensures Inv(r[k]) && |r[k].th| == |r[0].th|
  {
    if k == 0 {
      BootedInv(r[0]);
    } else {
      RunInv(r, es, k - 1);
      AfterInv(r[k - 1], es[k - 1]);
      SameThreads(r[k - 1], es[k - 1]);
    }
  }

  lemma SameThreads(s: State, e: Event)
    requires Inv(s) && Enabled(s, e)
    ensures |After(s, e).th| == |s.th|
  {
    if |s.th| > 0 {
      StackAfter(s, e, 0);
    }
  }

  /** How many handlers thread t is inside. */
  function Nesting(s: State, t: nat): nat {
    if t < |s.th| then |s.th[t].handling| else 0
  }

  lemma Deep(s: State, t: nat)
    requires Partition(s) && t < |s.th|
    ensures |Stack(s, t)| == Nesting(s, t) == |s.th[t].handling|
  {
    hide Partition;
  }

  /** While the stack stays at least n deep, its n lowest entries stay. */
  lemma {:induction false} Below(r: seq<State>, es: seq<Event>, t: nat, i: nat, k: nat, n: nat)
    requires Run(r, es) && i <= k < |r| && t < |r[0].th|
    requires forall j :: i <= j <= k ==> Nesting(r[j], t) >= n
    ensures Partition(r[i]) && Partition(r[k]) && t < |r[i].th| == |r[k].th| && SameBottom(Stack(r[i], t), Stack(r[k], t), n)
  {
    hide Run, Inv, Partition, Stack, SameBottom, Nesting;
    RunPartition(r, es, i);
    RunPartition(r, es, k);
    Deep(r[i], t);
    Deep(r[k], t);
    if i == k {
      BottomSelf(Stack(r[i], t), n);
    } else {
      Below(r, es, t, i, k - 1, n);
      RunStep(r, es, k - 1, t);
      SuffixStays(Stack(r[i], t), Stack(r[k - 1], t), Stack(r[k], t), n);
    }
  }

  /** The n lowest entries of two stacks agree. */
  ghost predicate SameBottom(a: seq<Saving>, b: seq<Saving>, n: nat) {
    |a| >= n && |b| >= n && a[|a| - n..] == b[|b| - n..]
  }

  lemma BottomSelf(a: seq<Saving>, n: nat)
    requires |a| >= n
    ensures SameBottom(a, a, n)
  {
  }

  lemma RunPartition(r: seq<State>, es: seq<Event>, k: nat)
    requires Run(r, es) && k < |r|
    ensures Partition(r[k]) && Inv(r[k]) && |r[k].th| == |r[0].th| && |r| == |es| + 1
  {
    RunInv(r, es, k);
  }

  lemma RunStep(r: seq<State>, es: seq<Event>, k: nat, t: nat)
    requires Run(r, es) && k < |es| && t < |r[0].th|
    ensures Partition(r[k]) && Partition(r[k + 1]) && |r[k].th| == |r[0].th| == |r[k + 1].th|
    ensures Stack(r[k + 1], t) == Stack(r[k], t) || (Stack(r[k], t) != [] && Stack(r[k + 1], t) == Stack(r[k], t)[1..])
            || (Stack(r[k + 1], t) != [] && Stack(r[k + 1], t)[1..] == Stack(r[k], t)) || Stack(r[k + 1], t) == []
  {
    hide Inv, Stack, After;
    RunPartition(r, es, k);
    RunPartition(r, es, k + 1);
    StackAfter(r[k], es[k], t);
  }

  lemma SuffixStays(z: seq<Saving>, a: seq<Saving>, b: seq<Saving>, n: nat)
    requires SameBottom(z, a, n) && |b| >= n && (b == a || (a != [] && b == a[1..]) || (b != [] && b[1..] == a) || b == [])
    ensures SameBottom(z, b, n)
  {
  }

  /**
   However signals, handlers and returns of all threads interleave, the rt_sigreturn that ends a
   handler restores the trap frame and the blocked mask in force when its own signal was delivered.
   */
  lemma ReturnRestores(r: seq<State>, es: seq<Event>, t: nat, i: nat, j: nat)
    requires Run(r, es) && i < j < |es| && es[i].Deliver? && es[i].t == t && es[j] == Return(t)
    requires forall k :: i < k <= j ==> Nesting(r[k], t) > Nesting(r[i], t)
    requires Nesting(r[j + 1], t) == Nesting(r[i], t)
    ensures t < |r[j + 1].th| == |r[i].th|
    ensures r[j + 1].th[t].tf == r[i].th[t].tf && r[j + 1].th[t].blocked == r[i].th[t].blocked
  {
    hide Run, Inv, Partition, Enabled, Stack, After, Nesting, SameBottom;
    StepAt(r, es, i);
    DeliveredTo(r[i], es[i]);
    StepAt(r, es, j);
    StackAfter(r[i], es[i], t);
    StackAfter(r[j], es[j], t);
    Deep(r[i], t);
    Deep(r[j], t);
    RunPartition(r, es, j + 1);
    Deep(r[j + 1], t);
    var n := Nesting(r[i], t) + 1;
    Below(r, es, t, i + 1, j, n);
    Deep(r[i + 1], t);
    FullBottom(Stack(r[i + 1], t), Stack(r[j], t), n);
  }

  lemma DeliveredTo(s: State, e: Event)
    requires Enabled(s, e) && e.Deliver?
    ensures e.t < |s.th|
  {
  }

  /**
   handleSignal resets a handler exactly if bit 0x0004 of its flags is set: a further signal of the
   same number finds its handler again exactly if the bit is clear.
   */
  lemma ResetIff(s: State, t: nat, c: nat, d: nat)
    requires Inv(s) && Enabled(s, Deliver(t, c)) && d != c && d in s.th[t].pending
    requires d < |s.ctx| && c < |s.ctx| && s.ctx[d].signal == s.ctx[c].signal && s.th[t].action < |s.action|
    requires 1 <= s.ctx[c].signal <= |s.action[s.th[t].action]|
    ensures var w := After(s, Deliver(t, c));
            && t < |w.th| && d in w.th[t].pending
            && (Armed(w, t, d) <==> ActionOf(s, t, c).flags / 4 % 2 == 0)
            && (w.action == s.action <==> ActionOf(s, t, c).flags / 4 % 2 == 0)
  {
    hide ListOk, Shifted, Without, Index;
    InList(s, Pending(t), c);
    var m := Saved(s, t, c);
    SamePartition(s, m);
    assert ListOk(m, Pending(t));
    ShiftedList(m, c, Handling(t), true, Pending(t));
    ShiftedRest(m, c, Handling(t), true);
    PendingRest(m, t, c, d);
  }

  lemma ShiftedRest(s: State, c: nat, to: Place, front: bool)
    requires c < |s.place| && Known(s, s.place[c]) && Known(s, to) && c in ListOf(s, s.place[c])
    ensures var w := Shifted(s, c, to, front);
            w.ctx == s.ctx && w.action == s.action && |w.th| == |s.th| && forall t: nat :: t < |s.th| ==> w.th[t].action == s.th[t].action
  {
  }

  lemma PendingRest(s: State, t: nat, c: nat, d: nat)
    requires Partition(s) && t < |s.th| && c in s.th[t].pending && d in s.th[t].pending && d != c
    ensures d in Without(s.th[t].pending, c)
  {
    assert ListOk(s, Pending(t));
    WithoutIs(s.th[t].pending, c);
  }

  lemma StepAt(r: seq<State>, es: seq<Event>, k: nat)
    requires Run(r, es) && k < |es|
    ensures |r| == |es| + 1 && Partition(r[k]) && Inv(r[k]) && Enabled(r[k], es[k]) && r[k + 1] == After(r[k], es[k])
    ensures |r[k].th| == |r[0].th|
  {
    RunInv(r, es, k);
  }

  lemma FullBottom(a: seq<Saving>, b: seq<Saving>, n: nat)
    requires SameBottom(a, b, n) && |a| == |b| == n
    ensures a == b
  {
    assert a[0..] == a && b[0..] == b;
  }

  // ----- the code --------------------------------------------------------------------------------------

  class Signals {
    var ctx: seq<Context>
    var free: seq<nat>
    var th: seq<Thread>
    var action: seq<seq<Action>>
    ghost var place: seq<Place>

    ghost function V(): State
      reads this
    {
      State(ctx, free, th, action, place)
    }

    ghost predicate Valid()
      reads this
    {
      Inv(V())
    }

    /** signalInit: all 4096 contexts are free. */
    constructor (action: seq<seq<Action>>, threads: seq<nat>)
      requires forall p :: 0 <= p < |action| ==> |action[p]| == 64
      requires forall t :: 0 <= t < |threads| ==> threads[t] < |action|
      ensures Valid() && Booted(V()) && |th| == |threads| && this.action == action
      ensures |ctx| == |free| == 4096 && forall k :: 0 <= k < 4096 ==> free[k] == 4095 - k
      ensures forall t :: 0 <= t < |th| ==> th[t].blocked == {} && th[t].action == threads[t]
    {
      var zero := Frame(0, 0, 0, []);
      ctx := seq(CONTEXTS, _ => Context(0, zero, {}));
      th := seq(|threads|, (t: nat) requires t < |threads| => Thread(zero, {}, [], [], threads[t]));
      this.action := action;
      place := seq(CONTEXTS, _ => Place.Free);
      free := [];
      new;
      var i := 0;
      while i < CONTEXTS
        invariant 0 <= i <= CONTEXTS && |free| == i && forall k :: 0 <= k < i ==> free[k] == i - 1 - k
        modifies this`free
      {
        free := [i] + free;
        i := i + 1;
      }
      BootedInv(V());
    }

    /** LIST_REMOVE from its list and LIST_INSERT at one end of another. */
    method Move(c: nat, from: Place, to: Place, front: bool)
      requires c < |place| && place[c] == from && Known(V(), from) && Known(V(), to) && c in ListOf(V(), from) && from != to
      modifies this`free, this`th, this`place
      ensures V() == Shifted(old(V()), c, to, front)
    {
      match from {
        case Free => free := Without(free, c);
        case Pending(t) => th := th[t := th[t].(pending := Without(th[t].pending, c))];
        case Handling(t) => th := th[t := th[t].(handling := Without(th[t].handling, c))];
      }
      match to {
        case Free => free := if front then [c] + free else free + [c];
        case Pending(t) => th := th[t := th[t].(pending := if front then [c] + th[t].pending else th[t].pending + [c])];
        case Handling(t) => th := th[t := th[t].(handling := if front then [c] + th[t].handling else th[t].handling + [c])];
      }
      place := place[c := to];
    }

    /** threadSignalSend; false where the kernel panics for want of a context. */
    method Send(t: nat, sig: nat) returns (ok: bool)
      requires Valid() && t < |th| && 1 <= sig <= 64
      modifies this`ctx, this`free, this`th, this`place
      ensures Valid() && ok == (old(free) != [])
      ensures ok ==> var c := old(free)[0];
                && c < |old(ctx)| && free == old(free)[1..] && th == old(th)[t := old(th)[t].(pending := old(th)[t].pending + [c])]
                && ctx == old(ctx)[c := old(ctx)[c].(signal := sig)]
      ensures if ok then V() == After(old(V()), Event.Send(t, sig)) else V() == old(V())
    {
      hide Shifted, Inv, ListOk;
      if free == [] {
        return false;
      }
      ghost var s := V();
      AfterInv(s, Event.Send(t, sig));
      PartitionInv(s);
      SendIs(s, t, sig);
      InFree(s);
      var c := free[0];
      ctx := ctx[c := ctx[c].(signal := sig)];
      Move(c, Free, Pending(t), false);
      return true;
    }

    /** getFirstPendingSignal: the oldest pending signal that is not blocked. */
    method FirstPending(t: nat) returns (c: int)
      requires Valid() && t < |th|
      ensures c == -1 ==> forall k :: 0 <= k < |th[t].pending| ==> Blocked(V(), t, th[t].pending[k])
      ensures c != -1 ==> exists k :: 0 <= k < |th[t].pending| && th[t].pending[k] == c && !Blocked(V(), t, c)
                            && forall j :: 0 <= j < k ==> Blocked(V(), t, th[t].pending[j])
    {
      var k := 0;
      PendingInside(V(), t);
      while k < |th[t].pending|
        invariant 0 <= k <= |th[t].pending| && forall j :: 0 <= j < k ==> Blocked(V(), t, th[t].pending[j])
      {
        if ctx[th[t].pending[k]].signal !in th[t].blocked {
          return th[t].pending[k];
        }
        k := k + 1;
      }
      return -1;
    }

    /**
     handleSignal, for default actions that return: ends with every pending signal blocked, and with
     the handlers it entered stacked so that returning from all of them brings back frame and mask.
     */
    method HandleSignal(t: nat)
      requires Valid() && t < |th|
      modifies this
      ensures Valid() && |th| == |old(th)| && forall c :: c in th[t].pending ==> Blocked(V(), t, c)
      ensures |th[t].pending| <= |old(th)[t].pending| && Stacked(old(V()), V(), t)
    {
      hide Inv, Stacked, Stack, Blocked, After, Armed;
      ghost var s0 := V();
      PartitionInv(s0);
      StackedSelf(s0, t);
      while true
        invariant Valid() && Partition(V()) && |th| == |s0.th| && |th[t].pending| <= |s0.th[t].pending| && Stacked(s0, V(), t)
        decreases |th[t].pending|
      {
        ghost var s := V();
        PendingInside(s, t);
        var sc := FirstPending(t);
        if sc == -1 {
          break;
        }
        var c: nat := sc;
        assert c in th[t].pending;
        HandleOne(t, c);
        PartitionInv(V());
        StackedMore(s0, s, V(), t, c);
      }
    }

    /** One turn of handleSignal's loop. */
    method HandleOne(t: nat, c: nat)
      requires Valid() && t < |th| && c in th[t].pending
      modifies this
      ensures Valid() && (if Armed(old(V()), t, c) then Enabled(old(V()), Deliver(t, c)) && V() == After(old(V()), Deliver(t, c))
                          else Enabled(old(V()), Drop(t, c)) && V() == After(old(V()), Drop(t, c)))
      ensures var p := old(th)[t].action;
              && c < |old(ctx)| && p < |old(action)| && |th| == |old(th)|
              && var sig := old(ctx)[c].signal;
              && 1 <= sig <= |old(action)[p]|
              && var a, x, y := old(action)[p][sig - 1], old(th)[t], th[t];
              && (a.handler == 0 ==> Dropped(old(V()), V(), t, c))
              && (a.handler != 0 ==>
                    && y.tf.epc == a.handler && y.tf.ra == 0x3F_FFFF_D000
                    && y.tf.sp % 4096 == 0 && y.tf.sp <= x.tf.sp < y.tf.sp + 4096 && y.tf.rest == x.tf.rest
                    && y.blocked == x.blocked + {sig} + a.mask && y.handling == [c] + x.handling
                    && Entered(old(V()), V(), t, c))
    {
      hide Shifted, Inv, ListOk;
      ghost var s := V();
      PartitionInv(s);
      InList(s, Pending(t), c);
      SignalInside(s, t, c);
      var a := action[th[t].action][ctx[c].signal - 1];
      if a.handler == 0 {
        AfterInv(s, Drop(t, c));
        DropIs(s, t, c);
        Move(c, Pending(t), Free, true);
        return;
      }
      AfterInv(s, Deliver(t, c));
      DeliverIs(s, t, c);
      Save(t, c);
      Move(c, Pending(t), Handling(t), true);
    }

    /** handleSignal's saving and entering. */
    method Save(t: nat, c: nat)
      requires t < |th| && c < |ctx| && th[t].action < |action| && 1 <= ctx[c].signal <= |action[th[t].action]|
      modifies this`ctx, this`th, this`action
      ensures V() == Saved(old(V()), t, c)
    {
      var x, sig := th[t], ctx[c].signal;
      var a := action[x.action][sig - 1];
      ctx := ctx[c := Context(sig, x.tf, x.blocked)];
      th := th[t := x.(blocked := x.blocked + {sig} + a.mask, tf := Entry(x.tf, a.handler))];
      if a.flags / 4 % 2 == 1 {
        action := action[x.action := action[x.action][sig - 1 := Action(0, a.flags, {})]];
      }
    }

    /** rt_sigreturn inside a handler. */
    method SigReturn(t: nat)
      requires Valid() && t < |th| && th[t].handling != []
      modifies this`free, this`th, this`place
      ensures Valid() && V() == After(old(V()), Return(t))
      ensures var x, c := old(th)[t], old(th)[t].handling[0];
              && c < |ctx| && free == [c] + old(free)
              && th == old(th)[t := x.(tf := ctx[c].tf, blocked := ctx[c].mask, handling := x.handling[1..])]
    {
      hide Shifted, Inv, ListOk;
      ghost var s := V();
      AfterInv(s, Return(t));
      PartitionInv(s);
      ReturnIs(s, t);
      var c := th[t].handling[0];
      InList(s, Handling(t), c);
      th := th[t := th[t].(tf := ctx[c].tf, blocked := ctx[c].mask)];
      Move(c, Handling(t), Free, true);
    }

    /** rt_sigprocmask. */
    method ProcMask(t: nat, how: int, mask: set<nat>) returns (r: int, oldMask: set<nat>)
      requires Valid() && t < |th|
      modifies this`th
      ensures Valid() && oldMask == old(th)[t].blocked && r == if 0 <= how <= 2 then 0 else -1
      ensures r == -1 ==> th == old(th)
      ensures r == 0 ==> V() == After(old(V()), Mask(t, if how == 0 then Block else if how == 1 then Unblock else SetMask, mask))
      ensures r == 0 ==> th == old(th)[t := old(th)[t].(blocked := th[t].blocked)]
      ensures r == 0 ==> forall k :: k in th[t].blocked <==>
                           if how == 0 then k in oldMask || k in mask else if how == 1 then k in oldMask && k !in mask else k in mask
    {
      ghost var s := V();
      PartitionInv(s);
      AfterInv(s, Mask(t, if how == 0 then Block else if how == 1 then Unblock else SetMask, mask));
      hide Inv, Partition;
      oldMask := th[t].blocked;
      match how {
        case 0 => th := th[t := th[t].(blocked := oldMask + mask)];
        case 1 => th := th[t := th[t].(blocked := oldMask - mask)];
        case 2 => th := th[t := th[t].(blocked := mask)];
        case _ => return -1, oldMask;
      }
      return 0, oldMask;
    }

    /** rt_sigaction with a new action, once its copies have gone well. */
    method SigAction(t: nat, sig: int, a: Action) returns (r: int)
      requires Valid() && t < |th|
      modifies this`action
      ensures Valid() && r == if 1 <= sig <= 64 then 0 else -1
      ensures r == -1 ==> action == old(action)
      ensures r == 0 ==> var p := th[t].action;
                && p < |old(action)| && |old(action)[p]| == 64 && action == old(action)[p := old(action)[p][sig - 1 := a]]
                && V() == After(old(V()), SetAction(p, sig, a))
    {
      ghost var s := V();
      PartitionInv(s);
      if sig < 1 || sig > SIGNALS {
        return -1;
      }
      var p := th[t].action;
      AfterInv(s, SetAction(p, sig, a));
      hide Inv, Partition;
      SizesInv(s, p);
      action := action[p := action[p][sig - 1 := a]];
      return 0;
    }

    /** The two loops of threadFree: every context of the thread becomes free, and no other thread notices. */
    method ThreadFree(t: nat)
      requires Valid() && t < |th|
      modifies this`free, this`th, this`place
      ensures Valid() && V() == After(old(V()), Exit(t))
      ensures th == old(th)[t := old(th)[t].(pending := [], handling := [])]
      ensures free == Reversed(old(th)[t].handling) + Reversed(old(th)[t].pending) + old(free)
    {
      hide Inv, Partition, Shifted, ListOf, ListOk;
      ghost var s := V();
      AfterInv(s, Exit(t));
      PartitionInv(s);
      LeftIs(s, t);
      while th[t].pending != []
        invariant |th| == |s.th| && t < |th| && Partition(V()) && Left(V(), t) == Left(s, t)
        decreases |th[t].pending|
      {
        GiveBack(V(), t);
        Move(th[t].pending[0], Pending(t), Free, true);
      }
      while th[t].handling != []
        invariant |th| == |s.th| && t < |th| && Partition(V()) && Left(V(), t) == Left(s, t) && th[t].pending == []
        decreases |th[t].handling|
      {
        GiveBack(V(), t);
        Move(th[t].handling[0], Handling(t), Free, true);
      }
    }
  }

  lemma SizesInv(s: State, p: nat)
    requires Inv(s)
    ensures p < |s.action| ==> |s.action[p]| == SIGNALS
  {
  }

  lemma PartitionInv(s: State)
    requires Inv(s)
    ensures Partition(s)
  {
  }

  /** The signal of context c is in t's mask. */
  ghost predicate Blocked(s: State, t: nat, c: nat)
    requires t < |s.th|
  {
    c < |s.ctx| && s.ctx[c].signal in s.th[t].blocked
  }

  lemma PendingInside(s: State, t: nat)
    requires Inv(s) && t < |s.th|
    ensures forall k :: 0 <= k < |s.th[t].pending| ==> s.th[t].pending[k] < |s.ctx|
  {
    forall k | 0 <= k < |s.th[t].pending| ensures s.th[t].pending[k] < |s.ctx| {
      assert s.th[t].pending[k] in ListOf(s, Pending(t));
      InList(s, Pending(t), s.th[t].pending[k]);
    }
  }

  lemma SignalInside(s: State, t: nat, c: nat)
    requires Inv(s) && t < |s.th| && c in s.th[t].pending
    ensures c < |s.ctx| == |s.place| && s.th[t].action < |s.action| && 1 <= s.ctx[c].signal <= |s.action[s.th[t].action]|
  {
    InList(s, Pending(t), c);
  }

  /** b's stack is a's with frames on top that unwind to a's frame and mask. */
  ghost predicate Stacked(a: State, b: State, t: nat)
    requires Partition(a) && Partition(b) && t < |a.th| == |b.th|
  {
    var x, y := Stack(a, t), Stack(b, t);
    && |x| <= |y| && y[|y| - |x|..] == x
    && if |x| == |y| then b.th[t].tf == a.th[t].tf && b.th[t].blocked == a.th[t].blocked
       else y[|y| - |x| - 1] == Saving(a.th[t].tf, a.th[t].blocked)
  }

  lemma StackedSelf(a: State, t: nat)
    requires Partition(a) && t < |a.th|
    ensures Stacked(a, a, t)
  {
  }

  lemma StackedMore(s0: State, s: State, w: State, t: nat, c: nat)
    requires Inv(s) && Inv(w) && Partition(s0) && t < |s0.th| == |s.th| && Stacked(s0, s, t) && c in s.th[t].pending
    requires if Armed(s, t, c) then Enabled(s, Deliver(t, c)) && w == After(s, Deliver(t, c)) else Enabled(s, Drop(t, c)) && w == After(s, Drop(t, c))
    ensures |w.th| == |s.th| && Stacked(s0, w, t) && |w.th[t].pending| < |s.th[t].pending|
  {
    hide Armed, Stack, After, Inv, Partition, Stacked, Enabled;
    var e := if Armed(s, t, c) then Deliver(t, c) else Drop(t, c);
    StackAfter(s, e, t);
    PartitionInv(s);
    PartitionInv(w);
    PendingAfter(s, t, c);
    StackedStep(s0, s, w, t, e.Deliver?);
  }

  lemma StackedStep(s0: State, s: State, w: State, t: nat, pushed: bool)
    requires Partition(s0) && Partition(s) && Partition(w) && t < |s0.th| == |s.th| == |w.th| && Stacked(s0, s, t)
    requires Stack(w, t) == if pushed then [Saving(s.th[t].tf, s.th[t].blocked)] + Stack(s, t) else Stack(s, t)
    requires !pushed ==> w.th[t].tf == s.th[t].tf && w.th[t].blocked == s.th[t].blocked
    ensures Stacked(s0, w, t)
  {
    hide Stack, Partition;
  }

  lemma PendingAfter(s: State, t: nat, c: nat)
    requires Inv(s) && t < |s.th| && c in s.th[t].pending
    ensures Enabled(s, Deliver(t, c)) ==> |After(s, Deliver(t, c)).th| == |s.th| && |After(s, Deliver(t, c)).th[t].pending| < |s.th[t].pending|
    ensures var w := After(s, Drop(t, c));
            (|w.th| == |s.th| && |w.th[t].pending| < |s.th[t].pending| && w.th[t].tf == s.th[t].tf && w.th[t].blocked == s.th[t].blocked)
  {
    InList(s, Pending(t), c);
    hide Inv, Partition;
  }
}
