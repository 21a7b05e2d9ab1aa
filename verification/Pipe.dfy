/**
 A pipe shared by any number of threads: a ring of 65536 bytes under a spin lock, with sleep and
 wakeup as the scheduler runs them, one lock at a time.
 */
module Pipe {
  type Byte = b: int | 0 <= b < 256
  const SIZE := 65536

  // ----- the ring -----------------------------------------------------------------------------

  /** Ring and counters; `written` is every byte ever put in, `got` every byte ever taken out. */
  datatype Queue = Queue(nread: nat, nwrite: nat, data: seq<Byte>, written: seq<Byte>, got: seq<Byte>)

  ghost predicate QueueOk(q: Queue) {
    && |q.data| == SIZE && q.nread <= q.nwrite <= q.nread + SIZE
    && |q.written| == q.nwrite && |q.got| == q.nread
    && q.got <= q.written
    && forall k :: q.nread <= k < q.nwrite ==> q.data[k % SIZE] == q.written[k]
  }

  predicate Empty(q: Queue) { q.nread == q.nwrite }

  predicate Full(q: Queue) { q.nwrite == q.nread + SIZE }

  function Put(q: Queue, b: Byte): Queue
    requires |q.data| == SIZE
  {
    q.(data := q.data[q.nwrite % SIZE := b], nwrite := q.nwrite + 1, written := q.written + [b])
  }

  function Take(q: Queue): Queue
    requires |q.data| == SIZE
  {
    q.(nread := q.nread + 1, got := q.got + [q.data[q.nread % SIZE]])
  }

  lemma PutOk(q: Queue, b: Byte)
    requires QueueOk(q) && !Full(q)
    ensures QueueOk(Put(q, b))
  {
    var w := Put(q, b);
    forall k | w.nread <= k < w.nwrite ensures w.data[k % SIZE] == w.written[k] {
      if k < q.nwrite {
        Apart(k, q.nwrite);
      }
    }
  }

  lemma Apart(k: nat, n: nat)
    requires k < n < k + SIZE
    ensures k % SIZE != n % SIZE
  {
  }

  lemma TakeOk(q: Queue)
    requires QueueOk(q) && !Empty(q)
    ensures QueueOk(Take(q)) && Take(q).got == q.written[..q.nread + 1]
  {
    assert q.data[q.nread % SIZE] == q.written[q.nread];
  }

  /** The pipe's buffer, and the copying that a thread does between taking and leaving the lock. */
  class Buffer {
    var nread: nat
    var nwrite: nat
    var data: seq<Byte>
    ghost var written: seq<Byte>
    ghost var got: seq<Byte>

    ghost function Q(): Queue
      reads this
    {
      Queue(nread, nwrite, data, written, got)
    }

    constructor ()
      ensures QueueOk(Q()) && written == [] && got == [] && |data| == 65536 && nread == nwrite == 0
    {
      nread, nwrite, data, written, got := 0, 0, seq<Byte>(SIZE, _ => 0), [], [];
    }

    /** One byte goes in. */
    method PutByte(b: Byte)
      requires QueueOk(Q()) && nwrite != nread + 65536
      modifies this
      ensures QueueOk(Q()) && written == old(written) + [b] && got == old(got) && nread == old(nread) && nwrite == old(nwrite) + 1
      ensures |old(data)| == 65536 && data == old(data)[old(nwrite) % 65536 := b]
    {
      PutOk(Q(), b);
      hide QueueOk;
      data := data[nwrite % SIZE := b];
      nwrite := nwrite + 1;
      written := written + [b];
    }

    /** pipeWrite's loop up to its next sleep: bytes go in until they are all in or the ring is full. */
    method WriteSome(src: seq<Byte>, from: nat) returns (i: nat)
      requires QueueOk(Q()) && from <= |src|
      modifies this
      ensures QueueOk(Q()) && from <= i <= |src| && written == old(written) + src[from..i] && got == old(got)
      ensures nread == old(nread) && nwrite == old(nwrite) + (i - from) && (i < |src| ==> nwrite == nread + 65536)
    {
      hide QueueOk;
      i := from;
      while i < |src| && nwrite != nread + SIZE
        invariant QueueOk(Q()) && from <= i <= |src| && written == old(written) + src[from..i] && got == old(got)
        invariant nread == old(nread) && nwrite == old(nwrite) + (i - from)
      {
        PutByte(src[i]);
        assert src[from..i + 1] == src[from..i] + [src[i]];
        i := i + 1;
      }
    }

    /** pipeRead's copy loop: the oldest unread bytes, at most n of them. */
    method ReadSome(n: nat) returns (dst: seq<Byte>)
      requires QueueOk(Q())
      modifies this
      ensures QueueOk(Q()) && written == old(written) && got == old(got) + dst
      ensures |dst| == if old(nwrite) - old(nread) < n then old(nwrite) - old(nread) else n
    {
      dst := [];
      while |dst| < n
        invariant QueueOk(Q()) && written == old(written) && got == old(got) + dst && |dst| <= n
        decreases n - |dst|
      {
        if nread == nwrite {
          break;
        }
        TakeOk(Q());
        var ch := data[nread % SIZE];
        nread := nread + 1;
        got := got + [ch];
        dst := dst + [ch];
      }
    }
  }

  // ----- threads ------------------------------------------------------------------------------

  datatype Chan = NRead | NWrite
  datatype Op = Read(n: nat, dst: seq<Byte>) | Write(src: seq<Byte>, i: nat)

  /**
   Where a thread is. Look: at its loop test, holding the pipe lock. Wake(c, k): in wakeup, about to
   look at thread k. Fall, Dive, Sink: in sleep, before taking its own lock, before letting go of the
   pipe lock, before marking itself asleep. Asleep: switched out until somebody clears `sleeping`.
   */
  datatype Pc = Idle | Enter(op: Op) | Look(op: Op) | Copy(op: Op) | Wake(c: Chan, k: nat, op: Op, rest: bool)
              | Fall(c: Chan, op: Op) | Dive(c: Chan, op: Op) | Sink(c: Chan, op: Op) | Asleep(c: Chan, op: Op) | Leave(op: Op)

  datatype Thread = Thread(pc: Pc, sleeping: bool, chan: Chan, locked: bool)

  /** lock is the holder of the pipe lock, or -1. */
  datatype State = State(lock: int, th: seq<Thread>, q: Queue)

  predicate HoldsPipe(pc: Pc) {
    pc.Look? || pc.Copy? || pc.Wake? || pc.Fall? || pc.Dive? || pc.Leave?
  }

  /** Asleep on c, or committed to it. */
  predicate Waits(t: Thread, c: Chan) {
    match t.pc
    case Fall(d, _) => d == c
    case Dive(d, _) => d == c
    case Sink(d, _) => d == c
    case Asleep(d, _) => d == c && t.sleeping
    case _ => false
  }

  /** The thread will, before it gives up the pipe lock, wake thread t if that waits on c. */
  predicate WillWake(w: Thread, c: Chan, t: nat) {
    match w.pc
    case Look(op) => op.Write? && c == NRead
    case Copy(op) => c == NWrite
    case Wake(d, k, _, _) => d == c && k <= t
    case _ => false
  }

  function Other(c: Chan): Chan { if c == NRead then NWrite else NRead }

  predicate Ready(q: Queue, c: Chan) {
    if c == NRead then !Empty(q) else !Full(q)
  }

  /** Lock words, sleep flags and program counters agree. */
  ghost predicate ThreadOk(s: State, t: nat)
    requires t < |s.th|
  {
    var x := s.th[t];
    && (s.lock == t <==> HoldsPipe(x.pc))
    && (x.locked <==> x.pc.Dive? || x.pc.Sink?)
    && (x.sleeping ==> x.pc.Asleep? && x.chan == x.pc.c)
    && (x.pc.Wake? ==> x.pc.k <= |s.th| && (if x.pc.rest then x.pc.c == NRead && x.pc.op.Write? && Full(s.q)
                                            else x.pc.c == (if x.pc.op.Write? then NRead else NWrite)))
    && ((x.pc.Fall? || x.pc.Dive? || x.pc.Sink? || x.pc.Asleep?) ==> (x.pc.c == NRead <==> x.pc.op.Read?))
    && (x.pc.Copy? ==> x.pc.op.Read?)
    && (x.pc != Idle ==> OpOk(s.q, x.pc))
  }

  /**
   While a reader holds the lock, what it has copied is the latest of what was ever taken out; and no
   call is about to end before its work is done.
   */
  ghost predicate OpOk(q: Queue, pc: Pc)
    requires pc != Idle
  {
    match pc.op
    case Write(src, i) => i <= |src| && src != [] && ((pc.Wake? && !pc.rest) || pc.Leave? ==> i == |src|)
    case Read(n, dst) =>
      && (pc.Copy? && dst == [] && n > 0 ==> !Empty(q)) && ((pc.Wake? || pc.Leave?) && n > 0 ==> dst != [])
      && |dst| <= n && (HoldsPipe(pc) ==> |dst| <= |q.got| && dst == q.got[|q.got| - |dst|..])
      && (!pc.Copy? && !pc.Wake? && !pc.Leave? ==> dst == [])
  }

  /** A waiting thread has nothing to be woken for, or the holder of the lock is about to wake it. */
  ghost predicate NotForgotten(s: State, t: nat, c: Chan)
    requires t < |s.th|
  {
    Waits(s.th[t], c) ==> !Ready(s.q, c) || (0 <= s.lock < |s.th| && WillWake(s.th[s.lock], c, t))
  }

  ghost predicate Inv(s: State) {
    && QueueOk(s.q) && -1 <= s.lock < |s.th|
    && (forall t: nat :: t < |s.th| ==> ThreadOk(s, t))
    && (forall t: nat, c :: t < |s.th| ==> NotForgotten(s, t, c))
    && (forall t: nat, u: nat :: t < |s.th| && u < |s.th| ==> !(Waits(s.th[t], NRead) && Waits(s.th[u], NWrite)))
  }

  // ----- steps --------------------------------------------------------------------------------

  function Moved(s: State, t: nat, pc: Pc): State
    requires t < |s.th|
  {
    s.(th := s.th[t := s.th[t].(pc := pc)])
  }

  /** What thread t does next; a thread that cannot go on stays where it is. `op` is its next request when it is idle. */
  function Next(s: State, t: nat, op: Op): State
    requires t < |s.th| && |s.q.data| == SIZE
  {
    var x := s.th[t];
    match x.pc {
      case Idle => if (op.Write? && op.src != [] && op.i == 0) || (op.Read? && op.dst == []) then Moved(s, t, Enter(op)) else s
      case Enter(o) => if s.lock == -1 then Moved(s.(lock := t), t, Look(o)) else s
      case Look(o) => LookNext(s, t, o)
      case Copy(o) =>
        if o.Read? && |o.dst| < o.n && !Empty(s.q) then
          Moved(s.(q := Take(s.q)), t, Copy(Read(o.n, o.dst + [s.q.data[s.q.nread % SIZE]])))
        else Moved(s, t, Wake(NWrite, 0, o, false))
      case Wake(c, k, o, rest) => WakeNext(s, t, c, k, o, rest)
      case Fall(c, o) => s.(th := s.th[t := x.(pc := Dive(c, o), locked := true)])
      case Dive(c, o) => Moved(s.(lock := -1), t, Sink(c, o))
      case Sink(c, o) => s.(th := s.th[t := Thread(Asleep(c, o), true, c, false)])
      case Asleep(c, o) => if x.sleeping then s else Moved(s, t, Enter(o))
      case Leave(o) => Moved(s.(lock := -1), t, Idle)
    }
  }

  function LookNext(s: State, t: nat, o: Op): State
    requires t < |s.th| && |s.q.data| == SIZE
  {
    match o {
      case Read(_, _) => if Empty(s.q) then Moved(s, t, Fall(NRead, o)) else Moved(s, t, Copy(o))
      case Write(src, i) =>
        if i < |src| then
          if Full(s.q) then Moved(s, t, Wake(NRead, 0, o, true))
          else Moved(s.(q := Put(s.q, src[i])), t, Look(Write(src, i + 1)))
        else Moved(s, t, Wake(NRead, 0, o, false))
    }
  }

  /** One turn of wakeup's loop; it waits for the lock of the thread it looks at. */
  function WakeNext(s: State, t: nat, c: Chan, k: nat, o: Op, rest: bool): State
    requires t < |s.th|
  {
    if k >= |s.th| then Moved(s, t, if rest then Fall(NWrite, o) else Leave(o))
    else if s.th[k].locked then s
    else
      var woken := if s.th[k].sleeping && s.th[k].chan == c then s.(th := s.th[k := s.th[k].(sleeping := false)]) else s;
      Moved(woken, t, Wake(c, k + 1, o, rest))
  }

  // ----- the invariant over every step ----------------------------------------------------------

  /** Inv at the threads one by one. */
  lemma InvAt(s: State, t: nat, u: nat)
    requires Inv(s) && t < |s.th| && u < |s.th|
    ensures ThreadOk(s, t) && ThreadOk(s, u) && NotForgotten(s, u, NRead) && NotForgotten(s, u, NWrite)
    ensures !(Waits(s.th[t], NRead) && Waits(s.th[u], NWrite)) && !(Waits(s.th[u], NRead) && Waits(s.th[t], NWrite))
  {
  }

  /** Steps that take no byte and wake nobody: only thread t moves. */
  ghost predicate OnlyMoves(s: State, w: State, t: nat) {
    t < |s.th| == |w.th| && w.q == s.q && forall u: nat :: u < |s.th| && u != t ==> w.th[u] == s.th[u]
  }

  /** Nobody is forgotten when the moving thread keeps the lock, keeps its promises, and starts no wait that is wrong. */
  lemma MoveHeld(s: State, w: State, t: nat)
    requires Inv(s) && OnlyMoves(s, w, t) && w.lock == s.lock == t && ThreadOk(w, t)
    requires forall c, u: nat :: u < |s.th| && u != t && Waits(s.th[u], c) && WillWake(s.th[t], c, u) ==> WillWake(w.th[t], c, u)
    requires forall c :: Waits(w.th[t], c) ==> !Ready(s.q, c)
    requires forall c, u: nat :: u < |s.th| && u != t && Waits(w.th[t], c) ==> !Waits(s.th[u], Other(c))
    ensures Inv(w)
  {
    forall u: nat | u < |w.th| ensures ThreadOk(w, u) && NotForgotten(w, u, NRead) && NotForgotten(w, u, NWrite) {
      InvAt(s, t, u);
    }
    forall u: nat, v: nat | u < |w.th| && v < |w.th| ensures !(Waits(w.th[u], NRead) && Waits(w.th[v], NWrite)) {
      InvAt(s, u, v);
    }
  }

  /** Taking the lock, which was free. */
  lemma MoveTakes(s: State, w: State, t: nat)
    requires Inv(s) && OnlyMoves(s, w, t) && s.lock == -1 && w.lock == t && ThreadOk(w, t)
    requires !Waits(w.th[t], NRead) && !Waits(w.th[t], NWrite)
    ensures Inv(w)
  {
    forall u: nat | u < |w.th| ensures ThreadOk(w, u) && NotForgotten(w, u, NRead) && NotForgotten(w, u, NWrite) {
      InvAt(s, t, u);
    }
    forall u: nat, v: nat | u < |w.th| && v < |w.th| ensures !(Waits(w.th[u], NRead) && Waits(w.th[v], NWrite)) {
      InvAt(s, u, v);
    }
  }

  /** Giving the lock up with no promise left open. */
  lemma MoveGives(s: State, w: State, t: nat)
    requires Inv(s) && OnlyMoves(s, w, t) && s.lock == t && w.lock == -1 && ThreadOk(w, t)
    requires forall c, u: nat :: u < |s.th| ==> !WillWake(s.th[t], c, u)
    requires forall c :: Waits(w.th[t], c) ==> Waits(s.th[t], c)
    ensures Inv(w)
  {
    forall u: nat | u < |w.th| ensures ThreadOk(w, u) && NotForgotten(w, u, NRead) && NotForgotten(w, u, NWrite) {
      InvAt(s, t, u);
    }
    forall u: nat, v: nat | u < |w.th| && v < |w.th| ensures !(Waits(w.th[u], NRead) && Waits(w.th[v], NWrite)) {
      InvAt(s, u, v);
    }
  }

  /** Moves of a thread that neither holds nor takes the lock. */
  lemma MoveFree(s: State, w: State, t: nat)
    requires Inv(s) && OnlyMoves(s, w, t) && w.lock == s.lock != t && ThreadOk(w, t)
    requires forall c :: Waits(w.th[t], c) ==> Waits(s.th[t], c)
    ensures Inv(w)
  {
    forall u: nat | u < |w.th| ensures ThreadOk(w, u) && NotForgotten(w, u, NRead) && NotForgotten(w, u, NWrite) {
      InvAt(s, t, u);
    }
    forall u: nat, v: nat | u < |w.th| && v < |w.th| ensures !(Waits(w.th[u], NRead) && Waits(w.th[v], NWrite)) {
      InvAt(s, u, v);
    }
  }

  /** One byte goes in or out under the lock: nobody waits for the opposite any more. */
  lemma MoveByte(s: State, w: State, t: nat, c: Chan)
    requires Inv(s) && t < |s.th| == |w.th| && w.lock == s.lock == t && QueueOk(w.q) && ThreadOk(w, t)
    requires forall u: nat :: u < |s.th| && u != t ==> w.th[u] == s.th[u]
    requires HoldsPipe(s.th[t].pc) && HoldsPipe(w.th[t].pc) && !Waits(w.th[t], NRead) && !Waits(w.th[t], NWrite)
    requires Ready(s.q, Other(c)) && forall u: nat :: u < |s.th| ==> !WillWake(s.th[t], Other(c), u) && WillWake(w.th[t], c, u)
    ensures Inv(w)
  {
    forall u: nat | u < |w.th| ensures ThreadOk(w, u) && NotForgotten(w, u, NRead) && NotForgotten(w, u, NWrite) {
      InvAt(s, t, u);
    }
    forall u: nat, v: nat | u < |w.th| && v < |w.th| ensures !(Waits(w.th[u], NRead) && Waits(w.th[v], NWrite)) {
      InvAt(s, u, v);
    }
  }

  lemma LookInv(s: State, t: nat, o: Op)
    requires Inv(s) && t < |s.th| && s.th[t].pc == Look(o)
    ensures Inv(LookNext(s, t, o))
  {
    var w := LookNext(s, t, o);
    InvAt(s, t, t);
    match o {
      case Read(_, _) =>
        if Empty(s.q) {
          forall u: nat | u < |s.th| && u != t ensures !Waits(s.th[u], NWrite) {
            InvAt(s, t, u);
          }
        }
        MoveHeld(s, w, t);
      case Write(src, i) =>
        if i < |src| && !Full(s.q) {
          PutOk(s.q, src[i]);
          MoveByte(s, w, t, NRead);
        } else {
          MoveHeld(s, w, t);
        }
    }
  }

  lemma CopyInv(s: State, t: nat, op: Op)
    requires Inv(s) && t < |s.th| && s.th[t].pc.Copy?
    ensures Inv(Next(s, t, op))
  {
    var w, o := Next(s, t, op), s.th[t].pc.op;
    InvAt(s, t, t);
    if |o.dst| < o.n && !Empty(s.q) {
      TakeOk(s.q);
      MoveByte(s, w, t, NWrite);
    } else {
      MoveHeld(s, w, t);
    }
  }

  lemma WakeInv(s: State, t: nat, c: Chan, k: nat, o: Op, rest: bool)
    requires Inv(s) && t < |s.th| && s.th[t].pc == Wake(c, k, o, rest)
    ensures Inv(WakeNext(s, t, c, k, o, rest))
  {
    var w := WakeNext(s, t, c, k, o, rest);
    InvAt(s, t, t);
    if k >= |s.th| {
      forall u: nat | u < |s.th| && u != t ensures !(rest && Waits(s.th[u], NRead)) {
        InvAt(s, t, u);
      }
      MoveHeld(s, w, t);
    } else if !s.th[k].locked {
      InvAt(s, t, k);
      WokenInv(s, w, t, c, k);
    }
  }

  /** The thread that wakeup looked at is not waiting on c any more. */
  lemma WokenInv(s: State, w: State, t: nat, c: Chan, k: nat)
    requires Inv(s) && t < |s.th| && s.th[t].pc.Wake? && s.th[t].pc.c == c && s.th[t].pc.k == k < |s.th| && !s.th[k].locked
    requires w == WakeNext(s, t, c, k, s.th[t].pc.op, s.th[t].pc.rest)
    ensures Inv(w)
  {
    InvAt(s, t, k);
    assert !Waits(w.th[k], c);
    forall u: nat | u < |w.th| ensures ThreadOk(w, u) && NotForgotten(w, u, NRead) && NotForgotten(w, u, NWrite) {
      InvAt(s, t, u);
    }
    forall u: nat, v: nat | u < |w.th| && v < |w.th| ensures !(Waits(w.th[u], NRead) && Waits(w.th[v], NWrite)) {
      InvAt(s, u, v);
    }
  }

  /** Every step of every thread keeps the invariant. */
  lemma StepInv(s: State, t: nat, op: Op)
    requires Inv(s) && t < |s.th|
    ensures Inv(Next(s, t, op))
  {
    hide NotForgotten;
    var w, x := Next(s, t, op), s.th[t];
    InvAt(s, t, t);
    match x.pc {
      case Idle => MoveFree(s, w, t);
      case Enter(o) =>
        if s.lock == -1 {
          MoveTakes(s, w, t);
        }
      case Look(o) => LookInv(s, t, o);
      case Copy(o) => CopyInv(s, t, op);
      case Wake(c, k, o, rest) => WakeInv(s, t, c, k, o, rest);
      case Fall(c, o) => FallInv(s, t, op);
      case Dive(c, o) => MoveGives(s, w, t);
      case Sink(c, o) => MoveFree(s, w, t);
      case Asleep(c, o) => MoveFree(s, w, t);
      case Leave(o) => MoveGives(s, w, t);
    }
  }

  lemma FallInv(s: State, t: nat, op: Op)
    requires Inv(s) && t < |s.th| && s.th[t].pc.Fall?
    ensures Inv(Next(s, t, op))
  {
    InvAt(s, t, t);
    forall u: nat, c | u < |s.th| && u != t && Waits(s.th[t], c) ensures !Waits(s.th[u], Other(c)) {
      InvAt(s, t, u);
    }
    MoveHeld(s, Next(s, t, op), t);
  }

  // ----- every run ------------------------------------------------------------------------------

  /** n threads at rest and an empty pipe. */
  function Initial(n: nat): State {
    State(-1, seq(n, _ => Thread(Idle, false, NRead, false)), Queue(0, 0, seq<Byte>(SIZE, _ => 0), [], []))
  }

  /** A schedule names the thread of each step and, for an idle thread, its next request. */
  ghost function Run(n: nat, schedule: seq<(nat, Op)>): (s: State)
    ensures Inv(s) && |s.th| == n
    decreases |schedule|
  {
    if schedule == [] then
      assert QueueOk(Initial(n).q);
      Initial(n)
    else
      var s, step := Run(n, schedule[..|schedule| - 1]), schedule[|schedule| - 1];
      if step.0 < n then
        StepInv(s, step.0, step.1);
        Next(s, step.0, step.1)
      else s
  }

  /** Under every schedule: what was read is a prefix of what was written, and the counters keep their distance. */
  lemma ReadsArePrefix(n: nat, schedule: seq<(nat, Op)>)
    ensures var q := Run(n, schedule).q;
            q.got <= q.written && q.nread <= q.nwrite <= q.nread + 65536 && |q.got| == q.nread && |q.written| == q.nwrite
  {
  }

  /** No wake-up is lost: with the lock free, a sleeping reader means an empty pipe and a sleeping writer a full one. */
  lemma NoLostWakeup(n: nat, schedule: seq<(nat, Op)>, t: nat)
    requires t < n && Run(n, schedule).lock == -1
    ensures Waits(Run(n, schedule).th[t], NRead) ==> Empty(Run(n, schedule).q)
    ensures Waits(Run(n, schedule).th[t], NWrite) ==> Full(Run(n, schedule).q)
    ensures var x, q := Run(n, schedule).th[t], Run(n, schedule).q;
            x.sleeping ==> if x.chan == NRead then q.nwrite == q.nread else q.nwrite == q.nread + 65536
  {
    InvAt(Run(n, schedule), t, t);
  }

  /** A reader and a writer are never both waiting. */
  lemma NeverBothWait(n: nat, schedule: seq<(nat, Op)>, t: nat, u: nat)
    requires t < n && u < n && Waits(Run(n, schedule).th[t], NRead)
    ensures !Waits(Run(n, schedule).th[u], NWrite)
  {
    InvAt(Run(n, schedule), t, u);
  }

  /** A write call that ends has put all its bytes in, however often it slept. */
  lemma WriteReturns(n: nat, schedule: seq<(nat, Op)>, t: nat)
    requires t < n && Run(n, schedule).th[t].pc.Leave? && Run(n, schedule).th[t].pc.op.Write?
    ensures Run(n, schedule).th[t].pc.op.i == |Run(n, schedule).th[t].pc.op.src|
  {
    InvAt(Run(n, schedule), t, t);
  }

  /** What a read call returns when it ends is the stretch of bytes it took out of the pipe, in order, and not nothing if it asked for something. */
  lemma ReadReturns(n: nat, schedule: seq<(nat, Op)>, t: nat)
    requires t < n && Run(n, schedule).th[t].pc.Leave? && Run(n, schedule).th[t].pc.op.Read?
    ensures var s := Run(n, schedule); var dst := s.th[t].pc.op.dst;
            (|dst| <= s.th[t].pc.op.n && (s.th[t].pc.op.n > 0 ==> dst != []) && |dst| <= |s.q.got| && dst == s.q.written[|s.q.got| - |dst|..|s.q.got|])
  {
    var s := Run(n, schedule);
    InvAt(s, t, t);
    assert s.q.got == s.q.written[..|s.q.got|];
  }

  /** The locks never deadlock: while some thread is neither idle nor asleep, some thread can move. */
  lemma SomeoneMoves(s: State, t: nat, op: Op) returns (u: nat)
    requires Inv(s) && t < |s.th| && s.th[t].pc != Idle && !(s.th[t].pc.Asleep? && s.th[t].sleeping)
    ensures u < |s.th| && Next(s, u, op) != s
  {
    u := t;
    InvAt(s, t, t);
    if s.th[t].pc.Enter? && s.lock != -1 {
      u := s.lock;
      InvAt(s, u, u);
    }
    if s.th[u].pc.Wake? && s.th[u].pc.k < |s.th| && s.th[s.th[u].pc.k].locked {
      var k := s.th[u].pc.k;
      InvAt(s, u, k);
      u := k;
    }
    assert Next(s, u, op).th[u] != s.th[u];
  }

  // ----- one thread undisturbed -----------------------------------------------------------------

  /** n steps of thread t in a row. */
  function Alone(s: State, t: nat, op: Op, n: nat): (w: State)
    requires t < |s.th| && |s.q.data| == SIZE
    ensures |w.th| == |s.th| && |w.q.data| == SIZE
    decreases n
  {
    if n == 0 then s else Alone(Next(s, t, op), t, op, n - 1)
  }

  /** Thread t alone gets from s to w. */
  ghost predicate Gets(s: State, t: nat, op: Op, w: State) {
    t < |s.th| == |w.th| && |s.q.data| == SIZE == |w.q.data| && exists n: nat :: Alone(s, t, op, n) == w
  }

  lemma GetsSelf(s: State, t: nat, op: Op)
    requires t < |s.th| && |s.q.data| == SIZE
    ensures Gets(s, t, op, s)
  {
    assert Alone(s, t, op, 0) == s;
  }

  lemma GetsFirst(s: State, t: nat, op: Op, w: State)
    requires t < |s.th| && |s.q.data| == SIZE && Gets(Next(s, t, op), t, op, w)
    ensures Gets(s, t, op, w)
  {
    hide Next;
    var n: nat :| Alone(Next(s, t, op), t, op, n) == w;
    assert Alone(s, t, op, n + 1) == w;
  }

  lemma NextSizes(s: State, t: nat, op: Op)
    requires t < |s.th| && |s.q.data| == SIZE
    ensures |Next(s, t, op).th| == |s.th| && |Next(s, t, op).q.data| == SIZE
  {
  }

  lemma {:induction false} GetsTrans(s: State, t: nat, op: Op, n: nat, w: State)
    requires t < |s.th| && |s.q.data| == SIZE && Gets(Alone(s, t, op, n), t, op, w)
    ensures Gets(s, t, op, w)
    decreases n
  {
    hide Next, Gets;
    if n > 0 {
      NextSizes(s, t, op);
      GetsTrans(Next(s, t, op), t, op, n - 1, w);
      GetsFirst(s, t, op, w);
    }
  }

  /** One stretch of steps after another. */
  lemma GetsOn(s: State, t: nat, op: Op, a: State, w: State)
    requires Gets(s, t, op, a) && Gets(a, t, op, w)
    ensures Gets(s, t, op, w)
  {
    hide Alone;
    var n: nat :| Alone(s, t, op, n) == a;
    GetsTrans(s, t, op, n, w);
  }

  /** Thread t's wakeup, over the threads from k on. */
  lemma {:induction false} WakeAll(s: State, t: nat, op: Op, c: Chan, k: nat, o: Op, rest: bool) returns (w: State)
    requires t < |s.th| && k <= |s.th| && |s.q.data| == SIZE && s.th[t] == s.th[t].(pc := Wake(c, k, o, rest), sleeping := false)
    requires forall u: nat :: u < |s.th| ==> !s.th[u].locked
    ensures Gets(s, t, op, w) && w.lock == s.lock && w.q == s.q && |w.th| == |s.th|
    ensures w.th[t] == s.th[t].(pc := if rest then Fall(NWrite, o) else Leave(o))
    ensures forall u: nat :: u < |s.th| && u != t ==>
              w.th[u] == if u >= k && s.th[u].chan == c then s.th[u].(sleeping := false) else s.th[u]
    decreases |s.th| - k
  {
    hide Gets, Alone;
    var n := Next(s, t, op);
    assert n == WakeNext(s, t, c, k, o, rest);
    if k < |s.th| {
      w := WakeAll(n, t, op, c, k + 1, o, rest);
    } else {
      w := n;
      GetsSelf(w, t, op);
    }
    GetsFirst(s, t, op, w);
  }

  /** Leaving the pipe. */
  lemma LeaveAlone(s: State, t: nat, op: Op, o: Op) returns (w: State)
    requires t < |s.th| && |s.q.data| == SIZE && s.th[t].pc == Leave(o)
    ensures Gets(s, t, op, w) && w == s.(lock := -1, th := s.th[t := s.th[t].(pc := Idle)])
  {
    hide Gets, Alone;
    w := Next(s, t, op);
    GetsSelf(w, t, op);
    GetsFirst(s, t, op, w);
  }

  /** Going to sleep: the thread's own lock, then the pipe's given up, then asleep. */
  lemma SleepAlone(s: State, t: nat, op: Op, c: Chan, o: Op) returns (w: State)
    requires t < |s.th| && |s.q.data| == SIZE && s.th[t].pc == Fall(c, o)
    ensures Gets(s, t, op, w) && w == s.(lock := -1, th := s.th[t := Thread(Asleep(c, o), true, c, false)])
  {
    hide Gets, Alone;
    var x := Next(s, t, op);
    var y := Next(x, t, op);
    w := Next(y, t, op);
    GetsSelf(w, t, op);
    GetsFirst(y, t, op, w);
    GetsFirst(x, t, op, w);
    GetsFirst(s, t, op, w);
  }

  /** The bytes of a write that fits go in one by one. */
  lemma {:induction false} PutAll(s: State, t: nat, op: Op, src: seq<Byte>, i: nat) returns (w: State)
    requires t < |s.th| && QueueOk(s.q) && s.th[t].pc == Look(Write(src, i)) && i <= |src| && s.q.nwrite + (|src| - i) <= s.q.nread + SIZE
    ensures Gets(s, t, op, w) && QueueOk(w.q) && w.q.written == s.q.written + src[i..] && w.q.got == s.q.got
    ensures w == s.(q := w.q, th := s.th[t := s.th[t].(pc := Look(Write(src, |src|)))])
    decreases |src| - i
  {
    hide Gets, Alone;
    if i < |src| {
      PutOk(s.q, src[i]);
      var n := Next(s, t, op);
      assert n == Moved(s.(q := Put(s.q, src[i])), t, Look(Write(src, i + 1)));
      hide QueueOk;
      w := PutAll(n, t, op, src, i + 1);
      GetsFirst(s, t, op, w);
      assert src[i..] == [src[i]] + src[i + 1..];
    } else {
      w := s;
      GetsSelf(s, t, op);
      assert src[i..] == [];
    }
  }

  /** The bytes of a read come out one by one, as long as there are any. */
  lemma {:induction false} TakeAll(s: State, t: nat, op: Op, n: nat, dst: seq<Byte>) returns (w: State, got: seq<Byte>)
    requires t < |s.th| && QueueOk(s.q) && s.th[t].pc == Copy(Read(n, dst)) && |dst| <= n
    ensures Gets(s, t, op, w) && QueueOk(w.q) && w.q.written == s.q.written && w.q.got == s.q.got + got
    ensures |got| == if s.q.nwrite - s.q.nread < n - |dst| then s.q.nwrite - s.q.nread else n - |dst|
    ensures w == s.(q := w.q, th := s.th[t := s.th[t].(pc := Copy(Read(n, dst + got)))])
    ensures Empty(w.q) || |dst + got| == n
    decreases n - |dst|
  {
    hide Gets, Alone;
    if |dst| < n && !Empty(s.q) {
      TakeOk(s.q);
      var b := s.q.data[s.q.nread % SIZE];
      var x := Next(s, t, op);
      assert x == Moved(s.(q := Take(s.q)), t, Copy(Read(n, dst + [b])));
      hide QueueOk;
      w, got := TakeAll(x, t, op, n, dst + [b]);
      assert dst + [b] + got == dst + ([b] + got);
      got := [b] + got;
      GetsFirst(s, t, op, w);
    } else {
      w, got := s, [];
      GetsSelf(s, t, op);
      assert dst + got == dst;
    }
  }

  /** The lock is free, thread t is idle, and nobody is inside sleep. */
  ghost predicate Quiet(s: State, t: nat) {
    Inv(s) && t < |s.th| && s.lock == -1 && s.th[t].pc == Idle && forall u: nat :: u < |s.th| ==> !s.th[u].locked
  }

  /** Thread t is idle again, the lock free, and of the others exactly those that slept on c are awake. */
  ghost predicate Finished(s: State, w: State, t: nat, c: Chan) {
    && t < |s.th| == |w.th| && w.lock == -1 && w.th[t].pc == Idle
    && forall u: nat :: u < |s.th| && u != t ==> w.th[u] == if s.th[u].chan == c then s.th[u].(sleeping := false) else s.th[u]
  }

  lemma QuietFacts(s: State, t: nat)
    requires Quiet(s, t)
    ensures t < |s.th| && |s.q.data| == SIZE && QueueOk(s.q) && !s.th[t].sleeping && s.lock == -1 && s.th[t].pc == Idle
    ensures forall u: nat :: u < |s.th| ==> !s.th[u].locked
  {
    InvAt(s, t, t);
  }

  /** A write that fits, by a thread that nobody disturbs: all its bytes go in, and the sleeping readers wake. */
  lemma WriteAlone(s: State, t: nat, src: seq<Byte>) returns (w: State)
    requires Quiet(s, t) && src != [] && s.q.nwrite + |src| <= s.q.nread + 65536
    ensures Gets(s, t, Write(src, 0), w) && Finished(s, w, t, NRead) && w.q.written == s.q.written + src && w.q.got == s.q.got
  {
    QuietFacts(s, t);
    hide Gets, Alone, Inv, QueueOk;
    var op := Write(src, 0);
    var a := StartWrite(s, t, src);
    var b := PutAll(a, t, op, src, 0);
    assert src[0..] == src;
    var c := Next(b, t, op);
    assert c == Moved(b, t, Wake(NRead, 0, Write(src, |src|), false));
    var d := WakeAll(c, t, op, NRead, 0, Write(src, |src|), false);
    w := LeaveAlone(d, t, op, Write(src, |src|));
    GetsOn(c, t, op, d, w);
    GetsFirst(b, t, op, w);
    GetsOn(a, t, op, b, w);
    GetsOn(s, t, op, a, w);
  }

  lemma StartWrite(s: State, t: nat, src: seq<Byte>) returns (a: State)
    requires t < |s.th| && |s.q.data| == SIZE && s.lock == -1 && s.th[t].pc == Idle && src != []
    ensures Gets(s, t, Write(src, 0), a) && a == s.(lock := t, th := s.th[t := s.th[t].(pc := Look(Write(src, 0)))])
  {
    hide Gets, Alone;
    var op := Write(src, 0);
    var n := Next(s, t, op);
    a := Next(n, t, op);
    GetsSelf(a, t, op);
    GetsFirst(n, t, op, a);
    GetsFirst(s, t, op, a);
  }

  lemma StartRead(s: State, t: nat, n: nat) returns (a: State)
    requires t < |s.th| && |s.q.data| == SIZE && s.lock == -1 && s.th[t].pc == Idle && !Empty(s.q)
    ensures Gets(s, t, Read(n, []), a) && a == s.(lock := t, th := s.th[t := s.th[t].(pc := Copy(Read(n, [])))])
  {
    hide Gets, Alone;
    var op := Read(n, []);
    var x := Next(s, t, op);
    var y := Next(x, t, op);
    a := Next(y, t, op);
    GetsSelf(a, t, op);
    GetsFirst(y, t, op, a);
    GetsFirst(x, t, op, a);
    GetsFirst(s, t, op, a);
  }

  /** A read of a pipe that is not empty: the oldest bytes come out, as many as asked for if there are so many, and the sleeping writers wake. */
  lemma ReadAlone(s: State, t: nat, n: nat) returns (w: State, got: seq<Byte>)
    requires Quiet(s, t) && s.q.nread < s.q.nwrite
    ensures Gets(s, t, Read(n, []), w) && Finished(s, w, t, NWrite) && w.q.written == s.q.written && w.q.got == s.q.got + got
    ensures |got| == if s.q.nwrite - s.q.nread < n then s.q.nwrite - s.q.nread else n
  {
    QuietFacts(s, t);
    hide Gets, Alone, Inv, QueueOk;
    var op := Read(n, []);
    var a := StartRead(s, t, n);
    var b;
    b, got := TakeAll(a, t, op, n, []);
    var o := Read(n, [] + got);
    var c := Next(b, t, op);
    assert c == Moved(b, t, Wake(NWrite, 0, o, false));
    var d := WakeAll(c, t, op, NWrite, 0, o, false);
    w := LeaveAlone(d, t, op, o);
    GetsOn(c, t, op, d, w);
    GetsFirst(b, t, op, w);
    GetsOn(a, t, op, b, w);
    GetsOn(s, t, op, a, w);
  }

  /** Thread t sleeps on c, the lock is free, the pipe as it was, and of the others exactly those that slept on d are awake. */
  ghost predicate Blocked(s: State, w: State, t: nat, c: Chan, op: Op, d: Option) {
    && t < |s.th| == |w.th| && w.lock == -1 && w.q == s.q && w.th[t] == Thread(Asleep(c, op), true, c, false)
    && forall u: nat :: u < |s.th| && u != t ==> w.th[u] == if d == Some(s.th[u].chan) then s.th[u].(sleeping := false) else s.th[u]
  }

  datatype Option = None | Some(value: Chan)

  /** A write to a full pipe wakes the sleeping readers and sleeps with all its bytes to go. */
  lemma WriteBlocks(s: State, t: nat, src: seq<Byte>) returns (w: State)
    requires Quiet(s, t) && src != [] && s.q.nwrite == s.q.nread + 65536
    ensures Gets(s, t, Write(src, 0), w) && Blocked(s, w, t, NWrite, Write(src, 0), Some(NRead))
  {
    QuietFacts(s, t);
    hide Gets, Alone, Inv, QueueOk;
    var op := Write(src, 0);
    var a := StartWrite(s, t, src);
    var b := Next(a, t, op);
    assert b == Moved(a, t, Wake(NRead, 0, op, true));
    var c := WakeAll(b, t, op, NRead, 0, op, true);
    w := SleepAlone(c, t, op, NWrite, op);
    GetsOn(b, t, op, c, w);
    GetsFirst(a, t, op, w);
    GetsOn(s, t, op, a, w);
  }

  /** A read of an empty pipe sleeps, and wakes nobody. */
  lemma ReadBlocks(s: State, t: nat, n: nat) returns (w: State)
    requires Quiet(s, t) && s.q.nwrite == s.q.nread
    ensures Gets(s, t, Read(n, []), w) && Blocked(s, w, t, NRead, Read(n, []), None)
  {
    QuietFacts(s, t);
    hide Gets, Alone, Inv, QueueOk;
    var op := Read(n, []);
    var a := Next(s, t, op);
    var b := Next(a, t, op);
    var c := Next(b, t, op);
    assert c == s.(lock := t, th := s.th[t := s.th[t].(pc := Fall(NRead, op))]);
    w := SleepAlone(c, t, op, NRead, op);
    GetsFirst(b, t, op, w);
    GetsFirst(a, t, op, w);
    GetsFirst(s, t, op, w);
  }

  /** A sleeper that somebody has woken goes back to its loop test as soon as the lock is free, with what it had. */
  lemma Resumes(s: State, t: nat, op: Op)
    requires t < |s.th| && |s.q.data| == SIZE && s.th[t].pc.Asleep? && !s.th[t].sleeping && s.lock == -1
    ensures Gets(s, t, op, s.(lock := t, th := s.th[t := s.th[t].(pc := Look(s.th[t].pc.op))]))
  {
    hide Gets, Alone;
    var x := Next(s, t, op);
    var y := Next(x, t, op);
    assert y == s.(lock := t, th := s.th[t := s.th[t].(pc := Look(s.th[t].pc.op))]);
    GetsSelf(y, t, op);
    GetsFirst(x, t, op, y);
    GetsFirst(s, t, op, y);
  }
}
