/**
 Threads, the 140 run queues and the futex slots: who is queued where, and whom the scheduler
 picks.
 */
module Scheduler {
  const LEVELS := 140
  const FUTEX_COUNT := 64

  datatype Status = Unused | Runnable | Running | Sleeping
  datatype Policy = Other | Fifo
  datatype Thread = Thread(state: Status, chan: nat, pri: int, policy: Policy, awake: nat, killed: bool, ctid: nat)
  datatype Slot = Slot(valid: bool, addr: nat, thread: nat)

  /** queue[k] holds the threads of priority 99 - k; current is the thread last run on the hart, or -1. */
  datatype State = State(th: seq<Thread>, queue: seq<seq<nat>>, slot: seq<Slot>, used: seq<nat>, spare: seq<nat>, current: int)

  function Level(t: Thread): int { 99 - t.pri }

  /** The priorities that have a queue. */
  predicate HasQueue(pri: int) { 0 <= 99 - pri < LEVELS }

  ghost predicate Sized(s: State) {
    && |s.queue| == LEVELS && |s.slot| == FUTEX_COUNT && -1 <= s.current < |s.th|
    && forall i :: 0 <= i < |s.th| ==> HasQueue(s.th[i].pri)
  }

  ghost predicate Distinct(q: seq<nat>) {
    forall j, k :: 0 <= j < k < |q| ==> q[j] != q[k]
  }

  ghost predicate QueueOk(s: State, q: nat)
    requires Sized(s) && q < LEVELS
  {
    && Distinct(s.queue[q])
    && forall t :: t in s.queue[q] ==> t < |s.th| && s.th[t].state == Runnable && Level(s.th[t]) == q
  }

  ghost predicate Placed(s: State, t: nat)
    requires Sized(s) && t < |s.th|
  {
    s.th[t].state == Runnable ==> t in s.queue[Level(s.th[t])]
  }

  /** A thread is runnable exactly if it is queued, once, in the queue of its priority. */
  ghost predicate Queues(s: State)
    requires Sized(s)
  {
    (forall q: nat :: q < LEVELS ==> QueueOk(s, q)) && forall t: nat :: t < |s.th| ==> Placed(s, t)
  }

  ghost predicate SlotOk(s: State, i: nat)
    requires Sized(s) && i < FUTEX_COUNT
  {
    s.slot[i].valid ==>
      && s.slot[i].thread < |s.th| && !s.th[s.slot[i].thread].killed && s.th[s.slot[i].thread].chan == 0
      && (s.th[s.slot[i].thread].state == Sleeping || s.th[s.slot[i].thread].state == Runnable)
  }

  ghost predicate SlotsApart(s: State, i: nat, j: nat)
    requires Sized(s) && i < FUTEX_COUNT && j < FUTEX_COUNT
  {
    i != j && s.slot[i].valid && s.slot[j].valid ==> s.slot[i].thread != s.slot[j].thread
  }

  /** A thread has at most one futex slot, and none while it runs. */
  ghost predicate Slots(s: State)
    requires Sized(s)
  {
    && (forall i: nat :: i < FUTEX_COUNT ==> SlotOk(s, i))
    && forall i: nat, j: nat :: i < FUTEX_COUNT && j < FUTEX_COUNT ==> SlotsApart(s, i, j)
  }

  ghost predicate Lists(s: State) {
    && Distinct(s.used) && Distinct(s.spare)
    && (forall t :: t in s.used ==> t < |s.th| && s.th[t].state != Unused)
    && (forall t :: t in s.spare ==> t < |s.th| && s.th[t].state == Unused)
    && forall t: nat :: t < |s.th| ==> if s.th[t].state == Unused then t in s.spare else t in s.used
  }

  /** Only the current thread runs; it waits on no channel and was not killed. */
  ghost predicate OneRuns(s: State) {
    forall t: nat :: t < |s.th| && s.th[t].state == Running ==> t == s.current && s.th[t].chan == 0 && !s.th[t].killed
  }

  ghost predicate Inv(s: State) {
    Sized(s) && Queues(s) && Slots(s) && Lists(s) && OneRuns(s)
  }

  // ----- primitive updates --------------------------------------------------------------------

  function Set(s: State, t: nat, x: Thread): State
    requires t < |s.th|
  {
    s.(th := s.th[t := x])
  }

  /** LIST_INSERT_TAIL or LIST_INSERT_HEAD into the queue of the thread's priority, as it becomes runnable. */
  function Enqueue(s: State, t: nat, front: bool): State
    requires Sized(s) && t < |s.th|
  {
    var q := Level(s.th[t]);
    s.(th := s.th[t := s.th[t].(state := Runnable)],
       queue := s.queue[q := if front then [t] + s.queue[q] else s.queue[q] + [t]])
  }

  function Index(q: seq<nat>, t: nat): (k: nat)
    requires t in q
    ensures k < |q| && q[k] == t && forall j :: 0 <= j < k ==> q[j] != t
  {
    if q[0] == t then 0 else 1 + Index(q[1..], t)
  }

  /** LIST_REMOVE. */
  function Without(q: seq<nat>, t: nat): seq<nat> {
    if t in q then q[..Index(q, t)] + q[Index(q, t) + 1..] else q
  }

  lemma WithoutAt(q: seq<nat>, t: nat, j: nat)
    requires t in q && j + 1 < |q|
    ensures |Without(q, t)| + 1 == |q| && Without(q, t)[j] == q[if j < Index(q, t) then j else j + 1]
  {
    hide Index;
    SplicedAt(q, Index(q, t), j);
  }

  lemma SplicedAt(q: seq<nat>, k: nat, j: nat)
    requires k < |q| && j + 1 < |q|
    ensures var w := q[..k] + q[k + 1..]; |w| + 1 == |q| && w[j] == q[if j < k then j else j + 1]
  {
  }

  lemma WithoutIs(q: seq<nat>, t: nat)
    requires Distinct(q)
    ensures Distinct(Without(q, t)) && forall u :: u in Without(q, t) <==> u in q && u != t
  {
    if t in q {
      hide Without;
      var k, w := Index(q, t), Without(q, t);
      WithoutSize(q, t);
      forall i, j | 0 <= i < j < |w| ensures w[i] != w[j] {
        WithoutAt(q, t, i);
        WithoutAt(q, t, j);
      }
      forall u ensures u in w <==> u in q && u != t {
        WithoutHas(q, t, u);
      }
    }
  }

  /** The first occurrence goes, the others keep their order. */
  lemma {:induction false} WithoutSplits(p: seq<nat>, t: nat, r: seq<nat>)
    requires t !in p
    ensures Without(p + [t] + r, t) == p + r
  {
    var q := p + [t] + r;
    assert q[|p|] == t;
    assert Index(q, t) == |p|;
    assert q[..|p|] == p && q[|p| + 1..] == r;
  }

  lemma WithoutSize(q: seq<nat>, t: nat)
    requires t in q
    ensures |Without(q, t)| + 1 == |q|
  {
  }

  lemma WithoutHas(q: seq<nat>, t: nat, u: nat)
    requires Distinct(q) && t in q
    ensures u in Without(q, t) <==> u in q && u != t
  {
    var k := Index(q, t);
    var a, b := q[..k], q[k + 1..];
    NotElsewhere(q, t, k);
    SplitHas(a, t, b, u);
    assert q == a + [t] + b && Without(q, t) == a + b;
    hide Distinct, Without, Index;
  }

  lemma SplitHas(a: seq<nat>, t: nat, b: seq<nat>, u: nat)
    ensures u in a + [t] + b <==> u in a || u == t || u in b
    ensures u in a + b <==> u in a || u in b
  {
  }

  lemma NotElsewhere(q: seq<nat>, t: nat, k: nat)
    requires Distinct(q) && k < |q| && q[k] == t
    ensures t !in q[..k] && t !in q[k + 1..]
  {
    var b := q[k + 1..];
    forall j | 0 <= j < |b| ensures b[j] != t {
      assert b[j] == q[k + 1 + j];
    }
  }

  function Dequeue(s: State, t: nat): State
    requires Sized(s) && t < |s.th|
  {
    var q := Level(s.th[t]);
    s.(queue := s.queue[q := Without(s.queue[q], t)])
  }

  /** Every field but the queues and the state of thread t is untouched by both. */
  lemma EnqueueQueues(s: State, t: nat, front: bool)
    requires Sized(s) && Queues(s) && t < |s.th| && s.th[t].state != Runnable
    ensures Sized(Enqueue(s, t, front)) && Queues(Enqueue(s, t, front))
  {
    var w, k := Enqueue(s, t, front), Level(s.th[t]);
    assert forall q: nat :: q < LEVELS ==> t !in s.queue[q] by {
      forall q: nat | q < LEVELS ensures t !in s.queue[q] {
        assert QueueOk(s, q);
      }
    }
    forall q: nat | q < LEVELS ensures QueueOk(w, q) {
      assert QueueOk(s, q);
    }
    forall u: nat | u < |w.th| ensures Placed(w, u) {
      assert Placed(s, u);
    }
  }

  /** Taking a runnable thread out of its queue as it becomes something else. */
  lemma DequeueQueues(s: State, t: nat, x: Thread)
    requires Sized(s) && Queues(s) && t < |s.th| && x.state != Runnable && HasQueue(x.pri)
    ensures Sized(Set(Dequeue(s, t), t, x)) && Queues(Set(Dequeue(s, t), t, x))
  {
    var w, k := Set(Dequeue(s, t), t, x), Level(s.th[t]);
    assert QueueOk(s, k);
    WithoutIs(s.queue[k], t);
    forall q: nat | q < LEVELS ensures QueueOk(w, q) {
      assert QueueOk(s, q);
    }
    forall u: nat | u < |w.th| ensures Placed(w, u) {
      assert Placed(s, u);
    }
  }

  /** Changing a thread that is not queued, or nothing that queues depend on. */
  lemma SetQueues(s: State, t: nat, x: Thread)
    requires Sized(s) && Queues(s) && t < |s.th| && HasQueue(x.pri)
    requires if s.th[t].state == Runnable then x.state == Runnable && x.pri == s.th[t].pri else x.state != Runnable
    ensures Sized(Set(s, t, x)) && Queues(Set(s, t, x))
  {
    var w := Set(s, t, x);
    forall q: nat | q < LEVELS ensures QueueOk(w, q) {
      assert QueueOk(s, q);
    }
    forall u: nat | u < |w.th| ensures Placed(w, u) {
      assert Placed(s, u);
    }
  }

  /** LIST_REMOVE and LIST_INSERT_TAIL of a queue's head in the same queue. */
  function Rotated(s: State, q: nat): State
    requires Sized(s) && q < LEVELS && s.queue[q] != []
  {
    s.(queue := s.queue[q := s.queue[q][1..] + [s.queue[q][0]]])
  }

  lemma RotatedInv(s: State, q: nat)
    requires Inv(s) && q < LEVELS && s.queue[q] != []
    ensures Inv(Rotated(s, q))
  {
    var w := Rotated(s, q);
    forall p: nat | p < LEVELS ensures QueueOk(w, p) {
      assert QueueOk(s, p);
      if p == q {
        RotatedDistinct(s.queue[q]);
        assert forall u :: u in w.queue[q] ==> u in s.queue[q] by {
          forall u | u in w.queue[q] ensures u in s.queue[q] {
            RotatedHas(s.queue[q], u);
          }
        }
      }
    }
    forall u: nat | u < |w.th| ensures Placed(w, u) {
      assert Placed(s, u);
      RotatedHas(s.queue[q], u);
    }
    SameSlots(s, w);
  }

  lemma RotatedDistinct(q: seq<nat>)
    requires q != [] && Distinct(q)
    ensures Distinct(q[1..] + [q[0]])
  {
    var r := q[1..] + [q[0]];
    assert forall k :: 0 <= k < |r| ==> r[k] == if k + 1 < |q| then q[k + 1] else q[0];
  }

  lemma RotatedHas(q: seq<nat>, u: nat)
    requires q != []
    ensures u in q[1..] + [q[0]] <==> u in q
  {
    assert q == [q[0]] + q[1..];
  }

  /** Slots only see states, channels, kill flags and themselves. */
  lemma SameSlots(s: State, w: State)
    requires Sized(s) && Sized(w) && Slots(s) && w.slot == s.slot && |w.th| == |s.th|
    requires forall t: nat :: t < |s.th| && s.th[t].state == Sleeping ==> w.th[t].state == Sleeping || w.th[t].state == Runnable
    requires forall t: nat :: t < |s.th| && s.th[t].state == Runnable ==> w.th[t].state == Sleeping || w.th[t].state == Runnable
    requires forall t: nat :: t < |s.th| ==> w.th[t].killed == s.th[t].killed && (w.th[t].chan == s.th[t].chan || s.th[t].state == Running)
    ensures Slots(w)
  {
    forall i: nat | i < FUTEX_COUNT ensures SlotOk(w, i) {
      assert SlotOk(s, i);
    }
    forall i: nat, j: nat | i < FUTEX_COUNT && j < FUTEX_COUNT ensures SlotsApart(w, i, j) {
      assert SlotsApart(s, i, j);
    }
  }

  // ----- threads come, stop, wake and go --------------------------------------------------------

  lemma EnqueueInv(s: State, t: nat, front: bool)
    requires Inv(s) && t < |s.th| && s.th[t].state != Runnable && s.th[t].state != Unused
    ensures Inv(Enqueue(s, t, front))
  {
    hide Queues, Slots;
    EnqueueQueues(s, t, front);
    SlotsNotRunning(s);
    SameSlots(s, Enqueue(s, t, front));
  }

  lemma SlotsNotRunning(s: State)
    requires Sized(s) && Slots(s)
    ensures forall i: nat :: i < FUTEX_COUNT && s.slot[i].valid ==>
              s.slot[i].thread < |s.th| && (s.th[s.slot[i].thread].state == Sleeping || s.th[s.slot[i].thread].state == Runnable)
  {
    forall i: nat | i < FUTEX_COUNT && s.slot[i].valid
      ensures s.slot[i].thread < |s.th| && (s.th[s.slot[i].thread].state == Sleeping || s.th[s.slot[i].thread].state == Runnable)
    {
      assert SlotOk(s, i);
    }
  }

  predicate CurrentRuns(s: State) {
    0 <= s.current < |s.th| && s.th[s.current].state == Running
  }

  /** The current thread is on the hart: it runs, or was killed and queued while it ran. */
  predicate Executing(s: State) {
    0 <= s.current < |s.th| && (s.th[s.current].state == Running || (s.th[s.current].state == Runnable && s.th[s.current].killed))
  }

  /** sleep, up to the scheduler. */
  function Slept(s: State, chan: nat): State
    requires 0 <= s.current < |s.th|
  {
    Set(s, s.current, s.th[s.current].(state := Sleeping, chan := chan))
  }

  lemma SleptInv(s: State, chan: nat)
    requires Inv(s) && CurrentRuns(s)
    ensures Inv(Slept(s, chan))
  {
    hide Queues, Slots;
    SetQueues(s, s.current, s.th[s.current].(state := Sleeping, chan := chan));
    SlotsNotRunning(s);
    SameSlots(s, Slept(s, chan));
  }

  /** sleep is safe exactly for a thread that still counts as running: one killed meanwhile is queued already, and stays so. */
  lemma SleptIff(s: State, chan: nat)
    requires Inv(s) && 0 <= s.current && (s.th[s.current].state == Running || s.th[s.current].state == Runnable)
    ensures Inv(Slept(s, chan)) <==> s.th[s.current].state == Running
  {
    hide Slots, Lists;
    if s.th[s.current].state == Running {
      SleptInv(s, chan);
    } else {
      var q := Level(s.th[s.current]);
      assert Placed(s, s.current);
      assert !QueueOk(Slept(s, chan), q);
    }
  }

  /** wakeup, over the threads of a list. */
  function Woken(s: State, chan: nat, list: seq<nat>): State
    requires Sized(s)
    decreases |list|
  {
    if list == [] then s
    else
      var t := list[0];
      Woken(if t < |s.th| && s.th[t].state == Sleeping && s.th[t].chan == chan then Enqueue(s, t, false) else s, chan, list[1..])
  }

  /** Exactly the sleepers of the channel become runnable, and each is queued. */
  lemma {:induction false} WokenInv(s: State, chan: nat, list: seq<nat>)
    requires Inv(s)
    ensures Inv(Woken(s, chan, list)) && |Woken(s, chan, list).th| == |s.th|
    ensures forall t: nat :: t < |s.th| ==>
              Woken(s, chan, list).th[t]
              == if t in list && s.th[t].state == Sleeping && s.th[t].chan == chan then s.th[t].(state := Runnable) else s.th[t]
    ensures Woken(s, chan, list).current == s.current && Woken(s, chan, list).slot == s.slot
    ensures Woken(s, chan, list).used == s.used && Woken(s, chan, list).spare == s.spare
    decreases |list|
  {
    hide Inv, Queues, Slots, Lists;
    SizedInv(s);
    if list != [] {
      var t := list[0];
      if t < |s.th| && s.th[t].state == Sleeping && s.th[t].chan == chan {
        EnqueueInv(s, t, false);
        WokenInv(Enqueue(s, t, false), chan, list[1..]);
      } else {
        WokenInv(s, chan, list[1..]);
      }
    }
  }

  lemma SizedInv(s: State)
    requires Inv(s)
    ensures Sized(s) && Lists(s)
  {
  }

  /** wakeup reaches every sleeper of the channel, since every thread in use is in the list it walks. */
  lemma WakeupWakesAll(s: State, chan: nat)
    requires Inv(s)
    ensures Inv(Woken(s, chan, s.used)) && |Woken(s, chan, s.used).th| == |s.th|
    ensures forall t: nat :: t < |s.th| ==>
              Woken(s, chan, s.used).th[t]
              == if s.th[t].state == Sleeping && s.th[t].chan == chan then s.th[t].(state := Runnable) else s.th[t]
  {
    hide Queues, Slots;
    WokenInv(s, chan, s.used);
  }

  /** Nobody loses a place in a queue to a woken thread. */
  lemma {:induction false} WokenTails(s: State, chan: nat, list: seq<nat>)
    requires Sized(s)
    ensures Sized(Woken(s, chan, list)) && forall q :: 0 <= q < 140 ==> s.queue[q] <= Woken(s, chan, list).queue[q]
    decreases |list|
  {
    if list != [] {
      var t := list[0];
      WokenTails(if t < |s.th| && s.th[t].state == Sleeping && s.th[t].chan == chan then Enqueue(s, t, false) else s, chan, list[1..]);
    }
  }

  /** mainThreadAlloc or threadAlloc, with the policy, priority and tid address the record is given before it is queued. */
  function Allocated(s: State, pri: int, policy: Policy, ctid: nat): State
    requires s.spare != [] && s.spare[0] < |s.th|
  {
    var t := s.spare[0];
    Set(s, t, Thread(Sleeping, 0, pri, policy, 0, false, ctid)).(spare := s.spare[1..], used := [t] + s.used)
  }

  /** A new thread, at the tail of its queue. */
  function Started(s: State, pri: int, policy: Policy, ctid: nat): State
    requires Sized(s) && s.spare != [] && s.spare[0] < |s.th| && HasQueue(pri)
  {
    Enqueue(Allocated(s, pri, policy, ctid), s.spare[0], false)
  }

  /** processFork and threadFork: the child inherits policy and priority. */
  function Forked(s: State, ctid: nat): State
    requires Sized(s) && s.spare != [] && s.spare[0] < |s.th| && 0 <= s.current
  {
    Started(s, s.th[s.current].pri, s.th[s.current].policy, ctid)
  }

  /** processCreatePriority, which needs no running thread. */
  function Created(s: State): State
    requires Sized(s) && s.spare != [] && s.spare[0] < |s.th|
  {
    Started(s, 0, Other, 0)
  }

  lemma AllocatedInv(s: State, pri: int, policy: Policy, ctid: nat)
    requires Inv(s) && s.spare != [] && HasQueue(pri)
    ensures s.spare[0] < |s.th| && s.th[s.spare[0]].state == Unused && Inv(Allocated(s, pri, policy, ctid))
  {
    hide Queues, Slots;
    var t := s.spare[0];
    assert t in s.spare;
    AllocatedQueues(s, pri, policy, ctid);
    FreshSlots(s, t, pri, policy, ctid);
    AllocatedLists(s, pri, policy, ctid);
  }

  lemma AllocatedQueues(s: State, pri: int, policy: Policy, ctid: nat)
    requires Sized(s) && Queues(s) && s.spare != [] && s.spare[0] < |s.th| && HasQueue(pri) && s.th[s.spare[0]].state == Unused
    ensures Sized(Allocated(s, pri, policy, ctid)) && Queues(Allocated(s, pri, policy, ctid))
  {
    var w, t := Allocated(s, pri, policy, ctid), s.spare[0];
    forall q: nat | q < LEVELS ensures QueueOk(w, q) {
      assert QueueOk(s, q);
    }
    forall u: nat | u < |w.th| ensures Placed(w, u) {
      assert Placed(s, u);
    }
  }

  lemma AllocatedLists(s: State, pri: int, policy: Policy, ctid: nat)
    requires Lists(s) && s.spare != [] && s.spare[0] < |s.th| && s.th[s.spare[0]].state == Unused
    ensures Lists(Allocated(s, pri, policy, ctid))
  {
    var t, w := s.spare[0], Allocated(s, pri, policy, ctid);
    DistinctCons(t, s.used);
    DistinctTail(s.spare);
    hide Distinct;
    forall u: nat | u < |w.th| ensures if w.th[u].state == Unused then u in w.spare else u in w.used {
      assert if s.th[u].state == Unused then u in s.spare else u in s.used;
    }
  }

  lemma DistinctCons(t: nat, q: seq<nat>)
    requires Distinct(q) && t !in q
    ensures Distinct([t] + q) && forall u :: u in [t] + q <==> u == t || u in q
  {
  }

  lemma DistinctTail(q: seq<nat>)
    requires Distinct(q) && q != []
    ensures Distinct(q[1..]) && forall u :: u in q[1..] <==> u in q && u != q[0]
  {
    var r := q[1..];
    assert forall k :: 0 <= k < |r| ==> r[k] == q[k + 1];
    assert q == [q[0]] + r;
  }

  lemma FreshSlots(s: State, t: nat, pri: int, policy: Policy, ctid: nat)
    requires Inv(s) && s.spare != [] && t == s.spare[0] < |s.th| && s.th[t].state == Unused && HasQueue(pri)
    ensures Slots(Allocated(s, pri, policy, ctid))
  {
    var w := Allocated(s, pri, policy, ctid);
    forall i: nat | i < FUTEX_COUNT ensures SlotOk(w, i) {
      assert SlotOk(s, i);
    }
    forall i: nat, j: nat | i < FUTEX_COUNT && j < FUTEX_COUNT ensures SlotsApart(w, i, j) {
      assert SlotsApart(s, i, j);
    }
  }

  /** A new thread comes from the spare list into the used list and its queue. */
  lemma StartedInv(s: State, pri: int, policy: Policy, ctid: nat)
    requires Inv(s) && s.spare != [] && HasQueue(pri)
    ensures s.spare[0] < |s.th| && Inv(Started(s, pri, policy, ctid))
  {
    AllocatedInv(s, pri, policy, ctid);
    EnqueueInv(Allocated(s, pri, policy, ctid), s.spare[0], false);
  }

  // ----- boot and killing -----------------------------------------------------------------------

  const THREADS := 1024

  function BlankThread(): Thread { Thread(Unused, 0, 0, Other, 0, false, 0) }

  /** After threadInit: every thread spare, lowest number first, and no futex slot in use. */
  function Boot(): State {
    State(seq(THREADS, _ => BlankThread()), seq(LEVELS, _ => []), seq(FUTEX_COUNT, _ => Slot(false, 0, 0)), [], seq(THREADS, i => i), -1)
  }

  lemma BootInv()
    ensures Inv(Boot()) && NoneRuns(Boot())
  {
    var s := Boot();
    forall q: nat | q < LEVELS ensures QueueOk(s, q) {
    }
    forall i: nat | i < FUTEX_COUNT ensures SlotOk(s, i) {
    }
    forall t: nat | t < |s.th| ensures t in s.spare {
      assert s.spare[t] == t;
    }
  }

  /** threadSignalSend with SIGKILL: a thread that is not queued is queued, whatever it was doing. */
  function Killed(s: State, t: nat): State
    requires Sized(s) && t < |s.th|
  {
    var w := if s.th[t].state != Runnable then Enqueue(s, t, false) else s;
    Set(w, t, w.th[t].(killed := true))
  }

  /** Killing a thread in use keeps the invariant exactly if the thread waits on no futex. */
  lemma KilledIff(s: State, t: nat)
    requires Inv(s) && t < |s.th| && s.th[t].state != Unused
    ensures Inv(Killed(s, t)) <==> NoSlot(s, t)
  {
    hide Queues, Lists;
    if NoSlot(s, t) {
      KilledInv(s, t);
    } else {
      var i: nat :| i < |s.slot| && s.slot[i].valid && s.slot[i].thread == t;
      assert !SlotOk(Killed(s, t), i);
    }
  }

  lemma KilledInv(s: State, t: nat)
    requires Inv(s) && t < |s.th| && s.th[t].state != Unused && NoSlot(s, t)
    ensures Inv(Killed(s, t))
  {
    hide Queues, Slots, Lists;
    var w := if s.th[t].state != Runnable then Enqueue(s, t, false) else s;
    if s.th[t].state != Runnable {
      EnqueueInv(s, t, false);
    }
    SetQueues(w, t, w.th[t].(killed := true));
    FreeOfSlots(w, Killed(s, t), t);
    SameLists(w, Killed(s, t));
  }

  // ----- futexes --------------------------------------------------------------------------------

  /** The body of futexWake's loop for a matching slot. */
  function WakeSlot(s: State, i: nat): State
    requires Sized(s) && i < FUTEX_COUNT && s.slot[i].thread < |s.th|
  {
    var t := s.slot[i].thread;
    var w := if s.th[t].state != Runnable then Enqueue(s, t, false) else s;
    w.(slot := s.slot[i := s.slot[i].(valid := false)])
  }

  lemma WakeSlotInv(s: State, i: nat)
    requires Inv(s) && i < FUTEX_COUNT && s.slot[i].valid
    ensures s.slot[i].thread < |s.th| && Inv(WakeSlot(s, i))
  {
    hide Queues, Lists;
    SlotsNotRunning(s);
    var t := s.slot[i].thread;
    if s.th[t].state != Runnable {
      EnqueueInv(s, t, false);
      DropSlot(Enqueue(s, t, false), i);
    } else {
      DropSlot(s, i);
    }
  }

  lemma DropSlot(s: State, i: nat)
    requires Inv(s) && i < FUTEX_COUNT
    ensures Inv(s.(slot := s.slot[i := s.slot[i].(valid := false)]))
  {
    hide Lists;
    var w := s.(slot := s.slot[i := s.slot[i].(valid := false)]);
    forall q: nat | q < LEVELS ensures QueueOk(w, q) {
      assert QueueOk(s, q);
    }
    forall u: nat | u < |w.th| ensures Placed(w, u) {
      assert Placed(s, u);
    }
    forall j: nat | j < FUTEX_COUNT ensures SlotOk(w, j) {
      assert SlotOk(s, j);
    }
    forall j: nat, k: nat | j < FUTEX_COUNT && k < FUTEX_COUNT ensures SlotsApart(w, j, k) {
      assert SlotsApart(s, j, k);
    }
    SameLists(s, w);
  }

  lemma SameLists(s: State, w: State)
    requires Lists(s) && w.used == s.used && w.spare == s.spare && |w.th| == |s.th|
    requires forall t: nat :: t < |s.th| ==> (w.th[t].state == Unused <==> s.th[t].state == Unused)
    ensures Lists(w)
  {
  }

  predicate Matches(s: State, i: nat, addr: nat)
    requires |s.slot| == FUTEX_COUNT && i < FUTEX_COUNT
  {
    s.slot[i].valid && s.slot[i].addr == addr
  }

  /** How many slots below i wait for the address. */
  ghost function Rank(s: State, addr: nat, i: nat): nat
    requires |s.slot| == FUTEX_COUNT && i <= FUTEX_COUNT
  {
    if i == 0 then 0 else Rank(s, addr, i - 1) + if Matches(s, i - 1, addr) then 1 else 0
  }

  lemma {:induction false} RankGrows(s: State, addr: nat, i: nat, j: nat)
    requires |s.slot| == FUTEX_COUNT && i <= j <= FUTEX_COUNT
    ensures Rank(s, addr, i) <= Rank(s, addr, j)
    decreases j - i
  {
    if i < j {
      RankGrows(s, addr, i, j - 1);
    }
  }

  /** Slot k is one of the first n waiters of the address; every waiter counts when n is negative. */
  ghost predicate Chosen(s: State, addr: nat, n: int, k: nat)
    requires |s.slot| == FUTEX_COUNT && k < FUTEX_COUNT
  {
    Matches(s, k, addr) && (n < 0 || Rank(s, addr, k) < n)
  }

  ghost function Chosens(s: State, addr: nat, n: int, i: nat): set<nat>
    requires |s.slot| == FUTEX_COUNT && i <= FUTEX_COUNT
  {
    set k: nat | k < i && Chosen(s, addr, n, k)
  }

  ghost function Waiters(s: State, addr: nat, i: nat): set<nat>
    requires |s.slot| == FUTEX_COUNT && i <= FUTEX_COUNT
  {
    set k: nat | k < i && s.slot[k].valid && s.slot[k].addr == addr
  }

  /** Of the waiters of an address n are chosen, or all if there are fewer, or if n is negative. */
  lemma {:induction false} ChosenCount(s: State, addr: nat, n: int, i: nat)
    requires |s.slot| == FUTEX_COUNT && i <= FUTEX_COUNT
    ensures Rank(s, addr, i) == |Waiters(s, addr, i)|
    ensures Chosens(s, addr, n, i) <= Waiters(s, addr, i)
    ensures |Chosens(s, addr, n, i)| == if n < 0 || n > |Waiters(s, addr, i)| then |Waiters(s, addr, i)| else n
  {
    if i > 0 {
      ChosenCount(s, addr, n, i - 1);
      OneMore(s, addr, n, i - 1);
      hide Chosens, Waiters;
    }
  }

  lemma OneMore(s: State, addr: nat, n: int, i: nat)
    requires |s.slot| == FUTEX_COUNT && i < FUTEX_COUNT
    ensures Waiters(s, addr, i + 1) == Waiters(s, addr, i) + if Matches(s, i, addr) then {i} else {}
    ensures Chosens(s, addr, n, i + 1) == Chosens(s, addr, n, i) + if Chosen(s, addr, n, i) then {i} else {}
    ensures i !in Waiters(s, addr, i) && i !in Chosens(s, addr, n, i)
  {
    hide Chosen;
  }

  /** A waiter before a chosen one is chosen. */
  lemma FirstOnes(s: State, addr: nat, n: int, j: nat, k: nat)
    requires |s.slot| == FUTEX_COUNT && k < FUTEX_COUNT && j in Waiters(s, addr, k) && k in Chosens(s, addr, n, FUTEX_COUNT)
    ensures j in Chosens(s, addr, n, FUTEX_COUNT)
  {
    RankBelow(s, addr, j, k);
  }

  lemma RankBelow(s: State, addr: nat, j: nat, k: nat)
    requires |s.slot| == FUTEX_COUNT && j < k <= FUTEX_COUNT && Matches(s, j, addr)
    ensures Rank(s, addr, j) < Rank(s, addr, k)
  {
    RankGrows(s, addr, j + 1, k);
  }

  ghost predicate ChosenThread(s: State, addr: nat, n: int, i: nat, t: nat)
    requires |s.slot| == FUTEX_COUNT && i <= FUTEX_COUNT
  {
    exists k: nat :: k < i && Chosen(s, addr, n, k) && s.slot[k].thread == t
  }

  /** futexRequeue's second loop: every waiter of the address waits for the new one; nothing else changes. */
  ghost predicate MovedTo(b: State, c: State, addr: nat, newAddr: nat) {
    && c.th == b.th && c.queue == b.queue && c.used == b.used && c.spare == b.spare && c.current == b.current && |c.slot| == |b.slot|
    && forall k :: 0 <= k < |b.slot| ==>
         c.slot[k] == if b.slot[k].valid && b.slot[k].addr == addr then Slot(true, newAddr, b.slot[k].thread) else b.slot[k]
  }

  /** From a to b the chosen waiters below slot i became runnable and lost their slots; nothing else changed. */
  ghost predicate WokeFutex(a: State, b: State, addr: nat, n: int, i: nat) {
    && Sized(a) && Sized(b) && |b.th| == |a.th| && b.current == a.current && b.used == a.used && b.spare == a.spare && i <= FUTEX_COUNT
    && (forall q :: 0 <= q < 140 ==> a.queue[q] <= b.queue[q])
    && (forall k: nat :: k < FUTEX_COUNT ==>
          b.slot[k] == if k < i && Chosen(a, addr, n, k) then a.slot[k].(valid := false) else a.slot[k])
    && forall t: nat :: t < |a.th| ==> b.th[t] == if ChosenThread(a, addr, n, i, t) then a.th[t].(state := Runnable) else a.th[t]
  }

  lemma WokeStart(a: State, addr: nat, n: int)
    requires Sized(a)
    ensures WokeFutex(a, a, addr, n, 0)
  {
  }

  lemma WokeSkip(a: State, b: State, addr: nat, n: int, i: nat)
    requires WokeFutex(a, b, addr, n, i) && i < FUTEX_COUNT && !Chosen(a, addr, n, i)
    ensures WokeFutex(a, b, addr, n, i + 1)
  {
    forall t: nat | t < |a.th| ensures ChosenThread(a, addr, n, i + 1, t) <==> ChosenThread(a, addr, n, i, t) {
      ChosenMore(a, addr, n, i, t);
    }
  }

  lemma ChosenMore(a: State, addr: nat, n: int, i: nat, t: nat)
    requires |a.slot| == FUTEX_COUNT && i < FUTEX_COUNT
    ensures ChosenThread(a, addr, n, i + 1, t) <==> ChosenThread(a, addr, n, i, t) || (Chosen(a, addr, n, i) && a.slot[i].thread == t)
  {
    hide Chosen;
    if ChosenThread(a, addr, n, i, t) {
      var k: nat :| k < i && Chosen(a, addr, n, k) && a.slot[k].thread == t;
      assert k < i + 1;
    }
  }

  lemma WokeOne(a: State, b: State, addr: nat, n: int, i: nat)
    requires WokeFutex(a, b, addr, n, i) && i < FUTEX_COUNT && Chosen(a, addr, n, i) && b.slot[i].thread < |b.th|
    ensures WokeFutex(a, WakeSlot(b, i), addr, n, i + 1)
  {
    forall t: nat ensures ChosenThread(a, addr, n, i + 1, t) <==> ChosenThread(a, addr, n, i, t) || a.slot[i].thread == t {
      ChosenMore(a, addr, n, i, t);
    }
  }

  /** Nobody is chosen once n waiters have been. */
  lemma WokeRest(a: State, b: State, addr: nat, n: int, i: nat)
    requires WokeFutex(a, b, addr, n, i) && (i == FUTEX_COUNT || (n >= 0 && Rank(a, addr, i) >= n))
    ensures WokeFutex(a, b, addr, n, FUTEX_COUNT)
  {
    forall k: nat | i <= k < FUTEX_COUNT ensures !Chosen(a, addr, n, k) {
      RankGrows(a, addr, i, k);
    }
  }

  /** futexClear. */
  function Cleared(s: State, t: nat): State {
    s.(slot := seq(|s.slot|, (i: nat) requires i < |s.slot| => if s.slot[i].thread == t then s.slot[i].(valid := false) else s.slot[i]))
  }

  ghost predicate NoSlot(s: State, t: nat) {
    forall i :: 0 <= i < |s.slot| ==> !(s.slot[i].valid && s.slot[i].thread == t)
  }

  lemma ClearedInv(s: State, t: nat)
    requires Inv(s)
    ensures Inv(Cleared(s, t)) && NoSlot(Cleared(s, t), t)
  {
    hide Lists;
    var w := Cleared(s, t);
    forall q: nat | q < LEVELS ensures QueueOk(w, q) {
      assert QueueOk(s, q);
    }
    forall u: nat | u < |w.th| ensures Placed(w, u) {
      assert Placed(s, u);
    }
    forall j: nat | j < FUTEX_COUNT ensures SlotOk(w, j) {
      assert SlotOk(s, j);
    }
    forall j: nat, k: nat | j < FUTEX_COUNT && k < FUTEX_COUNT ensures SlotsApart(w, j, k) {
      assert SlotsApart(s, j, k);
    }
    SameLists(s, w);
  }

  /** A thread without a slot may change state freely as far as the slots go. */
  lemma FreeOfSlots(s: State, w: State, t: nat)
    requires Sized(s) && Sized(w) && Slots(s) && NoSlot(s, t) && w.slot == s.slot && |w.th| == |s.th|
    requires forall u: nat :: u < |s.th| && u != t ==> w.th[u] == s.th[u]
    ensures Slots(w)
  {
    forall i: nat | i < FUTEX_COUNT ensures SlotOk(w, i) {
      assert SlotOk(s, i);
    }
    forall i: nat, j: nat | i < FUTEX_COUNT && j < FUTEX_COUNT ensures SlotsApart(w, i, j) {
      assert SlotsApart(s, i, j);
    }
  }

  /** futexWait into free slot i: a thread without timeout sleeps, one with a timeout stays queued until it. */
  function Waited(s: State, i: nat, addr: nat, timed: bool, until: nat): State
    requires Sized(s) && i < FUTEX_COUNT && CurrentRuns(s)
  {
    var t := s.current;
    var w := if timed then Enqueue(Set(s, t, s.th[t].(awake := until)), t, false)
             else Set(s, t, s.th[t].(state := Sleeping));
    w.(slot := s.slot[i := Slot(true, addr, t)])
  }

  lemma WaitedInv(s: State, i: nat, addr: nat, timed: bool, until: nat)
    requires Inv(s) && i < FUTEX_COUNT && !s.slot[i].valid && CurrentRuns(s)
    ensures Inv(Waited(s, i, addr, timed, until))
  {
    var t := s.current;
    var a := if timed then Set(s, t, s.th[t].(awake := until)) else Set(s, t, s.th[t].(state := Sleeping));
    SetQueues(s, t, a.th[t]);
    if timed {
      EnqueueQueues(a, t, false);
    }
    var w := Waited(s, i, addr, timed, until);
    hide Queues;
    SlotsNotRunning(s);
    WaitedSlots(s, w, i, addr);
    SameLists(s, w);
    var b := if timed then Enqueue(a, t, false) else a;
    assert w == b.(slot := w.slot);
    SlotsNoQueues(b, w);
  }

  lemma SlotsNoQueues(b: State, w: State)
    requires Sized(b) && Sized(w) && Queues(b) && w.th == b.th && w.queue == b.queue
    ensures Queues(w)
  {
    forall q: nat | q < LEVELS ensures QueueOk(w, q) {
      assert QueueOk(b, q);
    }
    forall u: nat | u < |w.th| ensures Placed(w, u) {
      assert Placed(b, u);
    }
  }

  lemma WaitedSlots(s: State, w: State, i: nat, addr: nat)
    requires Sized(s) && Sized(w) && Slots(s) && i < FUTEX_COUNT && CurrentRuns(s) && !s.th[s.current].killed && |w.th| == |s.th|
    requires w.slot == s.slot[i := Slot(true, addr, s.current)]
    requires forall u: nat :: u < |s.th| && u != s.current ==> w.th[u] == s.th[u]
    requires (w.th[s.current].state == Sleeping || w.th[s.current].state == Runnable) && !w.th[s.current].killed && w.th[s.current].chan == 0
    requires forall k: nat :: k < FUTEX_COUNT && s.slot[k].valid ==>
               s.slot[k].thread < |s.th| && (s.th[s.slot[k].thread].state == Sleeping || s.th[s.slot[k].thread].state == Runnable)
    ensures Slots(w)
  {
    forall k: nat | k < FUTEX_COUNT ensures SlotOk(w, k) {
      assert SlotOk(s, k);
    }
    forall k: nat, j: nat | k < FUTEX_COUNT && j < FUTEX_COUNT ensures SlotsApart(w, k, j) {
      assert SlotsApart(s, k, j);
    }
  }

  /** The end of threadFree: out of its queue and the list of used threads, first of the spare ones. */
  function Retired(s: State, t: nat): State
    requires Sized(s) && t < |s.th|
  {
    var w := if s.th[t].state == Runnable then Dequeue(s, t) else s;
    Set(w, t, s.th[t].(state := Unused)).(used := Without(s.used, t), spare := [t] + s.spare)
  }

  lemma RetiredInv(s: State, t: nat)
    requires Inv(s) && t < |s.th| && s.th[t].state != Unused && NoSlot(s, t)
    ensures Inv(Retired(s, t))
  {
    var x := s.th[t].(state := Unused);
    if s.th[t].state == Runnable {
      DequeueQueues(s, t, x);
    } else {
      SetQueues(s, t, x);
    }
    var w := Retired(s, t);
    SlotsNoQueues(if s.th[t].state == Runnable then Set(Dequeue(s, t), t, x) else Set(s, t, x), w);
    hide Queues;
    FreeOfSlots(s, w, t);
    hide Slots;
    RetiredLists(s, t);
  }

  lemma RetiredLists(s: State, t: nat)
    requires Sized(s) && Lists(s) && t < |s.th| && s.th[t].state != Unused
    ensures Lists(Retired(s, t))
  {
    var w := Retired(s, t);
    WithoutIs(s.used, t);
    DistinctCons(t, s.spare);
    hide Distinct, Without;
    forall u: nat | u < |w.th| ensures if w.th[u].state == Unused then u in w.spare else u in w.used {
      assert if s.th[u].state == Unused then u in s.spare else u in s.used;
    }
  }

  /** sched_setscheduler on a thread in use: a queued one moves to the head of its new queue. */
  function Rescheduled(s: State, t: nat, policy: Policy, pri: int): State
    requires Sized(s) && t < |s.th| && HasQueue(pri)
  {
    var x := s.th[t].(policy := policy, pri := pri);
    if s.th[t].state == Runnable then Enqueue(Set(Dequeue(s, t), t, x.(state := Sleeping)), t, true) else Set(s, t, x)
  }

  lemma RescheduledInv(s: State, t: nat, policy: Policy, pri: int)
    requires Inv(s) && t < |s.th| && HasQueue(pri)
    ensures Inv(Rescheduled(s, t, policy, pri))
  {
    var x := s.th[t].(policy := policy, pri := pri);
    if s.th[t].state == Runnable {
      DequeueQueues(s, t, x.(state := Sleeping));
      EnqueueQueues(Set(Dequeue(s, t), t, x.(state := Sleeping)), t, true);
    } else {
      SetQueues(s, t, x);
    }
    hide Queues;
    SameSlots(s, Rescheduled(s, t, policy, pri));
    SameLists(s, Rescheduled(s, t, policy, pri));
  }

  /** What section 2.8.4 of POSIX.1-2017 XSH asks for: a queued thread moves to the tail of its new queue. */
  function RescheduledToTail(s: State, t: nat, policy: Policy, pri: int): State
    requires Sized(s) && t < |s.th| && HasQueue(pri)
  {
    var x := s.th[t].(policy := policy, pri := pri);
    if s.th[t].state == Runnable then Enqueue(Set(Dequeue(s, t), t, x.(state := Sleeping)), t, false) else Set(s, t, x)
  }

  /** t is the only thread in the queue, if there is one. */
  predicate Only(q: seq<nat>, t: nat) {
    forall j :: 0 <= j < |q| ==> q[j] == t
  }

  lemma EndsSame(p: seq<nat>, q: seq<nat>, t: nat)
    requires forall u :: u in q <==> u in p && u != t
    ensures [t] + q == q + [t] <==> Only(p, t)
  {
    if q == [] {
      assert [t] + q == q + [t];
      assert forall j :: 0 <= j < |p| ==> p[j] in p;
    } else {
      assert ([t] + q)[0] == t && (q + [t])[0] == q[0] && q[0] in q;
    }
  }

  /** Head and tail are the same exactly for a thread that is not queued, or is alone in its new queue. */
  lemma HeadIsTailIff(s: State, t: nat, policy: Policy, pri: int)
    requires Inv(s) && t < |s.th| && HasQueue(pri)
    ensures Rescheduled(s, t, policy, pri) == RescheduledToTail(s, t, policy, pri)
            <==> s.th[t].state != Runnable || Only(s.queue[99 - pri], t)
  {
    hide Slots, Lists, Without, Only;
    if s.th[t].state == Runnable {
      var k := Level(s.th[t]);
      var x := s.th[t].(policy := policy, pri := pri, state := Sleeping);
      var d := Set(Dequeue(s, t), t, x);
      var q := d.queue[99 - pri];
      DequeuedHas(s, t, 99 - pri);
      EndsSame(s.queue[99 - pri], q, t);
      var a, b := Rescheduled(s, t, policy, pri), RescheduledToTail(s, t, policy, pri);
      assert a == Enqueue(d, t, true) && b == Enqueue(d, t, false);
      assert a.queue[99 - pri] == [t] + q && b.queue[99 - pri] == q + [t];
    }
  }

  lemma DequeuedHas(s: State, t: nat, k: nat)
    requires Inv(s) && t < |s.th| && s.th[t].state == Runnable && k < LEVELS
    ensures forall u :: u in Dequeue(s, t).queue[k] <==> u in s.queue[k] && u != t
  {
    hide Slots, Lists, Without;
    assert QueueOk(s, Level(s.th[t])) && QueueOk(s, k);
    WithoutIs(s.queue[Level(s.th[t])], t);
  }

  /** The end of fifoSched, threadRun, and sleep where it goes on: the thread leaves its queue, its futex slot and its channel, and runs. */
  function Picked(s: State, t: nat): State
    requires Sized(s) && t < |s.th|
  {
    Cleared(Set(Dequeue(s, t), t, s.th[t].(state := Running, awake := 0, chan := 0)).(current := t), t)
  }

  lemma PickedInv(s: State, t: nat)
    requires Inv(s) && t < |s.th| && s.th[t].state == Runnable && !s.th[t].killed && NoneRuns(s)
    ensures Inv(Picked(s, t))
  {
    ClearedInv(s, t);
    var c := Cleared(s, t);
    var x := s.th[t].(state := Running, awake := 0, chan := 0);
    DequeueQueues(c, t, x);
    var w := Picked(s, t);
    SlotsNoQueues(Set(Dequeue(c, t), t, x), w);
    hide Queues;
    FreeOfSlots(c, w, t);
    SameLists(s, w);
  }

  // ----- picking ----------------------------------------------------------------------------------

  ghost predicate Awake(s: State, t: nat, now: nat) {
    t < |s.th| && s.th[t].state == Runnable && !s.th[t].killed && s.th[t].awake <= now
  }

  ghost predicate NoneRuns(s: State) {
    forall t: nat :: t < |s.th| ==> s.th[t].state != Running
  }

  /** Killed threads that are still about. */
  ghost function Doomed(s: State): set<nat> {
    set t: nat | t < |s.th| && s.th[t].killed && s.th[t].state != Unused
  }

  /** Threads only change by being destroyed when killed, or woken through a futex by such a death. */
  ghost predicate Lost(a: State, b: State) {
    && |b.th| == |a.th|
    && forall t: nat :: t < |a.th| ==>
         b.th[t] == a.th[t] || (a.th[t].killed && b.th[t].state == Unused)
         || (a.th[t].state != Unused && a.th[t].state != Running && b.th[t] == a.th[t].(state := Runnable) && Doomed(b) < Doomed(a))
  }

  lemma LostTrans(a: State, b: State, c: State)
    requires Lost(a, b) && Lost(b, c) && Doomed(b) <= Doomed(a) && Doomed(c) <= Doomed(b)
    ensures Lost(a, c)
  {
    hide Doomed;
  }

  lemma KilledNoSlot(s: State, t: nat)
    requires Inv(s) && t < |s.th| && s.th[t].killed
    ensures NoSlot(s, t)
  {
    hide Queues, Lists;
    forall i: nat | i < FUTEX_COUNT ensures !(s.slot[i].valid && s.slot[i].thread == t) {
      assert SlotOk(s, i);
    }
  }

  /** threadFree of a killed thread: it is gone, at most one futex waiter woke, nothing else happened. */
  ghost predicate Freed(a: State, b: State, t: nat) {
    && t < |a.th| == |b.th| && b.current == a.current && b.th[t].state == Unused && b.spare == [t] + a.spare && b.used == Without(a.used, t)
    && forall u: nat :: u < |a.th| && u != t ==>
         b.th[u] == a.th[u] || (a.th[u].state != Unused && a.th[u].state != Running && b.th[u] == a.th[u].(state := Runnable))
  }

  lemma FreedLost(a: State, b: State, t: nat)
    requires Freed(a, b, t) && a.th[t].killed && a.th[t].state != Unused
    ensures Lost(a, b) && Doomed(b) < Doomed(a)
  {
    assert t in Doomed(a) && t !in Doomed(b);
  }

  /** The kernel's tables. */
  class Kernel {
    var th: seq<Thread>
    var queue: seq<seq<nat>>
    var slot: seq<Slot>
    var used: seq<nat>
    var spare: seq<nat>
    var current: int

    ghost function V(): State
      reads this
    {
      State(th, queue, slot, used, spare, current)
    }

    ghost predicate Valid()
      reads this
    {
      Inv(V())
    }

    /** threadInit: every thread goes to the head of the spare list, the highest first; the futex slots are zero at boot. */
    constructor ()
      ensures V() == Boot() && Valid()
      ensures |th| == 1024 && forall t :: 0 <= t < 1024 ==> th[t] == Thread(Unused, 0, 0, Other, 0, false, 0)
      ensures |queue| == 140 && forall q :: 0 <= q < 140 ==> queue[q] == []
      ensures |slot| == 64 && forall i :: 0 <= i < 64 ==> !slot[i].valid
      ensures used == [] && |spare| == 1024 && (forall t :: 0 <= t < 1024 ==> spare[t] == t) && current == -1
    {
      th := seq(THREADS, _ => BlankThread());
      queue := seq(LEVELS, _ => []);
      slot := seq(FUTEX_COUNT, _ => Slot(false, 0, 0));
      used, spare, current := [], [], -1;
      new;
      var i := THREADS;
      while i > 0
        invariant 0 <= i <= THREADS && |spare| == THREADS - i && forall k :: 0 <= k < |spare| ==> spare[k] == i + k
        invariant th == Boot().th && queue == Boot().queue && slot == Boot().slot && used == [] && current == -1
        modifies this`th, this`spare
      {
        i := i - 1;
        th := th[i := th[i].(state := Unused)];
        spare := [i] + spare;
      }
      BootInv();
    }

    /** A thread that is not queued becomes runnable. */
    method MakeRunnable(t: nat, front: bool)
      requires Sized(V()) && t < |th|
      modifies this`th, this`queue
      ensures V() == Enqueue(old(V()), t, front)
    {
      var q := Level(th[t]);
      th := th[t := th[t].(state := Runnable)];
      queue := queue[q := if front then [t] + queue[q] else queue[q] + [t]];
    }

    /** futexWake: the first n waiters of the address, in slot order; a negative n wakes them all. */
    method FutexWake(addr: nat, n: int)
      requires Valid()
      modifies this`th, this`queue, this`slot
      ensures Valid() && WokeFutex(old(V()), V(), addr, n, FUTEX_COUNT) && Leads(old(V()), V())
    {
      hide Inv, WokeFutex, Chosen, Enqueue, Slots, Queues, Lists, Leads;
      ghost var a := V();
      SizedInv(a);
      WokeStart(a, addr, n);
      LeadsSelf(a);
      var i, m := 0, n;
      while i < FUTEX_COUNT && m != 0
        invariant 0 <= i <= FUTEX_COUNT && Valid() && Sized(V()) && WokeFutex(a, V(), addr, n, i) && Leads(a, V())
        invariant m == n - if n >= 0 && Rank(a, addr, i) > n then n else Rank(a, addr, i)
      {
        ghost var b := V();
        StillThere(a, b, addr, n, i);
        if slot[i].valid && slot[i].addr == addr {
          WakeSlotInv(b, i);
          WokeOne(a, b, addr, n, i);
          LeadsWoken(a, b, i);
          if th[slot[i].thread].state != Runnable {
            MakeRunnable(slot[i].thread, false);
          }
          slot := slot[i := slot[i].(valid := false)];
          SizedInv(V());
          m := m - 1;
        } else {
          WokeSkip(a, b, addr, n, i);
        }
        i := i + 1;
      }
      WokeRest(a, V(), addr, n, i);
    }

    /** threadFree of a thread that holds no futex slot. */
    method ThreadFree(t: nat)
      requires Valid() && t < |th| && th[t].state != Unused && NoSlot(V(), t)
      modifies this
      ensures Valid() && Freed(old(V()), V(), t) && LeadsOff(old(V()), V(), t)
    {
      hide Inv, NoSlot, WokeFutex, Retired, Freed, Leads, LeadsOff;
      ghost var a := V();
      LeadsSelf(a);
      SizedInv(a);
      WokeSelf(a);
      var ctid := th[t].ctid;
      if ctid != 0 {
        FutexWake(ctid, 1);
      }
      ghost var b := V();
      SizedInv(b);
      WokeKeeps(a, b, ctid, t);
      RetiredInv(b, t);
      var q := Level(th[t]);
      if th[t].state == Runnable {
        queue := queue[q := Without(queue[q], t)];
      }
      th := th[t := th[t].(state := Unused)];
      used := Without(used, t);
      spare := [t] + spare;
      RetiredIs(b, V(), t);
      RetiredFreed(a, b, t);
      LeadsRetired(a, b, t);
    }

    /** One sweep over the queues: the thread to run, or -1. */
    method Sweep(now: nat, ghost w: nat) returns (found: int)
      requires Valid() && NoneRuns(V()) && Awake(V(), w, now)
      modifies this
      ensures Valid() && NoneRuns(V()) && Awake(V(), w, now) && Lost(old(V()), V()) && Doomed(V()) <= Doomed(old(V()))
      ensures Reaches(Hart(old(V()), false), Hart(V(), false))
      ensures found != -1 ==> 0 <= found && Awake(V(), found, now) && FirstOf(V(), found)
      ensures found == -1 && Doomed(V()) == Doomed(old(V())) ==> Turned(old(V()), V(), now, LEVELS)
      ensures found != -1 && AllAwake(old(V()), now) ==> V() == old(V()) && Lowest(V(), found)
      ensures AllAwake(old(V()), now) ==> found != -1
    {
      hide Inv, Queues, Slots, Lists, NoSlot, Freed, Lost, Turned, Doomed, AllAwake, NoneRuns, Awake, QueueOk, Placed, Reaches, LeadsOff;
      ghost var a := V();
      SizedInv(a);
      ReachesSelf(Hart(a, false));
      SweepStart(a, now);
      found := -1;
      var pri := 0;
      while pri < LEVELS
        invariant 0 <= pri <= LEVELS && Valid() && Sized(V()) && NoneRuns(V()) && Awake(V(), w, now) && Lost(a, V()) && Doomed(V()) <= Doomed(a)
        invariant Reaches(Hart(a, false), Hart(V(), false))
        invariant Doomed(V()) == Doomed(a) ==> Turned(a, V(), now, pri)
        invariant AllAwake(a, now) ==> V() == a && forall q :: 0 <= q < pri ==> queue[q] == []
      {
        ghost var b := V();
        if |queue[pri]| > 0 {
          var t := queue[pri][0];
          HeadIs(b, pri);
          if th[t].killed {
            KilledNoSlot(b, t);
            ThreadFree(t);
            ghost var c := V();
            SweepFreed(a, b, c, t, w, now);
            ReachesFreed(a, b, c, t);
            if current == t {
              current := -1;
              NoCurrent(c, V(), a, w, now);
              return;
            }
          } else if th[t].awake > now {
            RotatedInv(b, pri);
            queue := queue[pri := queue[pri][1..] + [t]];
            SweepTurned(a, b, V(), pri, w, now);
            ReachesTurned(a, b, pri);
          } else {
            SweepFound(b, t, pri, now);
            return t;
          }
        } else {
          SweepEmpty(a, b, pri, now);
        }
        pri := pri + 1;
      }
      SweepEnd(a, w, now);
    }

    /**
     fifoSched with a clock that stands still and some awake thread queued: the sweeps end, because
     each one either finds a thread, destroys a killed one, or brings the awake thread one place
     nearer to the head of its queue.
     */
    method FifoSched(now: nat, ghost w: nat)
      requires Valid() && NoneRuns(V()) && Awake(V(), w, now)
      modifies this
      ensures Valid() && CurrentRuns(V()) && |th| == |old(th)|
      ensures Reaches(Hart(old(V()), false), Hart(V(), true))
      ensures var t := current; t < |old(th)| && !old(th)[t].killed && old(th)[t].awake <= now && NoSlot(V(), t)
      ensures exists b :: Lost(old(V()), b) && current < |b.th| && Awake(b, current, now)
                && th == b.th[current := b.th[current].(state := Running, awake := 0, chan := 0)]
      ensures AllAwake(old(V()), now) ==> Lowest(old(V()), current) && V() == Picked(old(V()), current)
    {
      hide Inv, Lost, NoneRuns, Awake, Doomed, AllAwake, Turned, Picked, Lowest, FirstOf, Reaches;
      ghost var a := V();
      SizedInv(a);
      ReachesSelf(Hart(a, false));
      LostSelf(a);
      Nearer(a, a, w, now);
      var found := -1;
      while found == -1
        invariant Valid() && Sized(V()) && NoneRuns(V()) && Awake(V(), w, now) && Lost(a, V()) && Doomed(V()) <= Doomed(a)
        invariant Reaches(Hart(a, false), Hart(V(), false))
        invariant w < |th| && w in queue[Level(th[w])]
        invariant found != -1 ==> 0 <= found < |th| && Awake(V(), found, now) && FirstOf(V(), found)
        invariant AllAwake(a, now) ==> V() == a && (found != -1 ==> Lowest(a, found))
        decreases found == -1, Doomed(V()), Index(queue[Level(th[w])], w)
      {
        ghost var b := V();
        found := Sweep(now, w);
        SizedInv(V());
        LostTrans(a, b, V());
        ReachesTrans(Hart(a, false), Hart(b, false), Hart(V(), false));
        Nearer(b, V(), w, now);
        if found != -1 {
          AwakeFacts(V(), found, now);
        }
      }
      ghost var c := V();
      AwakeFacts(c, found, now);
      LostAwake(a, c, found, now);
      PickedInv(c, found);
      ReadyToRun(c, found);
      ReachesPicked(a, c, found);
      Switch(found);
      PickedIs(c, V(), found, now);
    }

    /** The last lines of fifoSched, threadRun, and sleep where it goes on. */
    method Switch(t: nat)
      requires t < |th| && -40 <= th[t].pri <= 99 && |queue| == 140
      modifies this
      ensures th == old(th)[t := old(th)[t].(state := Running, awake := 0, chan := 0)] && current == t
      ensures queue == old(queue)[99 - old(th)[t].pri := Without(old(queue)[99 - old(th)[t].pri], t)]
      ensures slot == Cleared(old(V()), t).slot && |slot| == |old(slot)| && used == old(used) && spare == old(spare)
      ensures forall k :: 0 <= k < |slot| ==> slot[k] == if old(slot)[k].thread == t then old(slot)[k].(valid := false) else old(slot)[k]
    {
      var q := Level(th[t]);
      queue := queue[q := Without(queue[q], t)];
      if th[t].awake > 0 {
        th := th[t := th[t].(awake := 0)];
      }
      FutexClear(t);
      th := th[t := th[t].(state := Running)];
      current := t;
      th := th[t := th[t].(chan := 0)];
    }

    /** futexClear. */
    method FutexClear(t: nat)
      modifies this`slot
      ensures slot == Cleared(old(V()), t).slot && |slot| == |old(slot)|
      ensures forall k :: 0 <= k < |slot| ==> slot[k] == if old(slot)[k].thread == t then old(slot)[k].(valid := false) else old(slot)[k]
    {
      var i := 0;
      while i < |slot|
        invariant 0 <= i <= |slot| == |old(slot)|
        invariant forall k :: 0 <= k < |slot| ==>
                    slot[k] == if k < i && old(slot)[k].thread == t then old(slot)[k].(valid := false) else old(slot)[k]
      {
        if slot[i].valid && slot[i].thread == t {
          slot := slot[i := slot[i].(valid := false)];
        } else {
          assert slot[i].thread == t ==> slot[i].(valid := false) == slot[i];
        }
        i := i + 1;
      }
    }

    /** callYield, up to the scheduler: a running thread goes to the tail of its queue. */
    method CallYield()
      requires Valid()
      modifies this
      ensures Valid() && NoneRuns(V())
      ensures 0 <= old(current) ==> V() == StateAfter(old(V()), Yield, true)
      ensures !CurrentRuns(old(V())) ==> V() == old(V())
      ensures CurrentRuns(old(V())) ==>
                var t := old(current); var k := 99 - old(th)[t].pri;
                && 0 <= k < |old(queue)| && queue == old(queue)[k := old(queue)[k] + [t]]
                && th == old(th)[t := old(th)[t].(state := Runnable)]
                && current == t && slot == old(slot) && used == old(used) && spare == old(spare)
    {
      ghost var a := V();
      hide Queues, Slots, Lists;
      if 0 <= current < |th| && th[current].state == Running {
        EnqueueInv(a, current, false);
        MakeRunnable(current, false);
      }
    }

    /** timeYield, up to the scheduler. */
    method TimeYield()
      requires Valid()
      modifies this
      ensures Valid() && NoneRuns(V())
      ensures 0 <= old(current) ==> V() == StateAfter(old(V()), Timer, true)
      ensures !CurrentRuns(old(V())) ==> V() == old(V())
      ensures CurrentRuns(old(V())) ==>
                var t := old(current); var k := 99 - old(th)[t].pri;
                && 0 <= k < |old(queue)|
                && queue == old(queue)[k := if old(th)[t].policy == Fifo then [t] + old(queue)[k] else old(queue)[k] + [t]]
                && th == old(th)[t := old(th)[t].(state := Runnable)]
                && current == t && slot == old(slot) && used == old(used) && spare == old(spare)
    {
      ghost var a := V();
      hide Queues, Slots, Lists;
      if 0 <= current < |th| && th[current].state == Running {
        EnqueueInv(a, current, th[current].policy == Fifo);
        MakeRunnable(current, th[current].policy == Fifo);
      }
    }

    /**
     timeYield as a whole, with all runnable threads awake: the thread goes on exactly if nobody is
     queued before it, which for a SCHED_OTHER thread means nobody of its priority either.
     */
    method Tick(now: nat)
      requires Valid() && CurrentRuns(V()) && th[current].awake <= now && AllAwake(V(), now)
      modifies this
      ensures Valid() && CurrentRuns(V()) && Reaches(Hart(old(V()), true), Hart(V(), true)) && Ticked(old(V()), V())
      ensures var t := old(current); var k := 99 - old(th)[t].pri;
              && 0 <= k < |old(queue)|
              && (current == t
                  <==> (forall q :: 0 <= q < k ==> old(queue)[q] == []) && (old(th)[t].policy == Fifo || old(queue)[k] == []))
    {
      hide Inv, Ticked, Reaches, Picked, Lowest, Awake, AllAwake, StateAfter, NoneRuns;
      ghost var a, t := V(), current;
      TimerAwake(a, now);
      StepReaches(a, Timer);
      TimeYield();
      ghost var b := V();
      FifoSched(now, t);
      ReachesTrans(Hart(a, true), Hart(b, false), Hart(V(), true));
      SizedInv(V());
      TickedIs(a, current);
      TickIff(a, V());
    }

    /**
     sleep, up to the scheduler, by a thread that runs or was killed while it ran. A killed one calls
     threadDestroy next; but it is still queued, although it now sleeps.
     */
    method Sleep(chan: nat) returns (destroys: bool)
      requires Valid() && Executing(V())
      modifies this`th
      ensures th == old(th)[current := old(th)[current].(state := Sleeping, chan := chan)] && destroys == old(th)[current].killed
      ensures StateAfter(old(V()), SleepStep(chan), true) == if destroys then Destroyed(V(), current) else V()
      ensures Valid() <==> !destroys
      ensures !destroys ==> NoneRuns(V())
    {
      hide Queues, Slots, Lists;
      SleptIff(V(), chan);
      th := th[current := th[current].(state := Sleeping, chan := chan)];
      destroys := th[current].killed;
    }

    /** The scheduling part of threadSignalSend with SIGKILL, to a thread in use. */
    method Kill(t: nat)
      requires Valid() && t < |th| && th[t].state != Unused
      modifies this`th, this`queue
      ensures V() == StateAfter(old(V()), Step.Kill(t), true) && (Valid() <==> NoSlot(old(V()), t))
      ensures th == old(th)[t := old(th)[t].(state := Runnable, killed := true)]
      ensures var k := 99 - old(th)[t].pri;
              && 0 <= k < |old(queue)|
              && queue == if old(th)[t].state == Runnable then old(queue) else old(queue)[k := old(queue)[k] + [t]]
    {
      hide Queues, Slots, Lists;
      KilledIff(V(), t);
      if th[t].state != Runnable {
        MakeRunnable(t, false);
      }
      th := th[t := th[t].(killed := true)];
    }

    /** wakeup: every sleeper of the channel becomes runnable, and nobody else. */
    method Wakeup(chan: nat)
      requires Valid()
      modifies this`th, this`queue
      ensures Valid() && V() == StateAfter(old(V()), WakeStep(chan), true) && |th| == |old(th)|
      ensures |queue| == |old(queue)| && forall q :: 0 <= q < |queue| ==> old(queue)[q] <= queue[q]
      ensures forall t: nat :: t < |th| ==>
                th[t] == if old(th)[t].state == Sleeping && old(th)[t].chan == chan then old(th)[t].(state := Runnable) else old(th)[t]
    {
      hide Inv, Enqueue;
      ghost var a := V();
      SizedInv(a);
      WakeupWakesAll(a, chan);
      WokenTails(a, chan, used);
      var i := 0;
      while i < |used|
        invariant 0 <= i <= |used| && Valid() && Sized(V())
        invariant Woken(V(), chan, used[i..]) == Woken(a, chan, used)
      {
        var t := used[i];
        assert used[i..][0] == t && used[i..][1..] == used[i + 1..];
        SizedInv(V());
        assert t in used;
        if th[t].state == Sleeping && th[t].chan == chan {
          EnqueueInv(V(), t, false);
          MakeRunnable(t, false);
          SizedInv(V());
        }
        i := i + 1;
      }
      assert used[i..] == [];
    }

    /**
     The scheduling part of process and thread creation. A record is taken and marked runnable before
     the process record is allocated; when that fails it stays behind, runnable and in no queue.
     */
    method Start(pri: int, policy: Policy, ctid: nat, processFree: bool) returns (ok: bool)
      requires Valid() && HasQueue(pri)
      modifies this
      ensures ok == (old(spare) != [] && processFree)
      ensures ok ==> old(spare)[0] < |old(th)| && V() == Started(old(V()), pri, policy, ctid)
      ensures old(spare) != [] ==>
                var t, k := old(spare)[0], 99 - pri;
                && t < |old(th)| && k < |old(queue)| && th == old(th)[t := Thread(Runnable, 0, pri, policy, 0, false, ctid)]
                && queue == (if ok then old(queue)[k := old(queue)[k] + [t]] else old(queue))
                && spare == old(spare)[1..] && used == [t] + old(used) && slot == old(slot) && current == old(current)
      ensures old(spare) == [] ==> V() == old(V())
      ensures Valid() <==> ok || old(spare) == []
    {
      hide Queues, Slots;
      ghost var a := V();
      if |spare| == 0 {
        return false;
      }
      AllocatedInv(a, pri, policy, ctid);
      var t := spare[0];
      spare := spare[1..];
      used := [t] + used;
      th := th[t := Thread(Sleeping, 0, pri, policy, 0, false, ctid)];
      ghost var b := V();
      if !processFree {
        Stray(b, t);
        th := th[t := th[t].(state := Runnable)];
        return false;
      }
      StartedInv(a, pri, policy, ctid);
      MakeRunnable(t, false);
      return true;
    }

    /** processFork, with no tid address, and threadFork, which allocates no process. */
    method Fork(ctid: nat, processFree: bool) returns (ok: bool)
      requires Valid() && Executing(V())
      modifies this
      ensures ok == (old(spare) != [] && processFree)
      ensures ok ==> old(spare)[0] < |old(th)| && V() == StateAfter(old(V()), ForkStep(ctid), true)
      ensures ok ==>
                var t, x := old(spare)[0], old(th)[old(current)]; var k := 99 - x.pri;
                && t < |old(th)| && 0 <= k < |old(queue)| && queue == old(queue)[k := old(queue)[k] + [t]]
                && th == old(th)[t := Thread(Runnable, 0, x.pri, x.policy, 0, false, ctid)]
                && spare == old(spare)[1..] && used == [t] + old(used) && slot == old(slot) && current == old(current)
      ensures old(spare) == [] ==> V() == old(V())
      ensures Valid() <==> ok || old(spare) == []
    {
      hide Queues, Slots, Lists;
      ok := Start(th[current].pri, th[current].policy, ctid, processFree);
    }

    /** processCreatePriority: the first thread, or another one without a parent. */
    method Create(processFree: bool) returns (ok: bool)
      requires Valid()
      modifies this
      ensures ok == (old(spare) != [] && processFree)
      ensures ok ==> old(spare)[0] < |old(th)| && V() == StateAfter(old(V()), Step.Create, true)
      ensures ok ==>
                var t := old(spare)[0];
                && t < |old(th)| && |old(queue)| == 140 && queue == old(queue)[99 := old(queue)[99] + [t]]
                && th == old(th)[t := Thread(Runnable, 0, 0, Other, 0, false, 0)]
                && spare == old(spare)[1..] && used == [t] + old(used) && slot == old(slot) && current == old(current)
      ensures old(spare) == [] ==> V() == old(V())
      ensures Valid() <==> ok || old(spare) == []
    {
      hide Queues, Slots, Lists;
      ok := Start(0, Other, 0, processFree);
    }

    /** nanosleep, up to the scheduler: the thread stays queued, not to be picked before the time given. */
    method Nap(until: nat)
      requires Valid() && Executing(V())
      modifies this
      ensures Valid() && NoneRuns(V()) && V() == StateAfter(old(V()), NapStep(until), true)
      ensures var t := current; var k := 99 - old(th)[t].pri;
              && t == old(current) && 0 <= k < |old(queue)|
              && queue == (if old(th)[t].state == Running then old(queue)[k := old(queue)[k] + [t]] else old(queue))
              && th == old(th)[t := old(th)[t].(state := Runnable, awake := until)]
              && slot == old(slot) && used == old(used) && spare == old(spare)
    {
      hide Queues, Slots, Lists;
      AwakeInv(V(), until);
      th := th[current := th[current].(awake := until)];
      CallYield();
    }

    /** futexWait, up to the scheduler; with no slot left the kernel panics. */
    method FutexWait(addr: nat, timed: bool, until: nat) returns (panics: bool)
      requires Valid() && Executing(V())
      modifies this
      ensures panics <==> forall k :: 0 <= k < 64 ==> old(slot)[k].valid
      ensures Valid() <==> panics || CurrentRuns(old(V()))
      ensures panics ==> V() == old(V())
      ensures !panics ==> NoneRuns(V())
      ensures !panics ==> exists i: nat :: i < FUTEX_COUNT && !old(slot)[i].valid && (forall k :: 0 <= k < i ==> old(slot)[k].valid)
                                           && slot == old(slot)[i := Slot(true, addr, old(current))]
                                           && V() == StateAfter(old(V()), WaitStep(i, addr, timed, until), true)
      ensures !panics ==>
                var t := current; var k := 99 - old(th)[t].pri;
                && t == old(current) && 0 <= k < |old(queue)| && used == old(used) && spare == old(spare)
                && th == old(th)[t := if timed then old(th)[t].(state := Runnable, awake := until) else old(th)[t].(state := Sleeping)]
                && queue == if old(th)[t].state == Running then (if timed then old(queue)[k := old(queue)[k] + [t]] else old(queue))
                            else if timed then old(queue) else old(queue)[k := Without(old(queue)[k], t)]
    {
      hide Queues, Slots, Lists, Without, NoSlot;
      ghost var a := V();
      var i := 0;
      while i < FUTEX_COUNT && slot[i].valid
        invariant 0 <= i <= FUTEX_COUNT && forall k :: 0 <= k < i ==> slot[k].valid
      {
        i := i + 1;
      }
      if i == FUTEX_COUNT {
        return true;
      }
      WaitIff(a, i, addr, timed, until);
      slot := slot[i := Slot(true, addr, current)];
      if timed {
        th := th[current := th[current].(awake := until)];
        if th[current].state == Running {
          MakeRunnable(current, false);
        }
      } else {
        if th[current].state == Runnable {
          var q := Level(th[current]);
          queue := queue[q := Without(queue[q], current)];
        }
        th := th[current := th[current].(state := Sleeping)];
      }
      assert V() == if CurrentRuns(a) then Waited(a, i, addr, timed, until) else WaitedQueued(a, i, addr, timed, until);
      return false;
    }

    /** futexRequeue: wake the first n waiters and move the others to the new address. */
    method FutexRequeue(addr: nat, n: int, newAddr: nat)
      requires Valid()
      modifies this`th, this`queue, this`slot
      ensures Valid() && Leads(old(V()), V())
      ensures exists b :: WokeFutex(old(V()), b, addr, n, FUTEX_COUNT) && V() == Moved(b, addr, newAddr) && MovedTo(b, V(), addr, newAddr)
    {
      hide Inv, WokeFutex, Leads;
      ghost var a := V();
      FutexWake(addr, n);
      ghost var b := V();
      SizedInv(b);
      MovedInv(b, addr, newAddr);
      LeadsMoved(a, b, addr, newAddr);
      var i := 0;
      while i < FUTEX_COUNT
        invariant 0 <= i <= FUTEX_COUNT == |slot|
        invariant forall k :: 0 <= k < FUTEX_COUNT ==>
                    slot[k] == if k < i && b.slot[k].valid && b.slot[k].addr == addr then b.slot[k].(addr := newAddr) else b.slot[k]
        invariant th == b.th && queue == b.queue
      {
        if slot[i].valid && slot[i].addr == addr {
          slot := slot[i := slot[i].(addr := newAddr)];
        }
        i := i + 1;
      }
      assert V() == Moved(b, addr, newAddr);
    }

    /** sched_setscheduler with a known thread. */
    method SetScheduler(t: nat, policy: Policy, pri: int) returns (ok: bool)
      requires Valid() && t < |th| && -40 <= pri <= 99
      modifies this`th, this`queue
      ensures Valid() && ok == !(policy == Other && pri != 0)
      ensures V() == if ok then StateAfter(old(V()), Reschedule(t, policy, pri), true) else old(V())
      ensures ok ==> th == old(th)[t := old(th)[t].(policy := policy, pri := pri)]
      ensures ok && old(th)[t].state != Runnable ==> queue == old(queue)
      ensures ok && old(th)[t].state == Runnable ==>
                var k := 99 - old(th)[t].pri;
                && 0 <= k < |old(queue)| == 140
                && var q := old(queue)[k := Without(old(queue)[k], t)];
                queue == q[99 - pri := [t] + q[99 - pri]]
    {
      hide Queues, Slots, Lists;
      if policy == Other && pri != 0 {
        return false;
      }
      ghost var a := V();
      RescheduledInv(a, t, policy, pri);
      var q, new_ := Level(th[t]), 99 - pri;
      th := th[t := th[t].(policy := policy, pri := pri)];
      if th[t].state == Runnable {
        queue := queue[q := Without(queue[q], t)];
        queue := queue[new_ := [t] + queue[new_]];
      }
      RescheduledIs(a, V(), t, policy, pri);
      return true;
    }

    /** threadDestroy of the current thread, up to the scheduler; handleSignal calls it for one killed while it ran. */
    method Exit()
      requires Valid() && 0 <= current && th[current].state != Unused && (CurrentRuns(V()) || NoSlot(V(), current))
      modifies this
      ensures Valid() && NoneRuns(V()) && current == -1 && Freed(old(V()), V().(current := old(current)), old(current))
    {
      hide Queues, Slots, Lists;
      ghost var a := V();
      if CurrentRuns(a) {
        RunningNoSlot(a);
      }
      ThreadFree(current);
      ghost var b := V();
      current := -1;
      NoCurrentInv(b);
    }
  }

  /** From a the running thread was put back by the timer and the first of the lowest queue was picked. */
  ghost predicate Ticked(a: State, b: State) {
    && Sized(a) && CurrentRuns(a) && Sized(b) && 0 <= b.current < |a.th|
    && var w := StateAfter(a, Timer, true);
    Sized(w) && |w.th| == |a.th| && Lowest(w, b.current) && b == Picked(w, b.current)
  }

  lemma TickedIs(a: State, t: int)
    requires Inv(a) && CurrentRuns(a) && 0 <= t < |a.th|
    requires Lowest(StateAfter(a, Timer, true), t) && Sized(Picked(StateAfter(a, Timer, true), t))
    ensures Ticked(a, Picked(StateAfter(a, Timer, true), t))
  {
    hide Queues, Slots, Lists, Lowest;
  }

  lemma StepReaches(a: State, e: Step)
    requires Sized(a) && Enabled(Hart(a, true), e)
    ensures Reaches(Hart(a, true), After(Hart(a, true), e))
  {
    hide Reaches, After;
    ReachesSelf(Hart(a, true));
    ReachesMore(Hart(a, true), Hart(a, true), e);
  }

  lemma TimerAwake(a: State, now: nat)
    requires Inv(a) && CurrentRuns(a) && a.th[a.current].awake <= now && AllAwake(a, now)
    ensures var w := StateAfter(a, Timer, true); Sized(a) && Enabled(Hart(a, true), Timer) && Sized(w) && AllAwake(w, now) && Awake(w, a.current, now)
  {
    hide Queues, Slots, Lists;
  }

  /** Who runs after a timer interrupt. */
  lemma TickIff(a: State, b: State)
    requires Inv(a) && Ticked(a, b)
    ensures var k := 99 - a.th[a.current].pri;
            && 0 <= k < 140
            && (b.current == a.current
                <==> (forall q :: 0 <= q < k ==> a.queue[q] == []) && (a.th[a.current].policy == Fifo || a.queue[k] == []))
  {
    hide Slots, Lists;
    var t := a.current;
    var k, w := 99 - a.th[t].pri, StateAfter(a, Timer, true);
    assert QueueOk(a, k);
    assert t !in a.queue[k];
    if a.th[t].policy != Fifo && a.queue[k] != [] {
      assert w.queue[k][0] == a.queue[k][0] && a.queue[k][0] in a.queue[k];
    }
    if b.current == t {
      assert forall q :: 0 <= q < k ==> w.queue[q] == a.queue[q];
    } else if forall q :: 0 <= q < k ==> a.queue[q] == [] {
      LowestIsFirst(w, k, b.current);
    }
  }

  /** The running thread and those behind it in the queue of its priority. */
  ghost function Line(s: State): seq<nat>
    requires Sized(s) && CurrentRuns(s)
  {
    [s.current] + s.queue[99 - s.th[s.current].pri]
  }

  /** Nobody is queued with a priority above that of the running thread, and it and all behind it have SCHED_OTHER; none of them was killed. */
  ghost predicate Shared(s: State) {
    && Inv(s) && CurrentRuns(s) && (forall q :: 0 <= q < 99 - s.th[s.current].pri ==> s.queue[q] == [])
    && forall j :: 0 <= j < |Line(s)| ==> Line(s)[j] < |s.th| && s.th[Line(s)[j]].policy == Other && !s.th[Line(s)[j]].killed
  }

  lemma TickTurns(a: State, b: State)
    requires Shared(a) && Ticked(a, b)
    ensures Shared(b) && Line(b) == Line(a)[1..] + [Line(a)[0]]
  {
    hide Inv, Ticked, StateAfter, Picked, Lowest;
    SharedRuns(a);
    var k, w := 99 - a.th[a.current].pri, StateAfter(a, Timer, true);
    TimerInv(a);
    TimerIs(a);
    PickedShape(a, w, b, k);
    SizedInv(b);
    LineIs(a.current, a.queue[k], b.current, b.queue[k]);
    forall j | 0 <= j < |Line(b)| ensures Line(b)[j] < |b.th| && b.th[Line(b)[j]].policy == Other && !b.th[Line(b)[j]].killed {
      assert Line(b)[j] == Line(a)[if j + 1 < |Line(a)| then j + 1 else 0];
    }
  }

  lemma LineIs(t: nat, q: seq<nat>, u: nat, p: seq<nat>)
    requires u == (q + [t])[0] && p == (q + [t])[1..]
    ensures [u] + p == ([t] + q)[1..] + [t]
  {
    assert q + [t] == [u] + p;
  }

  lemma TimerInv(a: State)
    requires Inv(a) && CurrentRuns(a)
    ensures Inv(StateAfter(a, Timer, true)) && NoneRuns(StateAfter(a, Timer, true))
  {
    hide Queues, Slots, Lists;
    EnqueueInv(a, a.current, a.th[a.current].policy == Fifo);
  }

  lemma TimerIs(a: State)
    requires Shared(a)
    ensures var w, t := StateAfter(a, Timer, true), a.current;
            var k := 99 - a.th[t].pri;
            && w.queue == a.queue[k := a.queue[k] + [t]] && w.th == a.th[t := a.th[t].(state := Runnable)]
  {
    hide Queues, Slots, Lists;
    assert Line(a)[0] == a.current;
  }

  lemma PickedShape(a: State, w: State, b: State, k: nat)
    requires Shared(a) && Ticked(a, b) && Inv(w) && NoneRuns(w) && w == StateAfter(a, Timer, true) && k == 99 - a.th[a.current].pri
    requires w.queue == a.queue[k := a.queue[k] + [a.current]] && w.th == a.th[a.current := a.th[a.current].(state := Runnable)]
    ensures Inv(b) && CurrentRuns(b) && 99 - b.th[b.current].pri == k && b.current == w.queue[k][0] && b.queue[k] == w.queue[k][1..]
    ensures |b.th| == |a.th| && (forall u :: 0 <= u < |a.th| ==> b.th[u].policy == a.th[u].policy && b.th[u].killed == a.th[u].killed)
    ensures forall q :: 0 <= q < k ==> b.queue[q] == []
  {
    var u := w.queue[k][0];
    assert QueueOk(w, k) && u in w.queue[k];
    assert Level(w.th[u]) == k;
    assert forall q :: 0 <= q < k ==> w.queue[q] == [];
    LowestIsFirst(w, k, b.current);
    assert u == Line(a)[if a.queue[k] == [] then 0 else 1];
    PickedInv(w, u);
    assert Index(w.queue[k], u) == 0;
  }

  /** Round robin: while only the timer acts, the n-th of the line runs n ticks later, and after one round the line is as it was. */
  lemma {:induction false} RoundRobin(r: seq<State>, n: nat)
    requires n < |r| && Shared(r[0]) && forall i :: 0 <= i < n ==> Ticked(r[i], r[i + 1])
    requires n <= |Line(r[0])|
    ensures Shared(r[n]) && Line(r[n]) == Line(r[0])[n..] + Line(r[0])[..n]
    ensures r[n].current == Line(r[0])[if n < |Line(r[0])| then n else 0]
  {
    hide Shared, Ticked;
    SharedRuns(r[0]);
    if n > 0 {
      RoundRobin(r, n - 1);
      TickTurns(r[n - 1], r[n]);
    }
    SharedRuns(r[n]);
    assert Line(r[n])[0] == r[n].current;
  }

  lemma SharedRuns(s: State)
    requires Shared(s)
    ensures Sized(s) && CurrentRuns(s)
  {
  }

  lemma LowestIsFirst(w: State, k: nat, t: nat)
    requires Sized(w) && t < |w.th| && Lowest(w, t) && k < LEVELS && w.queue[k] != [] && forall q :: 0 <= q < k ==> w.queue[q] == []
    requires 99 - w.th[t].pri >= 0
    ensures t == w.queue[k][0]
  {
    assert !(Level(w.th[t]) < k);
  }

  /** By steps, whoever executes. */
  ghost predicate Leads(a: State, b: State) {
    Reaches(Hart(a, false), Hart(b, false)) && Reaches(Hart(a, true), Hart(b, true))
  }

  /** By steps, once the thread freed is no longer the current one. */
  ghost predicate LeadsOff(a: State, b: State, t: nat) {
    var c := if t == b.current then b.(current := -1) else b;
    Reaches(Hart(a, false), Hart(c, false)) && Reaches(Hart(a, true), Hart(c, t != b.current))
  }

  lemma LeadsSelf(a: State)
    ensures Leads(a, a)
  {
    ReachesSelf(Hart(a, false));
    ReachesSelf(Hart(a, true));
  }

  lemma LeadsMore(a: State, b: State, e: Step)
    requires Leads(a, b) && Sized(b) && Enabled(Hart(b, false), e) && Enabled(Hart(b, true), e)
    ensures Reaches(Hart(a, false), After(Hart(b, false), e)) && Reaches(Hart(a, true), After(Hart(b, true), e))
  {
    hide Reaches, After, Enabled, Sized;
    ReachesMore(Hart(a, false), Hart(b, false), e);
    ReachesMore(Hart(a, true), Hart(b, true), e);
  }

  lemma LeadsWoken(a: State, b: State, i: nat)
    requires Leads(a, b) && Sized(b) && i < FUTEX_COUNT && b.slot[i].valid && b.slot[i].thread < |b.th|
    ensures Leads(a, WakeSlot(b, i))
  {
    hide Reaches, WakeSlot;
    LeadsMore(a, b, WakeSlotStep(i));
  }

  lemma LeadsMoved(a: State, b: State, addr: nat, newAddr: nat)
    requires Leads(a, b) && Sized(b)
    ensures Leads(a, Moved(b, addr, newAddr))
  {
    hide Reaches, Moved;
    LeadsMore(a, b, MoveStep(addr, newAddr));
  }

  lemma LeadsRetired(a: State, b: State, t: nat)
    requires Leads(a, b) && Sized(b) && t < |b.th| && b.th[t].state != Unused
    ensures LeadsOff(a, Retired(b, t), t)
  {
    hide Reaches, Retired;
    RetiredOthers(b, t);
    LeadsMore(a, b, Destroy(t));
  }

  lemma ReachesFreed(a: State, b: State, c: State, t: nat)
    requires Reaches(Hart(a, false), Hart(b, false)) && LeadsOff(b, c, t)
    ensures Reaches(Hart(a, false), Hart(if t == c.current then c.(current := -1) else c, false))
  {
    hide Reaches;
    ReachesTrans(Hart(a, false), Hart(b, false), Hart(if t == c.current then c.(current := -1) else c, false));
  }

  lemma ReachesTurned(a: State, b: State, q: nat)
    requires Reaches(Hart(a, false), Hart(b, false)) && Sized(b) && q < LEVELS && b.queue[q] != []
    ensures Reaches(Hart(a, false), Hart(Rotated(b, q), false))
  {
    hide Reaches;
    ReachesMore(Hart(a, false), Hart(b, false), RotateStep(q));
  }

  lemma ReachesPicked(a: State, b: State, t: nat)
    requires Reaches(Hart(a, false), Hart(b, false)) && Sized(b) && t < |b.th| && b.th[t].state == Runnable && !b.th[t].killed
    ensures Reaches(Hart(a, false), Hart(Picked(b, t), true))
  {
    hide Reaches, Picked;
    ReachesMore(Hart(a, false), Hart(b, false), Pick(t));
  }

  lemma StillThere(a: State, b: State, addr: nat, n: int, i: nat)
    requires WokeFutex(a, b, addr, n, i) && i < FUTEX_COUNT
    ensures b.slot[i] == a.slot[i] && |b.th| == |a.th| && |a.slot| == FUTEX_COUNT
    ensures Chosen(a, addr, n, i) <==> a.slot[i].valid && a.slot[i].addr == addr && (n < 0 || Rank(a, addr, i) < n)
    ensures Rank(a, addr, i + 1) == Rank(a, addr, i) + if a.slot[i].valid && a.slot[i].addr == addr then 1 else 0
  {
  }

  lemma WokeSelf(a: State)
    requires Sized(a)
    ensures WokeFutex(a, a, 0, 0, FUTEX_COUNT)
  {
  }

  lemma RetiredIs(b: State, w: State, t: nat)
    requires Sized(b) && t < |b.th| && w.th == b.th[t := b.th[t].(state := Unused)] && w.slot == b.slot && w.current == b.current
    requires w.queue == if b.th[t].state == Runnable then b.queue[Level(b.th[t]) := Without(b.queue[Level(b.th[t])], t)] else b.queue
    requires w.used == Without(b.used, t) && w.spare == [t] + b.spare
    ensures w == Retired(b, t)
  {
  }

  /** A futex wake leaves a thread without slot alone. */
  lemma WokeKeeps(a: State, b: State, addr: nat, t: nat)
    requires t < |a.th| && NoSlot(a, t) && (WokeFutex(a, b, addr, 1, FUTEX_COUNT) || b == a)
    ensures |b.th| == |a.th| && b.th[t] == a.th[t] && NoSlot(b, t) && b.current == a.current && b.used == a.used && b.spare == a.spare
    ensures forall u: nat :: u < |a.th| ==> b.th[u] == a.th[u] || (b.th[u] == a.th[u].(state := Runnable) && exists i: nat :: i < |a.slot| && a.slot[i].valid && a.slot[i].thread == u)
  {
  }

  lemma RetiredFreed(a: State, b: State, t: nat)
    requires Inv(a) && Sized(b) && t < |a.th| == |b.th| && b.th[t] == a.th[t] && b.current == a.current && b.used == a.used && b.spare == a.spare
    requires forall u: nat :: u < |a.th| ==> b.th[u] == a.th[u] || (b.th[u] == a.th[u].(state := Runnable) && exists i: nat :: i < |a.slot| && a.slot[i].valid && a.slot[i].thread == u)
    ensures Freed(a, Retired(b, t), t)
  {
    SlotsNotRunning(a);
  }

  /** The first thread of its queue. */
  ghost predicate FirstOf(s: State, t: nat)
    requires Sized(s) && t < |s.th|
  {
    s.queue[Level(s.th[t])] != [] && s.queue[Level(s.th[t])][0] == t
  }

  ghost predicate AllAwake(s: State, now: nat) {
    forall t: nat :: t < |s.th| && s.th[t].state == Runnable ==> Awake(s, t, now)
  }

  /** First of the lowest queue that is not empty. */
  ghost predicate Lowest(s: State, t: nat)
    requires Sized(s) && t < |s.th|
  {
    FirstOf(s, t) && forall q :: 0 <= q < Level(s.th[t]) ==> s.queue[q] == []
  }

  function Turn(q: seq<nat>): seq<nat> {
    if q == [] then q else q[1..] + [q[0]]
  }

  /** The queues below pri have been turned once, none of their first threads being awake; nothing else changed. */
  ghost predicate Turned(a: State, b: State, now: nat, pri: nat) {
    && Sized(a) && Sized(b) && pri <= LEVELS && b.th == a.th && b.slot == a.slot
    && (forall q: nat :: q < LEVELS ==> b.queue[q] == if q < pri then Turn(a.queue[q]) else a.queue[q])
    && forall q: nat :: q < pri && a.queue[q] != [] ==> !Awake(a, a.queue[q][0], now)
  }

  lemma SweepStart(a: State, now: nat)
    requires Sized(a)
    ensures Turned(a, a, now, 0) && Lost(a, a)
  {
  }

  lemma HeadIs(s: State, q: nat)
    requires Inv(s) && q < LEVELS && s.queue[q] != []
    ensures s.queue[q][0] < |s.th| && s.th[s.queue[q][0]].state == Runnable && Level(s.th[s.queue[q][0]]) == q
  {
    assert QueueOk(s, q) && s.queue[q][0] in s.queue[q];
  }

  lemma SweepFreed(a: State, b: State, c: State, t: nat, w: nat, now: nat)
    requires Sized(a) && Inv(b) && Inv(c) && Lost(a, b) && Doomed(b) <= Doomed(a) && NoneRuns(b) && Awake(b, w, now)
    requires t < |b.th| && b.th[t].killed && b.th[t].state == Runnable && Freed(b, c, t)
    requires AllAwake(a, now) ==> b == a
    ensures NoneRuns(c) && Awake(c, w, now) && Lost(a, c) && Doomed(c) < Doomed(a) && !AllAwake(a, now) && Sized(c)
  {
    FreedLost(b, c, t);
    LostTrans(a, b, c);
  }

  lemma NoCurrent(c: State, d: State, a: State, w: nat, now: nat)
    requires Inv(c) && NoneRuns(c) && Lost(a, c) && Awake(c, w, now) && d == c.(current := -1) && Doomed(c) < Doomed(a)
    ensures Inv(d) && NoneRuns(d) && Lost(a, d) && Awake(d, w, now) && Doomed(d) < Doomed(a)
  {
    assert Doomed(d) == Doomed(c);
    hide Queues, Slots, Lists;
    NoCurrentInv(c);
  }

  /** currentThread is cleared when nothing runs. */
  lemma NoCurrentInv(s: State)
    requires Inv(s) && NoneRuns(s)
    ensures Inv(s.(current := -1))
  {
    var w := s.(current := -1);
    SlotsNoQueues(s, w);
    hide Queues;
    SameSlots(s, w);
    SameLists(s, w);
  }

  lemma SweepTurned(a: State, b: State, c: State, pri: nat, w: nat, now: nat)
    requires Inv(a) && Inv(b) && pri < LEVELS && b.queue[pri] != [] && c == Rotated(b, pri) && Lost(a, b) && NoneRuns(b) && Awake(b, w, now)
    requires b.queue[pri][0] < |b.th| && b.th[b.queue[pri][0]].state == Runnable && b.th[b.queue[pri][0]].awake > now
    requires Doomed(b) == Doomed(a) ==> Turned(a, b, now, pri)
    requires AllAwake(a, now) ==> b == a
    ensures Sized(c) && NoneRuns(c) && Awake(c, w, now) && Lost(a, c) && Doomed(c) == Doomed(b) && !AllAwake(a, now)
    ensures Doomed(c) == Doomed(a) ==> Turned(a, c, now, pri + 1)
  {
    hide Queues, Slots, Lists;
    assert Doomed(c) == Doomed(b);
  }

  lemma SweepEmpty(a: State, b: State, pri: nat, now: nat)
    requires pri < LEVELS && Sized(b) && b.queue[pri] == []
    ensures Turned(a, b, now, pri) ==> Turned(a, b, now, pri + 1)
  {
  }

  lemma SweepFound(b: State, t: nat, pri: nat, now: nat)
    requires Sized(b) && pri < LEVELS && b.queue[pri] != [] && t == b.queue[pri][0] && t < |b.th| && b.th[t].state == Runnable
    requires Level(b.th[t]) == pri && !b.th[t].killed && b.th[t].awake <= now
    ensures Awake(b, t, now) && FirstOf(b, t)
    ensures (forall q :: 0 <= q < pri ==> b.queue[q] == []) ==> Lowest(b, t)
  {
  }

  lemma SweepEnd(a: State, w: nat, now: nat)
    requires Inv(a) && Awake(a, w, now)
    ensures !(forall q :: 0 <= q < LEVELS ==> a.queue[q] == [])
  {
    assert Placed(a, w);
  }

  lemma AwakeFacts(s: State, t: nat, now: nat)
    requires Awake(s, t, now)
    ensures t < |s.th| && s.th[t].state == Runnable && !s.th[t].killed && s.th[t].awake <= now
  {
  }

  lemma LostAwake(a: State, b: State, t: nat, now: nat)
    requires Lost(a, b) && Awake(b, t, now)
    ensures t < |a.th| == |b.th| && !a.th[t].killed && a.th[t].awake <= now
  {
  }

  lemma ReadyToRun(s: State, t: nat)
    requires Sized(s) && t < |s.th|
    ensures HasQueue(s.th[t].pri) && |s.queue| == LEVELS && |s.slot| == FUTEX_COUNT
  {
  }

  lemma PickedIs(c: State, d: State, t: nat, now: nat)
    requires Inv(c) && t < |c.th| && c.th[t].state == Runnable && d.th == c.th[t := c.th[t].(state := Running, awake := 0, chan := 0)] && d.current == t
    requires d.queue == c.queue[99 - c.th[t].pri := Without(c.queue[99 - c.th[t].pri], t)]
    requires d.slot == Cleared(c, t).slot && d.used == c.used && d.spare == c.spare
    ensures d == Picked(c, t) && CurrentRuns(d) && NoSlot(d, t)
  {
    hide Queues, Slots, Lists;
  }

  lemma LostSelf(a: State)
    ensures Lost(a, a)
  {
  }

  /** A sweep that finds and destroys nothing brings an awake thread nearer. */
  lemma Nearer(a: State, b: State, w: nat, now: nat)
    requires Inv(a) && Inv(b) && Awake(a, w, now) && Awake(b, w, now)
    ensures w < |a.th| && w < |b.th| && w in a.queue[Level(a.th[w])] && w in b.queue[Level(b.th[w])]
    ensures Turned(a, b, now, LEVELS) ==> b.th[w] == a.th[w] && Index(b.queue[Level(b.th[w])], w) < Index(a.queue[Level(a.th[w])], w)
  {
    assert Placed(a, w) && Placed(b, w);
    if Turned(a, b, now, LEVELS) {
      var q := a.queue[Level(a.th[w])];
      assert b.queue[Level(a.th[w])] == Turn(q);
      TurnIndex(q, w);
    }
  }

  lemma TurnIndex(q: seq<nat>, w: nat)
    requires w in q && q[0] != w
    ensures w in Turn(q) && Index(Turn(q), w) < Index(q, w)
  {
    var k := Index(q, w);
    assert Turn(q)[k - 1] == w;
    IndexFirst(Turn(q), w, k - 1);
  }

  lemma {:induction false} IndexFirst(q: seq<nat>, t: nat, k: nat)
    requires k < |q| && q[k] == t
    ensures t in q && Index(q, t) <= k
  {
    if q[0] != t {
      IndexFirst(q[1..], t, k - 1);
    }
  }

  /** A record marked runnable that no queue holds. */
  lemma Stray(b: State, t: nat)
    requires Inv(b) && t < |b.th| && b.th[t].state == Sleeping
    ensures !Inv(Set(b, t, b.th[t].(state := Runnable)))
  {
    var w := Set(b, t, b.th[t].(state := Runnable));
    assert QueueOk(b, Level(b.th[t]));
    assert !Placed(w, t);
  }

  lemma RescheduledIs(a: State, b: State, t: nat, policy: Policy, pri: int)
    requires Sized(a) && t < |a.th| && HasQueue(pri) && b.th == a.th[t := a.th[t].(policy := policy, pri := pri)]
    requires if a.th[t].state == Runnable
             then var q := a.queue[Level(a.th[t]) := Without(a.queue[Level(a.th[t])], t)]; b.queue == q[99 - pri := [t] + q[99 - pri]]
             else b.queue == a.queue
    requires b.slot == a.slot && b.used == a.used && b.spare == a.spare && b.current == a.current
    ensures b == Rescheduled(a, t, policy, pri)
  {
    var r := Rescheduled(a, t, policy, pri);
    assert b.th == r.th && b.queue == r.queue;
  }

  /** The second loop of futexRequeue. */
  function Moved(s: State, addr: nat, newAddr: nat): State {
    s.(slot := seq(|s.slot|, (i: nat) requires i < |s.slot| =>
      if s.slot[i].valid && s.slot[i].addr == addr then s.slot[i].(addr := newAddr) else s.slot[i]))
  }

  lemma MovedInv(s: State, addr: nat, newAddr: nat)
    requires Inv(s)
    ensures Inv(Moved(s, addr, newAddr))
  {
    var w := Moved(s, addr, newAddr);
    SlotsNoQueues(s, w);
    forall j: nat | j < FUTEX_COUNT ensures SlotOk(w, j) {
      assert SlotOk(s, j);
    }
    forall j: nat, k: nat | j < FUTEX_COUNT && k < FUTEX_COUNT ensures SlotsApart(w, j, k) {
      assert SlotsApart(s, j, k);
    }
    SameLists(s, w);
  }

  lemma RunningNoSlot(s: State)
    requires Inv(s) && CurrentRuns(s)
    ensures NoSlot(s, s.current)
  {
    hide Queues, Lists;
    SlotsNotRunning(s);
  }

  /** threadFree keeps the invariant exactly if the thread has no futex slot. */
  lemma RetiredIff(s: State, t: nat)
    requires Inv(s) && t < |s.th| && s.th[t].state != Unused
    ensures Inv(Retired(s, t)) <==> NoSlot(s, t)
  {
    hide Queues, Lists;
    if NoSlot(s, t) {
      RetiredInv(s, t);
    } else {
      var i: nat :| i < |s.slot| && s.slot[i].valid && s.slot[i].thread == t;
      assert !SlotOk(Retired(s, t), i);
    }
  }

  /** A waiter that dies with its slot is put back into a run queue by a later wake, while it is free. */
  lemma DeadWaiter(s: State, t: nat, i: nat)
    requires Inv(s) && t < |s.th| && s.th[t].state == Sleeping && i < FUTEX_COUNT && s.slot[i].valid && s.slot[i].thread == t
    ensures var w := WakeSlot(Retired(s, t), i); t in w.spare && t in w.queue[Level(w.th[t])] && w.th[t].state == Runnable
  {
    hide Queues, Lists, Slots;
    var r := Retired(s, t);
    assert r.spare[0] == t;
    var w := WakeSlot(r, i);
    assert w.queue[Level(s.th[t])][|r.queue[Level(s.th[t])]|] == t;
  }

  // ----- every run ----------------------------------------------------------------------------------

  /** One step of the kernel, up to the scheduler's choice or inside its sweep. */
  datatype Step =
    | Create | Yield | Timer | SleepStep(chan: nat) | NapStep(until: nat) | WakeStep(chan: nat) | ForkStep(ctid: nat)
    | WaitStep(i: nat, addr: nat, timed: bool, until: nat) | WakeSlotStep(i: nat) | MoveStep(addr: nat, newAddr: nat)
    | Reschedule(t: nat, policy: Policy, pri: int) | Kill(t: nat) | Destroy(t: nat) | RotateStep(q: nat) | Pick(t: nat)

  /** The tables, and whether the hart executes the current thread or the scheduler. */
  datatype Hart = Hart(s: State, busy: bool)

  /** When the code takes the step, whether or not that is wise. */
  ghost predicate Enabled(h: Hart, e: Step)
    requires Sized(h.s)
  {
    var s := h.s;
    match e
    case Create => s.spare != [] && s.spare[0] < |s.th|
    case Yield => h.busy && 0 <= s.current
    case Timer => h.busy && 0 <= s.current
    case SleepStep(_) => h.busy && 0 <= s.current
    case NapStep(_) => h.busy && 0 <= s.current
    case WakeStep(_) => true
    case ForkStep(_) => h.busy && 0 <= s.current && s.spare != [] && s.spare[0] < |s.th|
    case WaitStep(i, _, _, _) => h.busy && 0 <= s.current && i < FUTEX_COUNT && !s.slot[i].valid
    case WakeSlotStep(i) => i < FUTEX_COUNT && s.slot[i].valid && s.slot[i].thread < |s.th|
    case MoveStep(_, _) => true
    case Reschedule(t, _, pri) => t < |s.th| && HasQueue(pri)
    case Kill(t) => t < |s.th| && s.th[t].state != Unused
    case Destroy(t) => t < |s.th| && s.th[t].state != Unused
    case RotateStep(q) => q < LEVELS && s.queue[q] != []
    case Pick(t) => !h.busy && t < |s.th| && s.th[t].state == Runnable && !s.th[t].killed
  }

  /** threadDestroy, up to the scheduler. */
  function Destroyed(s: State, t: nat): State
    requires Sized(s) && t < |s.th|
  {
    if t == s.current then Retired(s, t).(current := -1) else Retired(s, t)
  }

  /** What callYield and timeYield do to a thread that no longer runs: nothing. */
  function Stopped(s: State, front: bool): State
    requires Sized(s) && 0 <= s.current
  {
    if CurrentRuns(s) then Enqueue(s, s.current, front) else s
  }

  /** sleep, which destroys a thread that was killed. */
  function SleptOrGone(s: State, chan: nat): State
    requires Sized(s) && 0 <= s.current
  {
    if s.th[s.current].killed then Destroyed(Slept(s, chan), s.current) else Slept(s, chan)
  }

  /** futexWait by a thread that is queued already: without timeout it leaves its queue. */
  function WaitedQueued(s: State, i: nat, addr: nat, timed: bool, until: nat): State
    requires Sized(s) && i < FUTEX_COUNT && 0 <= s.current
  {
    var t := s.current;
    var w := if timed then Set(s, t, s.th[t].(awake := until)) else Set(Dequeue(s, t), t, s.th[t].(state := Sleeping));
    w.(slot := s.slot[i := Slot(true, addr, t)])
  }

  /** The tables after a step. */
  ghost function StateAfter(s: State, e: Step, busy: bool): State
    requires Sized(s) && Enabled(Hart(s, busy), e)
  {
    match e
    case Create => Created(s)
    case Yield => Stopped(s, false)
    case Timer => Stopped(s, s.th[s.current].policy == Fifo)
    case SleepStep(chan) => SleptOrGone(s, chan)
    case NapStep(until) => Stopped(Set(s, s.current, s.th[s.current].(awake := until)), false)
    case WakeStep(chan) => Woken(s, chan, s.used)
    case ForkStep(ctid) => Forked(s, ctid)
    case WaitStep(i, addr, timed, until) => if CurrentRuns(s) then Waited(s, i, addr, timed, until) else WaitedQueued(s, i, addr, timed, until)
    case WakeSlotStep(i) => WakeSlot(s, i)
    case MoveStep(addr, newAddr) => Moved(s, addr, newAddr)
    case Reschedule(t, policy, pri) => Rescheduled(s, t, policy, pri)
    case Kill(t) => Killed(s, t)
    case Destroy(t) => Destroyed(s, t)
    case RotateStep(q) => Rotated(s, q)
    case Pick(t) => Picked(s, t)
  }

  /** Who executes after a step. */
  ghost predicate BusyAfter(h: Hart, e: Step) {
    match e
    case Yield => false
    case Timer => false
    case SleepStep(_) => false
    case NapStep(_) => false
    case WaitStep(_, _, _, _) => false
    case Destroy(t) => h.busy && t != h.s.current
    case Pick(_) => true
    case _ => h.busy
  }

  ghost function After(h: Hart, e: Step): Hart
    requires Sized(h.s) && Enabled(h, e)
  {
    Hart(StateAfter(h.s, e, h.busy), BusyAfter(h, e))
  }

  /** The invariant, and who executes agrees with it. */
  ghost predicate Good(h: Hart) {
    Inv(h.s) && if h.busy then Executing(h.s) else NoneRuns(h.s)
  }

  /**
   Killing or destroying a thread that waits on a futex; and sleeping, on a channel or a futex, by a
   thread that was killed while it ran.
   */
  ghost predicate Breaks(h: Hart, e: Step) {
    || ((e.Kill? || e.Destroy?) && !NoSlot(h.s, e.t))
    || ((e.SleepStep? || e.WaitStep?) && !CurrentRuns(h.s))
  }

  /** A step keeps the invariant exactly if it is none of those. */
  lemma StepInvIff(h: Hart, e: Step)
    requires Good(h) && Enabled(h, e)
    ensures Inv(After(h, e).s) <==> !Breaks(h, e)
    ensures !Breaks(h, e) ==> Good(After(h, e))
  {
    hide Queues, Slots, Lists, NoSlot, Good, Inv, OneRuns;
    GoodParts(h);
    StateIff(h.s, e, h.busy);
    if !Breaks(h, e) {
      WhoRuns(h, e);
      StillGood(h, e);
    }
  }

  lemma GoodParts(h: Hart)
    requires Good(h)
    ensures Inv(h.s) && Sized(h.s) && (h.busy ==> Executing(h.s)) && (!h.busy ==> NoneRuns(h.s))
  {
  }

  lemma StillGood(h: Hart, e: Step)
    requires Sized(h.s) && Enabled(h, e) && Inv(After(h, e).s)
    requires if BusyAfter(h, e) then Executing(After(h, e).s) else NoneRuns(After(h, e).s)
    ensures Good(After(h, e))
  {
    hide Inv, StateAfter;
  }

  lemma StateIff(s: State, e: Step, busy: bool)
    requires Inv(s) && Enabled(Hart(s, busy), e) && (busy ==> Executing(s)) && (!busy ==> NoneRuns(s))
    ensures Inv(StateAfter(s, e, busy)) <==> !Breaks(Hart(s, busy), e)
  {
    hide Queues, Slots, Lists, NoSlot;
    match e {
      case Create => StartedInv(s, 0, Other, 0);
      case Yield => StoppedInv(s, false);
      case Timer => StoppedInv(s, s.th[s.current].policy == Fifo);
      case SleepStep(chan) => SleptOrGoneIff(s, chan);
      case NapStep(until) =>
        AwakeInv(s, until);
        StoppedInv(Set(s, s.current, s.th[s.current].(awake := until)), false);
      case WakeStep(chan) => WokenInv(s, chan, s.used);
      case ForkStep(ctid) => StartedInv(s, s.th[s.current].pri, s.th[s.current].policy, ctid);
      case WaitStep(i, addr, timed, until) => WaitIff(s, i, addr, timed, until);
      case WakeSlotStep(i) => WakeSlotInv(s, i);
      case MoveStep(addr, newAddr) => MovedInv(s, addr, newAddr);
      case Reschedule(t, policy, pri) => RescheduledInv(s, t, policy, pri);
      case Kill(t) => KilledIff(s, t);
      case Destroy(t) => DestroyedIff(s, t);
      case RotateStep(q) => RotatedInv(s, q);
      case Pick(t) => PickedInv(s, t);
    }
  }

  lemma StoppedInv(s: State, front: bool)
    requires Inv(s) && Executing(s)
    ensures Inv(Stopped(s, front)) && NoneRuns(Stopped(s, front))
  {
    hide Queues, Slots, Lists;
    if CurrentRuns(s) {
      EnqueueInv(s, s.current, front);
    }
  }

  lemma AwakeInv(s: State, until: nat)
    requires Inv(s) && Executing(s)
    ensures Inv(Set(s, s.current, s.th[s.current].(awake := until)))
  {
    hide Queues, Slots;
    var w := Set(s, s.current, s.th[s.current].(awake := until));
    SetQueues(s, s.current, w.th[s.current]);
    SameSlots(s, w);
    SameLists(s, w);
  }

  lemma SleptOrGoneIff(s: State, chan: nat)
    requires Inv(s) && Executing(s)
    ensures Inv(SleptOrGone(s, chan)) <==> CurrentRuns(s)
    ensures CurrentRuns(s) ==> NoneRuns(SleptOrGone(s, chan))
  {
    hide Slots, Lists;
    if CurrentRuns(s) {
      SleptInv(s, chan);
    } else {
      var q := Level(s.th[s.current]);
      assert Placed(s, s.current);
      assert !QueueOk(SleptOrGone(s, chan), q);
    }
  }

  lemma WaitIff(s: State, i: nat, addr: nat, timed: bool, until: nat)
    requires Inv(s) && Executing(s) && i < FUTEX_COUNT && !s.slot[i].valid
    ensures CurrentRuns(s) ==> Inv(Waited(s, i, addr, timed, until)) && NoneRuns(Waited(s, i, addr, timed, until))
    ensures !CurrentRuns(s) ==> !Inv(WaitedQueued(s, i, addr, timed, until))
  {
    hide Queues, Lists;
    if CurrentRuns(s) {
      WaitedInv(s, i, addr, timed, until);
    } else {
      assert !SlotOk(WaitedQueued(s, i, addr, timed, until), i);
    }
  }

  lemma WhoRuns(h: Hart, e: Step)
    requires Inv(h.s) && Enabled(h, e) && (h.busy ==> Executing(h.s)) && (!h.busy ==> NoneRuns(h.s)) && !Breaks(h, e)
    ensures if BusyAfter(h, e) then Executing(After(h, e).s) else NoneRuns(After(h, e).s)
  {
    hide Queues, Slots, Lists;
    var s := h.s;
    match e {
      case Yield => StoppedInv(s, false);
      case Timer => StoppedInv(s, s.th[s.current].policy == Fifo);
      case SleepStep(chan) => SleptOrGoneIff(s, chan);
      case NapStep(until) =>
        AwakeInv(s, until);
        StoppedInv(Set(s, s.current, s.th[s.current].(awake := until)), false);
      case WaitStep(i, addr, timed, until) => WaitIff(s, i, addr, timed, until);
      case Pick(t) =>
      case _ => StaysCalm(h, e);
    }
  }

  lemma StaysCalm(h: Hart, e: Step)
    requires Inv(h.s) && Enabled(h, e) && (h.busy ==> Executing(h.s)) && (!h.busy ==> NoneRuns(h.s)) && !Breaks(h, e)
    requires !e.Yield? && !e.Timer? && !e.SleepStep? && !e.NapStep? && !e.WaitStep? && !e.Pick?
    ensures if BusyAfter(h, e) then Executing(After(h, e).s) else NoneRuns(After(h, e).s)
  {
    hide Queues, Slots, Lists, Started, Woken, WakeSlot, Rescheduled, Killed, Destroyed;
    var s := h.s;
    match e {
      case Create => StartedCalm(s, 0, Other, 0);
      case ForkStep(ctid) => StartedCalm(s, s.th[s.current].pri, s.th[s.current].policy, ctid);
      case WakeStep(chan) => WokenInv(s, chan, s.used);
      case WakeSlotStep(i) => WakeSlotCalm(s, i);
      case Reschedule(t, policy, pri) => RescheduledCalm(s, t, policy, pri);
      case Kill(t) => KilledCalm(s, t);
      case Destroy(t) => DestroyedCalm(s, t);
      case _ =>
    }
  }

  /** Nobody begins to run, and who is on the hart stays there. */
  ghost predicate Calm(s: State, w: State) {
    && |w.th| == |s.th| && (forall t: nat :: t < |s.th| && w.th[t].state == Running ==> s.th[t].state == Running)
    && (Executing(s) ==> Executing(w))
  }

  lemma StartedCalm(s: State, pri: int, policy: Policy, ctid: nat)
    requires Inv(s) && s.spare != [] && HasQueue(pri)
    ensures s.spare[0] < |s.th| && Calm(s, Started(s, pri, policy, ctid))
  {
    hide Queues, Slots;
    FreshIsSpare(s);
  }

  lemma WakeSlotCalm(s: State, i: nat)
    requires Inv(s) && i < FUTEX_COUNT && s.slot[i].valid && s.slot[i].thread < |s.th|
    ensures Calm(s, WakeSlot(s, i))
  {
    SlotNotCurrent(s, i);
    hide Queues, Slots, Lists;
  }

  lemma RescheduledCalm(s: State, t: nat, policy: Policy, pri: int)
    requires Sized(s) && t < |s.th| && HasQueue(pri)
    ensures Calm(s, Rescheduled(s, t, policy, pri))
  {
    hide Without;
  }

  lemma KilledCalm(s: State, t: nat)
    requires Sized(s) && t < |s.th|
    ensures Calm(s, Killed(s, t))
  {
  }

  lemma DestroyedCalm(s: State, t: nat)
    requires Inv(s) && t < |s.th|
    ensures t != s.current ==> Calm(s, Destroyed(s, t))
    ensures t == s.current ==> NoneRuns(Destroyed(s, t))
    ensures NoneRuns(s) ==> NoneRuns(Destroyed(s, t))
  {
    hide Queues, Slots, Lists, Retired;
    RetiredOthers(s, t);
  }

  lemma FreshIsSpare(s: State)
    requires Inv(s) && s.spare != []
    ensures s.spare[0] < |s.th| && s.th[s.spare[0]].state == Unused
  {
    assert s.spare[0] in s.spare;
  }

  lemma SlotNotCurrent(s: State, i: nat)
    requires Inv(s) && i < FUTEX_COUNT && s.slot[i].valid
    ensures Executing(s) ==> s.slot[i].thread != s.current
  {
    hide Queues, Lists;
    assert SlotOk(s, i);
  }

  lemma RetiredOthers(s: State, t: nat)
    requires Sized(s) && t < |s.th|
    ensures |Retired(s, t).th| == |s.th| && Retired(s, t).current == s.current && Retired(s, t).th[t].state == Unused
    ensures forall u: nat :: u < |s.th| && u != t ==> Retired(s, t).th[u] == s.th[u]
  {
    hide Without;
  }

  lemma DestroyedIff(s: State, t: nat)
    requires Inv(s) && t < |s.th| && s.th[t].state != Unused
    ensures Inv(Destroyed(s, t)) <==> NoSlot(s, t)
  {
    hide Queues, Lists;
    RetiredIff(s, t);
    if NoSlot(s, t) && t == s.current {
      NoCurrentInv(Retired(s, t));
    } else if t == s.current {
      var i: nat :| i < |s.slot| && s.slot[i].valid && s.slot[i].thread == t;
      assert !SlotOk(Destroyed(s, t), i);
    }
  }

  /** States that follow one another by steps. */
  ghost predicate Path(r: seq<Hart>, es: seq<Step>) {
    |r| == |es| + 1 && forall k :: 0 <= k < |es| ==> Sized(r[k].s) && Enabled(r[k], es[k]) && r[k + 1] == After(r[k], es[k])
  }

  /** A run of the kernel from boot. */
  ghost predicate Run(r: seq<Hart>, es: seq<Step>) {
    Path(r, es) && r[0] == Hart(Boot(), false)
  }

  ghost predicate Reaches(a: Hart, b: Hart) {
    exists r: seq<Hart>, es: seq<Step> :: Path(r, es) && r[0] == a && r[|es|] == b
  }

  lemma ReachesSelf(a: Hart)
    ensures Reaches(a, a)
  {
    var r: seq<Hart>, es: seq<Step> := [a], [];
    assert Path(r, es) && r[0] == a && r[|es|] == a;
  }

  lemma ReachesTrans(a: Hart, b: Hart, c: Hart)
    requires Reaches(a, b) && Reaches(b, c)
    ensures Reaches(a, c)
  {
    hide After, Enabled, Sized;
    var r: seq<Hart>, es: seq<Step> :| Path(r, es) && r[0] == a && r[|es|] == b;
    var w, fs :| Path(w, fs) && w[0] == b && w[|fs|] == c;
    var x, gs := r + w[1..], es + fs;
    forall k | 0 <= k < |gs| ensures Sized(x[k].s) && Enabled(x[k], gs[k]) && x[k + 1] == After(x[k], gs[k]) {
      if k >= |es| {
        assert x[k] == w[k - |es|] && x[k + 1] == w[k - |es| + 1] && gs[k] == fs[k - |es|];
      }
    }
    assert Path(x, gs) && x[0] == a && x[|gs|] == c;
  }

  lemma ReachesMore(a: Hart, b: Hart, e: Step)
    requires Reaches(a, b) && Sized(b.s) && Enabled(b, e)
    ensures Reaches(a, After(b, e))
  {
    hide After, Enabled, Sized;
    var r: seq<Hart>, es: seq<Step> :| Path(r, es) && r[0] == a && r[|es|] == b;
    var w, fs := r + [After(b, e)], es + [e];
    assert Path(w, fs) && w[0] == a && w[|fs|] == After(b, e);
  }

  /**
   In every state of every run from boot: runnable exactly if queued, once, where the priority says;
   at most one futex slot; only the current thread runs. So it is as long as no thread has been killed
   or destroyed while it waited on a futex, and none has slept that was killed while it ran.
   */
  lemma {:induction false} RunInv(r: seq<Hart>, es: seq<Step>, k: nat)
    requires Run(r, es) && k < |r| && forall j :: 0 <= j < k ==> !Breaks(r[j], es[j])
    ensures Good(r[k])
  {
    hide Inv, Breaks, After, Executing;
    if k == 0 {
      BootInv();
    } else {
      RunInv(r, es, k - 1);
      StepInvIff(r[k - 1], es[k - 1]);
    }
  }

  /** And no longer: a run keeps the invariant throughout exactly if it has no such step. */
  lemma RunInvIff(r: seq<Hart>, es: seq<Step>)
    requires Run(r, es)
    ensures (forall k :: 0 <= k < |r| ==> Inv(r[k].s)) <==> forall k: nat :: k < |es| ==> !Breaks(r[k], es[k])
  {
    hide Inv, Breaks, After, Executing;
    if forall k: nat :: k < |es| ==> !Breaks(r[k], es[k]) {
      forall k | 0 <= k < |r| ensures Inv(r[k].s) {
        RunInv(r, es, k);
      }
    } else {
      var k: nat :| k < |es| && Breaks(r[k], es[k]);
      FirstBreak(r, es, k);
    }
  }

  /** A step that breaks the invariant, or an earlier one, leaves a state without it. */
  lemma {:induction false} FirstBreak(r: seq<Hart>, es: seq<Step>, k: nat)
    requires Run(r, es) && k < |es| && Breaks(r[k], es[k])
    ensures exists j :: 0 <= j < |r| && !Inv(r[j].s)
  {
    hide Inv, Breaks, After, Executing;
    if j: nat :| j < k && Breaks(r[j], es[j]) {
      FirstBreak(r, es, j);
    } else {
      RunInv(r, es, k);
      StepInvIff(r[k], es[k]);
      assert r[k + 1] == After(r[k], es[k]) && !Inv(r[k + 1].s);
    }
  }

  /** Such runs: the first thread waits on a futex and is killed; or it is killed and sleeps. */
  lemma KilledWaiter(addr: nat) returns (r: seq<Hart>, es: seq<Step>)
    ensures Run(r, es) && |es| == 4 && Breaks(r[3], es[3]) && !Inv(r[4].s)
  {
    hide Queues, Slots, Lists, Started, Picked, Waited, Killed, NoSlot, Boot, Enqueue, Woken, Rescheduled;
    BootInv();
    var a := Boot();
    var b := FirstThread(a);
    var c := FirstPicked(b);
    WaitedInv(c, 0, addr, false, 0);
    var d := Waited(c, 0, addr, false, 0);
    FirstWaits(c, addr);
    KilledIff(d, 0);
    es := [Create, Pick(0), WaitStep(0, addr, false, 0), Kill(0)];
    r := [Hart(a, false), Hart(b, false), Hart(c, true), Hart(d, false), Hart(Killed(d, 0), false)];
  }

  lemma KilledSleeper(chan: nat) returns (r: seq<Hart>, es: seq<Step>)
    ensures Run(r, es) && |es| == 4 && Breaks(r[3], es[3]) && !Inv(r[4].s)
  {
    hide Queues, Slots, Lists, Started, Picked, Killed, NoSlot, Boot, Enqueue, Woken, Rescheduled, SleptOrGone;
    BootInv();
    var a := Boot();
    var b := FirstThread(a);
    var c := FirstPicked(b);
    RunningNoSlot(c);
    KilledInv(c, 0);
    var d := Killed(c, 0);
    FirstKilled(c);
    SleptOrGoneIff(d, chan);
    es := [Create, Pick(0), Kill(0), SleepStep(chan)];
    r := [Hart(a, false), Hart(b, false), Hart(c, true), Hart(d, true), Hart(SleptOrGone(d, chan), false)];
  }

  lemma FirstKilled(c: State)
    requires Inv(c) && CurrentRuns(c) && c.current == 0
    ensures var d := Killed(c, 0); d.current == 0 && Executing(d) && !CurrentRuns(d)
  {
  }

  lemma FirstThread(a: State) returns (b: State)
    requires a == Boot() && Inv(a)
    ensures a.spare != [] && a.spare[0] < |a.th| && b == Created(a) && Inv(b) && |b.th| > 0 && b.th[0] == Thread(Runnable, 0, 0, Other, 0, false, 0) && NoneRuns(b) && b.slot == a.slot
  {
    StartedInv(a, 0, Other, 0);
    b := Created(a);
  }

  lemma FirstPicked(b: State) returns (c: State)
    requires Inv(b) && |b.th| > 0 && b.th[0] == Thread(Runnable, 0, 0, Other, 0, false, 0) && NoneRuns(b) && b.slot == Boot().slot
    ensures c == Picked(b, 0) && Inv(c) && CurrentRuns(c) && c.current == 0 && !c.slot[0].valid
  {
    PickedInv(b, 0);
    c := Picked(b, 0);
  }

  lemma FirstWaits(c: State, addr: nat)
    requires Inv(c) && CurrentRuns(c) && c.current == 0 && Inv(Waited(c, 0, addr, false, 0))
    ensures var d := Waited(c, 0, addr, false, 0); |d.th| > 0 && d.th[0].state == Sleeping && !NoSlot(d, 0)
  {
    var d := Waited(c, 0, addr, false, 0);
    assert d.slot[0].valid && d.slot[0].thread == 0;
  }

  /** Wakeup of a channel leaves futex waiters alone, also those that have slept on a channel before. */
  lemma WakeupSparesWaiters(s: State, chan: nat, i: nat)
    requires Inv(s) && chan != 0 && i < FUTEX_COUNT && s.slot[i].valid
    ensures s.slot[i].thread < |s.th| == |Woken(s, chan, s.used).th| && Woken(s, chan, s.used).th[s.slot[i].thread] == s.th[s.slot[i].thread]
  {
    assert SlotOk(s, i);
    hide Queues, Slots;
    WokenInv(s, chan, s.used);
  }

  /** What the invariant says of one thread. */
  lemma RunnableIffQueued(s: State, t: nat)
    requires Inv(s) && t < |s.th|
    ensures s.th[t].state == Runnable <==> t in s.queue[Level(s.th[t])]
    ensures forall q: nat :: q < LEVELS && t in s.queue[q] ==> q == Level(s.th[t]) && s.th[t].state == Runnable
    ensures forall q: nat, j, k :: q < LEVELS && 0 <= j < k < |s.queue[q]| ==> s.queue[q][j] != s.queue[q][k]
  {
    assert Placed(s, t) && QueueOk(s, Level(s.th[t]));
    forall q: nat | q < LEVELS ensures Distinct(s.queue[q]) && (t in s.queue[q] ==> q == Level(s.th[t]) && s.th[t].state == Runnable) {
      assert QueueOk(s, q);
    }
  }
}
