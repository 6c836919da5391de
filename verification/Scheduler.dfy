/** The thread scheduler: the queue of ready threads, the list of waiting threads, and
    the state of each thread. */
module Scheduler {

  type Tid = nat
  type Obj = nat

  datatype Link = Null | To(t: Tid)

  datatype RunState = Loading | Running | Paused | Finished

  ghost predicate NoDup(l: seq<Tid>) {
    forall i, j :: 0 <= i < j < |l| ==> l[i] != l[j]
  }

  function At(l: seq<Tid>, i: nat): Link {
    if i < |l| then To(l[i]) else Null
  }

  /** `head` begins the list `l`, threaded through `next`: acyclic and without duplicates. */
  ghost predicate IsChain(head: Link, next: map<Tid, Link>, l: seq<Tid>) {
    && NoDup(l) && head == At(l, 0)
    && forall i :: 0 <= i < |l| ==> l[i] in next && next[l[i]] == At(l, i + 1)
  }

  lemma ChainPush(head: Link, next: map<Tid, Link>, l: seq<Tid>, t: Tid)
    requires IsChain(head, next, l) && t !in l
    ensures IsChain(To(t), next[t := head], [t] + l)
  {
    var m, n := [t] + l, next[t := head];
    forall i | 0 <= i < |m| ensures m[i] in n && n[m[i]] == At(m, i + 1) {
      if i > 0 { assert m[i] == l[i - 1] && l[i - 1] in l; }
    }
  }

  lemma ChainAppend(head: Link, next: map<Tid, Link>, l: seq<Tid>, t: Tid)
    requires IsChain(head, next, l) && t !in l && l != []
    ensures IsChain(head, next[t := Null][l[|l| - 1] := To(t)], l + [t])
  {
    var m := l + [t];
    assert l[|l| - 1] in l;
    forall i | 0 <= i < |l| ensures l[i] != t { assert l[i] in l; }
  }

  lemma ChainTail(head: Link, next: map<Tid, Link>, l: seq<Tid>)
    requires IsChain(head, next, l) && l != []
    ensures IsChain(next[l[0]], next, l[1..])
    ensures l[0] !in l[1..]
  {
  }

  function Without(l: seq<Tid>, k: nat): seq<Tid>
    requires k < |l|
  {
    l[..k] + l[k + 1..]
  }

  lemma WithoutIndex(l: seq<Tid>, k: nat)
    requires k < |l|
    ensures |Without(l, k)| == |l| - 1
    ensures forall i :: 0 <= i < |l| - 1 ==> Without(l, k)[i] == l[if i < k then i else i + 1]
  {
  }

  /** Unlinking the element after `l[k]`. */
  lemma ChainUnlink(head: Link, next: map<Tid, Link>, l: seq<Tid>, k: nat)
    requires IsChain(head, next, l) && k + 1 < |l|
    ensures l[k] in next && l[k + 1] in next && IsChain(head, next[l[k] := next[l[k + 1]]], Without(l, k + 1))
  {
    var m := Without(l, k + 1);
    hide Without;
    WithoutIndex(l, k + 1);
  }

  lemma WithoutElems(l: seq<Tid>, k: nat)
    requires k < |l| && NoDup(l)
    ensures forall t :: t in Without(l, k) <==> t in l && t != l[k]
  {
    var m := Without(l, k);
    hide Without;
    WithoutIndex(l, k);
    forall t | t in l && t != l[k] ensures t in m {
      var i :| 0 <= i < |l| && l[i] == t;
      assert m[if i < k then i else i - 1] == t;
    }
  }

  /** `l` without `t`, the others in their order. */
  function Minus(l: seq<Tid>, t: Tid): seq<Tid> {
    if l == [] then [] else (if l[0] == t then [] else [l[0]]) + Minus(l[1..], t)
  }

  lemma {:induction false} MinusNone(l: seq<Tid>, t: Tid)
    requires t !in l
    ensures Minus(l, t) == l
  {
    if l != [] { MinusNone(l[1..], t); }
  }

  lemma {:induction false} MinusAt(l: seq<Tid>, k: nat)
    requires NoDup(l) && k < |l|
    ensures Minus(l, l[k]) == Without(l, k)
  {
    if k == 0 {
      assert l[0] !in l[1..];
      MinusNone(l[1..], l[0]);
    } else {
      MinusAt(l[1..], k - 1);
      assert Without(l, k) == [l[0]] + Without(l[1..], k - 1);
    }
  }

  /** The paused threads of `l` that wait for `x`, last first. */
  function Sleepers(l: seq<Tid>, state: map<Tid, RunState>, waitingOn: map<Tid, seq<Obj>>, x: Obj): seq<Tid> {
    if l == [] then []
    else Sleepers(l[1..], state, waitingOn, x) + if Sleeps(l[0], state, waitingOn, x) then [l[0]] else []
  }

  predicate Sleeps(t: Tid, state: map<Tid, RunState>, waitingOn: map<Tid, seq<Obj>>, x: Obj) {
    t in state && state[t] == Paused && t in waitingOn && x in waitingOn[t]
  }

  lemma {:induction false} SleepersElems(l: seq<Tid>, state: map<Tid, RunState>, waitingOn: map<Tid, seq<Obj>>, x: Obj)
    ensures forall t :: t in Sleepers(l, state, waitingOn, x) <==> t in l && Sleeps(t, state, waitingOn, x)
  {
    if l != [] {
      SleepersElems(l[1..], state, waitingOn, x);
      assert l == [l[0]] + l[1..];
    }
  }

  lemma {:induction false} SleepersSnoc(l: seq<Tid>, t: Tid, state: map<Tid, RunState>, waitingOn: map<Tid, seq<Obj>>, x: Obj)
    ensures Sleepers(l + [t], state, waitingOn, x) == (if Sleeps(t, state, waitingOn, x) then [t] else []) + Sleepers(l, state, waitingOn, x)
  {
    if l == [] {
      assert [] + [t] == [t];
    } else {
      SleepersSnoc(l[1..], t, state, waitingOn, x);
      assert (l + [t])[1..] == l[1..] + [t];
    }
  }

  // ----- what the lists say about the states -----

  ghost predicate QueueOk(first: Link, last: Link, next: map<Tid, Link>, queue: seq<Tid>) {
    IsChain(first, next, queue) && last == if queue == [] then Null else To(queue[|queue| - 1])
  }

  /** A running thread is queued, or current; a paused one waits; others are in neither list. */
  ghost predicate RolesOk(state: map<Tid, RunState>, queue: seq<Tid>, waiting: seq<Tid>, current: Link) {
    && (forall t :: t in queue ==> t in state && state[t] == Running && current != To(t))
    && (forall t :: t in waiting ==> t in state && (state[t] == Running || state[t] == Paused))
    && (forall t :: t in state && state[t] == Running && current != To(t) ==> t in queue)
    && (forall t :: t in state && state[t] == Paused ==> t in waiting)
    && (current.To? ==> current.t in state && state[current.t] != Loading && (state[current.t] == Running ==> current.t !in waiting))
  }

  /** The threads in the list are those that wait for something. */
  ghost predicate WaitsOk(waiting: seq<Tid>, waitingOn: map<Tid, seq<Obj>>) {
    forall t :: t in waiting <==> t in waitingOn && waitingOn[t] != []
  }

  class Threads {
    var state: map<Tid, RunState>
    var waitingOn: map<Tid, seq<Obj>>
    var nextInQueue: map<Tid, Link>
    var first: Link
    var last: Link
    var nextWaiter: map<Tid, Link>
    var waiters: Link
    var current: Link
    ghost var queue: seq<Tid>     // the ready threads, the next to run first
    ghost var waiting: seq<Tid>   // the list of waiters

    ghost predicate Lists()
      reads this
    {
      && QueueOk(first, last, nextInQueue, queue) && IsChain(waiters, nextWaiter, waiting)
      && WaitsOk(waiting, waitingOn)
    }

    /** Holds also while the current thread is going to sleep or exiting. */
    ghost predicate Valid()
      reads this
    {
      Lists() && RolesOk(state, queue, waiting, current)
    }

    /** Between two steps: the current thread, if any, is running. */
    ghost predicate Stable()
      reads this
    {
      Valid() && (current.To? ==> current.t in state && state[current.t] == Running)
    }

    constructor ()
      ensures Stable() && state == map[] && queue == [] && waiting == [] && current == Null
    {
      state, waitingOn, nextInQueue, nextWaiter := map[], map[], map[], map[];
      first, last, waiters, current := Null, Null, Null, Null;
      queue, waiting := [], [];
    }

    /** enqueue_thread: at the end when it just ran, at the front otherwise. */
    method Enqueue(t: Tid, justRan: bool)
      requires QueueOk(first, last, nextInQueue, queue) && t !in queue
      modifies this`first, this`last, this`nextInQueue, this`queue
      ensures QueueOk(first, last, nextInQueue, queue)
      ensures queue == if justRan then old(queue) + [t] else [t] + old(queue)
    {
      if first == Null {
        first, last := To(t), To(t);
        nextInQueue := nextInQueue[t := Null];
        queue := [t];
      } else if justRan {
        ChainAppend(first, nextInQueue, queue, t);
        nextInQueue := nextInQueue[t := Null];
        nextInQueue := nextInQueue[last.t := To(t)];
        last := To(t);
        queue := queue + [t];
      } else {
        ChainPush(first, nextInQueue, queue, t);
        nextInQueue := nextInQueue[t := first];
        first := To(t);
        queue := [t] + queue;
      }
    }

    /** dequeue_thread */
    method Dequeue() returns (l: Link)
      requires QueueOk(first, last, nextInQueue, queue)
      modifies this`first, this`last, this`queue
      ensures QueueOk(first, last, nextInQueue, queue) && l == At(old(queue), 0)
      ensures queue == (if old(queue) == [] then [] else old(queue)[1..]) && (l.To? ==> l.t !in queue)
    {
      l := first;
      if l == Null { return; }
      ChainTail(first, nextInQueue, queue);
      first := nextInQueue[l.t];
      queue := queue[1..];
      if first == Null { last := Null; }
    }

    /** The end of wait_on_many: the thread that goes on leaves the list of waiters. Its
        assertions hold. */
    method Unlink(t: Tid)
      requires IsChain(waiters, nextWaiter, waiting) && t in waiting
      modifies this`waiters, this`nextWaiter, this`waiting
      ensures IsChain(waiters, nextWaiter, waiting) && forall u :: u in waiting <==> u in old(waiting) && u != t
      ensures waiting == Minus(old(waiting), t)
    {
      ghost var l := waiting;
      if waiters == To(t) {
        ChainTail(waiters, nextWaiter, waiting);
        MinusAt(l, 0);
        assert l == [l[0]] + l[1..];
        waiters := nextWaiter[t];
        waiting := waiting[1..];
      } else {
        assert waiters != Null;
        ghost var i := 0;
        var w := waiters.t;
        var deleted := false;
        while nextWaiter[w] != Null
          invariant 0 <= i < |l| && w == l[i] && waiting == l && waiters == At(l, 0) && IsChain(waiters, nextWaiter, l)
          invariant !deleted && l == old(waiting) && forall j :: 0 <= j <= i ==> l[j] != t
          decreases |l| - i
        {
          if nextWaiter[w] == To(t) {
            ChainUnlink(waiters, nextWaiter, l, i);
            WithoutElems(l, i + 1);
            MinusAt(l, i + 1);
            nextWaiter := nextWaiter[w := nextWaiter[t]];
            waiting := Without(l, i + 1);
            deleted := true;
            break;
          }
          w := nextWaiter[w].t;
          i := i + 1;
        }
        assert deleted;
      }
    }

    /** Where a thread is, by its state: running, current or queued once; paused, among
        the waiters once; loading or finished, nowhere. */
    lemma Placed(t: Tid)
      requires Stable() && t in state
      ensures state[t] == Running ==> multiset(queue)[t] == if current == To(t) then 0 else 1
      ensures state[t] == Paused ==> multiset(waiting)[t] == 1 && t !in queue && current != To(t)
      ensures state[t] == Loading || state[t] == Finished ==> t !in waiting && t !in queue && current != To(t)
    {
      QueueNoDup(first, last, nextInQueue, queue);
      ChainNoDup(waiters, nextWaiter, waiting);
      OnlyOnce(queue, t);
      OnlyOnce(waiting, t);
    }

    /** new_thread: loading, in no list. */
    method NewThread(t: Tid)
      requires Stable() && t !in state
      modifies this`state
      ensures Stable() && state == old(state)[t := Loading] && queue == old(queue) && waiting == old(waiting) && current == old(current)
    {
      hide QueueOk, IsChain, WaitsOk;
      state := state[t := Loading];
    }

    /** start_thread */
    method Start(t: Tid)
      requires Stable() && t in state && state[t] == Loading
      modifies this`state, this`first, this`last, this`nextInQueue, this`queue
      ensures Stable() && state == old(state)[t := Running] && queue == [t] + old(queue) && waiting == old(waiting)
    {
      hide QueueOk, IsChain, WaitsOk, RolesOk;
      StartRoles(state, queue, waiting, current, t);
      state := state[t := Running];
      Enqueue(t, false);
    }

    /** run_scheduler, up to where the thread chosen goes on: one that was waiting has
        left the list of waiters. With nothing ready the processor idles. */
    method Dispatch()
      requires Valid()
      modifies this`first, this`last, this`nextInQueue, this`queue, this`current, this`waitingOn, this`waiters, this`nextWaiter, this`waiting
      ensures Stable() && state == old(state)
      ensures var ready := if old(current).To? && state[old(current).t] == Running then old(queue) + [old(current).t] else old(queue);
              if ready == [] then current == Null && queue == [] && waiting == old(waiting)
              else current == To(ready[0]) && queue == ready[1..] && waiting == Minus(old(waiting), ready[0])
      ensures var ready := if old(current).To? && state[old(current).t] == Running then old(queue) + [old(current).t] else old(queue);
              waitingOn == if ready != [] && ready[0] in old(waiting) then old(waitingOn)[ready[0] := []] else old(waitingOn)
    {
      hide QueueOk, IsChain, RolesOk, WaitsOk;
      CurrentKnown(state, queue, waiting, current);
      ReadyRoles(state, queue, waiting, current);
      if current.To? && state[current.t] == Running {
        Enqueue(current.t, true);
      }
      current := Null;
      QueueNoDup(first, last, nextInQueue, queue);
      ghost var ready := queue;
      var next := Dequeue();
      if next.To? {
        current := next;
        Resume(next.t);
        GoesOn(state, ready, old(waiting), waiting);
      }
    }

    /** What wait_on_many does when the thread goes on; it was there if it waits for something. */
    method Resume(t: Tid)
      requires IsChain(waiters, nextWaiter, waiting) && WaitsOk(waiting, waitingOn)
      modifies this`waitingOn, this`waiters, this`nextWaiter, this`waiting
      ensures IsChain(waiters, nextWaiter, waiting) && WaitsOk(waiting, waitingOn)
      ensures forall u :: u in waiting <==> u in old(waiting) && u != t
      ensures waiting == Minus(old(waiting), t)
      ensures waitingOn == if t in old(waiting) then old(waitingOn)[t := []] else old(waitingOn)
    {
      hide IsChain;
      if t !in waiting { MinusNone(waiting, t); }
      if t in waitingOn && waitingOn[t] != [] {
        waitingOn := waitingOn[t := []];
        Unlink(t);
      }
    }

    /** yield, and the timer's switch. */
    method Yield()
      requires Stable() && current.To?
      modifies this`first, this`last, this`nextInQueue, this`queue, this`current, this`waitingOn, this`waiters, this`nextWaiter, this`waiting
      ensures Stable() && state == old(state)
      ensures var ready := old(queue) + [old(current).t];
              current == To(ready[0]) && queue == ready[1..] && waiting == Minus(old(waiting), ready[0])
              && waitingOn == if ready[0] in old(waiting) then old(waitingOn)[ready[0] := []] else old(waitingOn)
    {
      Dispatch();
    }

    /** wait_on_many: the current thread sleeps until something resumes one of `xs`. */
    method WaitOn(xs: seq<Obj>)
      requires Stable() && current.To? && xs != []
      modifies this
      ensures Stable() && state == old(state)[old(current).t := Paused] && old(current).t in waiting && old(current).t !in queue
      ensures current != old(current) && old(current).t in waitingOn && waitingOn[old(current).t] == xs
      ensures var t, slept := old(current).t, old(waitingOn)[old(current).t := xs];
              if old(queue) == [] then current == Null && queue == [] && waiting == [t] + old(waiting) && waitingOn == slept
              else var u := old(queue)[0];
                current == To(u) && queue == old(queue)[1..] && waiting == [t] + Minus(old(waiting), u)
                && waitingOn == if u in old(waiting) then slept[u := []] else slept
    {
      hide IsChain, QueueOk, RolesOk, WaitsOk;
      var t := current.t;
      CurrentKnown(state, queue, waiting, current);
      SleepRoles(state, queue, waiting, t, waitingOn, xs);
      waitingOn := waitingOn[t := xs];
      ChainPush(waiters, nextWaiter, waiting, t);
      nextWaiter := nextWaiter[t := waiters];
      waiters := To(t);
      waiting := [t] + waiting;
      state := state[t := Paused];
      Dispatch();
      PausedPlace(state, queue, waiting, current, t);
    }

    /** exit: never scheduled again. */
    method Exit()
      requires Stable() && current.To?
      modifies this
      ensures Stable() && state == old(state)[old(current).t := Finished] && old(current).t !in queue && old(current).t !in waiting
      ensures current != old(current)
      ensures if old(queue) == [] then current == Null && queue == [] && waiting == old(waiting) && waitingOn == old(waitingOn)
              else var u := old(queue)[0];
                current == To(u) && queue == old(queue)[1..] && waiting == Minus(old(waiting), u)
                && waitingOn == if u in old(waiting) then old(waitingOn)[u := []] else old(waitingOn)
    {
      hide IsChain, QueueOk, RolesOk, WaitsOk;
      var t := current.t;
      ExitRoles(state, queue, waiting, t);
      state := state[t := Finished];
      Dispatch();
      FinishedPlace(state, queue, waiting, current, t);
    }

    /** resume_on: every thread paused on `x` becomes ready, in front of the others;
        the result tells whether there was one. */
    method ResumeOn(x: Obj) returns (ret: bool)
      requires Stable()
      modifies this`state, this`first, this`last, this`nextInQueue, this`queue
      ensures Stable() && waiting == old(waiting) && current == old(current)
      ensures queue == Sleepers(waiting, old(state), waitingOn, x) + old(queue)
      ensures state == Awake(old(state), Sleepers(waiting, old(state), waitingOn, x))
      ensures ret <==> Sleepers(waiting, old(state), waitingOn, x) != []
      ensures state.Keys == old(state).Keys
      ensures forall t :: t in state ==> state[t] == if old(state)[t].Paused? && t in waitingOn && x in waitingOn[t] then Running else old(state)[t]
      ensures ret <==> exists t :: t in old(state) && old(state)[t].Paused? && t in waitingOn && x in waitingOn[t]
    {
      hide QueueOk, RolesOk, IsChain, Sleeps, WaitsOk, Sleepers, Awake;
      ret := false;
      var t := waiters;
      ghost var i, s0, q0 := 0, state, queue;
      ChainNoDup(waiters, nextWaiter, waiting);
      NoneAwake(waiting, s0, waitingOn, x);
      CurrentAwake(state, queue, waiting, current);
      while t.To?
        invariant 0 <= i <= |waiting| && t == At(waiting, i) && Lists() && RolesOk(state, queue, waiting, current)
        invariant queue == Sleepers(waiting[..i], s0, waitingOn, x) + q0 && state == Awake(s0, Sleepers(waiting[..i], s0, waitingOn, x))
        invariant ret <==> Sleepers(waiting[..i], s0, waitingOn, x) != []
        invariant waiters == old(waiters) && nextWaiter == old(nextWaiter) && waiting == old(waiting) && waitingOn == old(waitingOn)
        decreases |waiting| - i
      {
        ChainStep(waiters, nextWaiter, waiting, i);
        OneMore(waiting, i, s0, waitingOn, x, state, queue, q0);
        var b := WakeIfAsleep(t.t, x);
        ret := ret || b;
        t := nextWaiter[t.t];
        i := i + 1;
      }
      assert waiting[..i] == waiting;
      AwakeCurrent(s0, state, current, Sleepers(waiting, s0, waitingOn, x));
      AwakeExactly(s0, q0, waiting, current, waitingOn, x, state);
    }

    /** The body of resume_on's loop. */
    method WakeIfAsleep(t: Tid, x: Obj) returns (b: bool)
      requires Lists() && RolesOk(state, queue, waiting, current) && t in waiting && current != To(t)
      modifies this`state, this`first, this`last, this`nextInQueue, this`queue
      ensures Lists() && RolesOk(state, queue, waiting, current) && b == Sleeps(t, old(state), waitingOn, x)
      ensures state == (if b then old(state)[t := Running] else old(state)) && queue == (if b then [t] else []) + old(queue)
    {
      hide QueueOk, RolesOk, IsChain, WaitsOk;
      KnownWaiter(state, queue, waiting, current, t);
      WaitsKnown(waiting, waitingOn, t);
      b := false;
      if x in waitingOn[t] && state[t] == Paused {
        WakeOne(state, queue, waiting, current, t);
        state := state[t := Running];
        Enqueue(t, false);
        b := true;
      }
    }
  }

  /** The threads of `l` made running. */
  function Awake(state: map<Tid, RunState>, l: seq<Tid>): map<Tid, RunState> {
    map t | t in state :: if t in l then Running else state[t]
  }

  /** Exactly the paused threads that wait for `x` are made running. */
  lemma AwakeExactly(s0: map<Tid, RunState>, queue: seq<Tid>, waiting: seq<Tid>, current: Link, waitingOn: map<Tid, seq<Obj>>, x: Obj,
                     state: map<Tid, RunState>)
    requires RolesOk(s0, queue, waiting, current) && state == Awake(s0, Sleepers(waiting, s0, waitingOn, x))
    ensures state.Keys == s0.Keys && forall t :: t in s0 ==> state[t] == if s0[t].Paused? && t in waitingOn && x in waitingOn[t] then Running else s0[t]
    ensures Sleepers(waiting, s0, waitingOn, x) != [] <==> exists t :: t in s0 && s0[t].Paused? && t in waitingOn && x in waitingOn[t]
  {
    SleepersElems(waiting, s0, waitingOn, x);
    hide Sleepers;
    var l := Sleepers(waiting, s0, waitingOn, x);
    assert l != [] ==> l[0] in l;
  }

  lemma NoneAwake(waiting: seq<Tid>, state: map<Tid, RunState>, waitingOn: map<Tid, seq<Obj>>, x: Obj)
    ensures Sleepers(waiting[..0], state, waitingOn, x) == [] && Awake(state, []) == state
    ensures forall q: seq<Tid> :: [] + q == q
  {
  }

  lemma AwakeMore(state: map<Tid, RunState>, l: seq<Tid>, t: Tid)
    requires t in state
    ensures Awake(state, l)[t := Running] == Awake(state, [t] + l)
  {
  }

  /** Looking at one more waiter. */
  lemma OneMore(waiting: seq<Tid>, i: nat, s0: map<Tid, RunState>, waitingOn: map<Tid, seq<Obj>>, x: Obj,
                state: map<Tid, RunState>, queue: seq<Tid>, q0: seq<Tid>)
    requires i < |waiting| && NoDup(waiting)
    requires queue == Sleepers(waiting[..i], s0, waitingOn, x) + q0 && state == Awake(s0, Sleepers(waiting[..i], s0, waitingOn, x))
    ensures var t, b := waiting[i], Sleeps(waiting[i], state, waitingOn, x);
            var l := Sleepers(waiting[..i + 1], s0, waitingOn, x);
            l == (if b then [t] else []) + Sleepers(waiting[..i], s0, waitingOn, x)
            && (if b then [t] else []) + queue == l + q0 && (if b then state[t := Running] else state) == Awake(s0, l)
  {
    var t, l := waiting[i], Sleepers(waiting[..i], s0, waitingOn, x);
    StillAsleep(waiting, i, s0, waitingOn, x);
    SleepersSnoc(waiting[..i], t, s0, waitingOn, x);
    assert waiting[..i + 1] == waiting[..i] + [t];
    hide Sleepers;
    if t in s0 { AwakeMore(s0, l, t); }
    assert [] + l == l && [] + queue == queue && [t] + (l + q0) == [t] + l + q0;
  }

  lemma {:induction false} OnlyOnce(l: seq<Tid>, t: Tid)
    requires NoDup(l)
    ensures multiset(l)[t] == if t in l then 1 else 0
  {
    if l != [] {
      OnlyOnce(l[1..], t);
      assert l == [l[0]] + l[1..];
    }
  }

  lemma QueueNoDup(first: Link, last: Link, next: map<Tid, Link>, queue: seq<Tid>)
    requires QueueOk(first, last, next, queue)
    ensures NoDup(queue)
  {
  }

  lemma ChainNoDup(head: Link, next: map<Tid, Link>, l: seq<Tid>)
    requires IsChain(head, next, l)
    ensures NoDup(l) && head == At(l, 0)
  {
  }

  lemma ChainStep(head: Link, next: map<Tid, Link>, l: seq<Tid>, i: nat)
    requires IsChain(head, next, l) && i < |l|
    ensures l[i] in next && next[l[i]] == At(l, i + 1) && l[i] in l
  {
  }

  lemma KnownWaiter(state: map<Tid, RunState>, queue: seq<Tid>, waiting: seq<Tid>, current: Link, t: Tid)
    requires RolesOk(state, queue, waiting, current) && t in waiting
    ensures t in state && (state[t] == Paused ==> t !in queue)
  {
  }

  /** The current thread does not wait. */
  lemma CurrentAwake(state: map<Tid, RunState>, queue: seq<Tid>, waiting: seq<Tid>, current: Link)
    requires RolesOk(state, queue, waiting, current) && (current.To? ==> current.t in state && state[current.t] == Running)
    ensures current.To? ==> current.t !in waiting
  {
  }

  /** A thread not yet looked at is as it was. */
  lemma StillAsleep(waiting: seq<Tid>, i: nat, state: map<Tid, RunState>, waitingOn: map<Tid, seq<Obj>>, x: Obj)
    requires i < |waiting| && NoDup(waiting)
    ensures waiting[i] !in Sleepers(waiting[..i], state, waitingOn, x)
  {
    SleepersElems(waiting[..i], state, waitingOn, x);
  }

  lemma WakeOne(state: map<Tid, RunState>, queue: seq<Tid>, waiting: seq<Tid>, current: Link, t: Tid)
    requires RolesOk(state, queue, waiting, current) && t in state && state[t] == Paused && current != To(t)
    ensures RolesOk(state[t := Running], [t] + queue, waiting, current)
  {
  }

  lemma AwakeCurrent(s0: map<Tid, RunState>, state: map<Tid, RunState>, current: Link, l: seq<Tid>)
    requires state == Awake(s0, l) && (current.To? ==> current.t in s0 && s0[current.t] == Running)
    ensures current.To? ==> current.t in state && state[current.t] == Running
  {
  }

  lemma WaitsKnown(waiting: seq<Tid>, waitingOn: map<Tid, seq<Obj>>, t: Tid)
    requires WaitsOk(waiting, waitingOn) && t in waiting
    ensures t in waitingOn
  {
  }

  // ----- how the steps keep the roles -----

  lemma CurrentKnown(state: map<Tid, RunState>, queue: seq<Tid>, waiting: seq<Tid>, current: Link)
    requires RolesOk(state, queue, waiting, current)
    ensures current.To? ==> current.t in state && current.t !in queue && (state[current.t] == Running ==> current.t !in waiting)
  {
  }

  lemma ReadyRoles(state: map<Tid, RunState>, queue: seq<Tid>, waiting: seq<Tid>, current: Link)
    requires RolesOk(state, queue, waiting, current)
    ensures RolesOk(state, if current.To? && state[current.t] == Running then queue + [current.t] else queue, waiting, Null)
  {
  }

  lemma GoesOn(state: map<Tid, RunState>, ready: seq<Tid>, waiting: seq<Tid>, waiting': seq<Tid>)
    requires RolesOk(state, ready, waiting, Null) && ready != [] && NoDup(ready)
    requires forall u :: u in waiting' <==> u in waiting && u != ready[0]
    ensures RolesOk(state, ready[1..], waiting', To(ready[0])) && ready[0] in state && state[ready[0]] == Running
  {
    assert ready[0] in ready && ready == [ready[0]] + ready[1..];
  }

  lemma SleepRoles(state: map<Tid, RunState>, queue: seq<Tid>, waiting: seq<Tid>, t: Tid, waitingOn: map<Tid, seq<Obj>>, xs: seq<Obj>)
    requires RolesOk(state, queue, waiting, To(t)) && state[t] == Running && WaitsOk(waiting, waitingOn) && xs != []
    ensures RolesOk(state[t := Paused], queue, [t] + waiting, To(t)) && WaitsOk([t] + waiting, waitingOn[t := xs])
  {
  }

  lemma ExitRoles(state: map<Tid, RunState>, queue: seq<Tid>, waiting: seq<Tid>, t: Tid)
    requires RolesOk(state, queue, waiting, To(t)) && state[t] == Running
    ensures RolesOk(state[t := Finished], queue, waiting, To(t))
  {
  }

  lemma StartRoles(state: map<Tid, RunState>, queue: seq<Tid>, waiting: seq<Tid>, current: Link, t: Tid)
    requires RolesOk(state, queue, waiting, current) && t in state && state[t] == Loading
    ensures RolesOk(state[t := Running], [t] + queue, waiting, current) && t !in queue && current != To(t)
  {
  }

  lemma PausedPlace(state: map<Tid, RunState>, queue: seq<Tid>, waiting: seq<Tid>, current: Link, t: Tid)
    requires RolesOk(state, queue, waiting, current) && t in state && state[t] == Paused && (current.To? ==> state[current.t] == Running)
    ensures t in waiting && t !in queue && current != To(t)
  {
  }

  lemma FinishedPlace(state: map<Tid, RunState>, queue: seq<Tid>, waiting: seq<Tid>, current: Link, t: Tid)
    requires RolesOk(state, queue, waiting, current) && t in state && state[t] == Finished && (current.To? ==> state[current.t] == Running)
    ensures t !in waiting && t !in queue && current != To(t)
  {
  }
}
