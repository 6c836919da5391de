/** The timed worker queue: tasks in an ordered tree by due time, given to workers. Its
    mutex keeps threads apart, not the timer interrupt: each write inside a critical
    section is a step of its own, and a tick may come between any two steps. */
module WorkerQueue {
  import opened TreeItems
  import opened OrderedTree
  import opened Options

  const TWO_64: nat := 0x1_0000_0000_0000_0000
  const UINT64_MAX: nat := 0xFFFF_FFFF_FFFF_FFFF

  /** uint64_key_cmp_fun */
  function CompareTimes(a: int, b: int): int {
    if a == b then 0 else if a > b then 1 else -1
  }

  const TIMES: Comparison := (a, b) => CompareTimes(a, b)

  /** What a push asked for: a delay from some time on. */
  datatype Ask = Ask(from: nat, delay: nat)

  /** A task that was given to a worker, and when. */
  datatype Given = Given(task: int, due: int, at: nat)

  /** Who holds the mutex: nobody; a push that has added `x` and not lowered the next
      task time yet; or a worker that has looked up `found`, set the next task time, and
      not decided on it yet. */
  datatype Holder = Free | Adding(x: Item) | Looking(found: Option<Item>)

  /** `tasks` are the items of the tree, due times with tasks; `pending` are the pushes
      that have computed their due time and do not hold the mutex yet. */
  datatype State = State(time: nat, next: int, tasks: seq<Item>, mutex: Holder,
                         pending: map<int, int>, asked: map<int, Ask>, given: seq<Given>)

  const START: State := State(0, UINT64_MAX, [], Free, map[], map[], [])

  function Due(a: Ask): nat {
    (a.from + a.delay) % TWO_64
  }

  // ----- steps -----

  /** worker_push_in, before the mutex: a new task. */
  predicate PrepareStep(s: State, task: int, delay: nat, s': State) {
    && task !in s.asked
    && var a := Ask(s.time, delay);
       s' == s.(pending := s.pending[task := Due(a)], asked := s.asked[task := a])
  }

  /** worker_push_in: the mutex is taken and the task added. */
  predicate AddStep(s: State, task: int, s': State) {
    && task in s.pending && s.mutex.Free?
    && var x := Item(s.pending[task], task);
       s' == s.(tasks := Added(TIMES, s.tasks, x), pending := s.pending - {task}, mutex := Adding(x))
  }

  /** The next task time is lowered, and the mutex released. */
  predicate LowerStep(s: State, s': State) {
    s.mutex.Adding? && s' == s.(next := if s.mutex.x.key < s.next then s.mutex.x.key else s.next, mutex := Free)
  }

  /** worker_thread: the mutex is taken, `x` is what btree_upper finds from time 0 on,
      and the next task time is set. */
  ghost predicate LookStep(s: State, x: Option<Item>, s': State) {
    && s.mutex.Free? && IsUpper(TIMES, s.tasks, 0, x)
    && s' == s.(next := if x.None? then UINT64_MAX else x.value.key, mutex := Looking(x))
  }

  /** What was found is taken if it is due by now, and the mutex released. */
  predicate TakeStep(s: State, s': State) {
    && s.mutex.Looking?
    && var x := s.mutex.found;
       s' == if x.Some? && x.value.key <= s.time
             then s.(mutex := Free, tasks := Without(TIMES, s.tasks, x.value.key, true, x.value.val),
                     given := s.given + [Given(x.value.val, x.value.key, s.time)])
             else s.(mutex := Free)
  }

  /** notify_time_pass, from the timer interrupt, whoever holds the mutex; `woke`: it
      goes through the workers to wake one. */
  predicate TickStep(s: State, usecs: nat, woke: bool, s': State) {
    s' == s.(time := (s.time + usecs) % TWO_64) && (woke <==> s.next <= s'.time)
  }

  datatype Event =
    | Prepare(task: int, delay: nat) | Add(task: int) | Lower
    | Look(x: Option<Item>) | Take | Tick(usecs: nat, woke: bool)

  ghost predicate Step(s: State, e: Event, s': State) {
    match e
    case Prepare(task, delay) => PrepareStep(s, task, delay, s')
    case Add(task) => AddStep(s, task, s')
    case Lower => LowerStep(s, s')
    case Look(x) => LookStep(s, x, s')
    case Take => TakeStep(s, s')
    case Tick(usecs, woke) => TickStep(s, usecs, woke, s')
  }

  ghost predicate Run(states: seq<State>, events: seq<Event>) {
    && |states| == |events| + 1 && states[0] == START
    && forall k :: 0 <= k < |events| ==> Step(states[k], events[k], states[k + 1])
  }

  // ----- what holds in every run -----

  ghost predicate InTree(s: State, task: int) {
    exists x :: x in s.tasks && x.val == task
  }

  ghost predicate WasGiven(s: State, task: int) {
    exists g :: g in s.given && g.task == task
  }

  /** The time at which the next tick wakes a worker is not after any task's, but for
      one that is just being added. */
  ghost predicate NextOk(s: State) {
    forall x :: x in s.tasks ==> s.next <= x.key || s.mutex == Adding(x)
  }

  /** What the holder of the mutex knows of the tree. */
  ghost predicate HolderOk(s: State) {
    match s.mutex
    case Free => true
    case Adding(x) => x in s.tasks
    case Looking(x) => IsUpper(TIMES, s.tasks, 0, x)
  }

  /** Every task in the tree is one that was asked for, and is there once. */
  ghost predicate TreeOk(s: State) {
    && Sorted(TIMES, s.tasks)
    && forall x :: x in s.tasks ==> x.val in s.asked && x.key == Due(s.asked[x.val]) && multiset(s.tasks)[x] == 1
  }

  /** Every task given was due, and was given once. */
  ghost predicate GivenOk(s: State) {
    && (forall g :: g in s.given ==> g.task in s.asked && g.due == Due(s.asked[g.task]) && g.due <= g.at)
    && (forall i, j :: 0 <= i < j < |s.given| ==> s.given[i].task != s.given[j].task)
  }

  ghost predicate PendingOk(s: State) {
    forall t :: t in s.pending ==> t in s.asked && s.pending[t] == Due(s.asked[t])
  }

  /** A task that was asked for is pending, in the tree, or given, and only one of these. */
  ghost predicate InOnePlace(s: State, t: int) {
    && (t in s.asked <==> t in s.pending || InTree(s, t) || WasGiven(s, t))
    && !(t in s.pending && InTree(s, t)) && !(t in s.pending && WasGiven(s, t)) && !(InTree(s, t) && WasGiven(s, t))
  }

  ghost predicate Inv(s: State) {
    NextOk(s) && HolderOk(s) && TreeOk(s) && GivenOk(s) && PendingOk(s) && forall t :: InOnePlace(s, t)
  }

  lemma TimesOrder()
    ensures Orders(TIMES)
  {
  }

  lemma PrepareKeeps(s: State, task: int, delay: nat, s': State)
    requires Inv(s) && PrepareStep(s, task, delay, s')
    ensures Inv(s')
  {
    hide Sorted, IsUpper;
    assert InOnePlace(s, task);
    forall t ensures InOnePlace(s', t) {
      assert InOnePlace(s, t);
      assert (InTree(s', t) <==> InTree(s, t)) && (WasGiven(s', t) <==> WasGiven(s, t));
    }
  }

  lemma AddedIn(s: seq<Item>, x: Item, y: Item)
    ensures y in Added(TIMES, s, x) <==> y in s || y == x
    ensures multiset(Added(TIMES, s, x))[y] == multiset(s)[y] + (if y == x then 1 else 0)
  {
    AddedItems(TIMES, s, x);
    assert y in Added(TIMES, s, x) <==> y in multiset(Added(TIMES, s, x));
  }

  lemma AddKeeps(s: State, task: int, s': State)
    requires Inv(s) && AddStep(s, task, s')
    ensures Inv(s')
  {
    hide Added, InTree, WasGiven, InOnePlace, TreeOk, NextOk, GivenOk, PendingOk;
    AddPlace(s, task, s', task);
    AddTree(s, task, s');
    AddOthers(s, task, s');
    forall t ensures InOnePlace(s', t) { AddPlace(s, task, s', t); }
  }

  lemma AddTree(s: State, task: int, s': State)
    requires TreeOk(s) && NextOk(s) && PendingOk(s) && AddStep(s, task, s') && !InTree(s, task)
    ensures TreeOk(s') && NextOk(s') && HolderOk(s')
  {
    hide Added, Orders;
    TimesOrder();
    var x := Item(s.pending[task], task);
    AddedSorted(TIMES, s.tasks, x);
    hide Sorted;
    NotInTree(s, x);
    hide InTree;
    forall y | y in s'.tasks ensures y.val in s'.asked && y.key == Due(s'.asked[y.val]) && multiset(s'.tasks)[y] == 1
      ensures s'.next <= y.key || y == x
    {
      AddedIn(s.tasks, x, y);
    }
    AddedIn(s.tasks, x, x);
  }

  lemma LowerKeeps(s: State, s': State)
    requires Inv(s) && LowerStep(s, s')
    ensures Inv(s')
  {
    hide Sorted, InOnePlace, IsUpper;
    forall t ensures InOnePlace(s', t) { SamePlace(s, s', t); }
  }

  lemma AddOthers(s: State, task: int, s': State)
    requires GivenOk(s) && PendingOk(s) && AddStep(s, task, s')
    ensures GivenOk(s') && PendingOk(s')
  {
    hide Added;
  }

  lemma AddPlace(s: State, task: int, s': State, t: int)
    requires AddStep(s, task, s') && InOnePlace(s, t) && InOnePlace(s, task)
    ensures InOnePlace(s', t) && !InTree(s, task)
  {
    hide Added, InTree, WasGiven;
    InTreeAdded(s, s', Item(s.pending[task], task), t);
  }

  lemma NotInTree(s: State, x: Item)
    requires !InTree(s, x.val)
    ensures x !in s.tasks && multiset(s.tasks)[x] == 0
  {
  }

  lemma InTreeAdded(s: State, s': State, x: Item, t: int)
    requires s'.tasks == Added(TIMES, s.tasks, x) && s'.given == s.given
    ensures InTree(s', t) <==> InTree(s, t) || t == x.val
    ensures WasGiven(s', t) <==> WasGiven(s, t)
  {
    hide Added;
    AddedIn(s.tasks, x, x);
    if y :| y in s.tasks && y.val == t { AddedIn(s.tasks, x, y); }
    if y :| y in s'.tasks && y.val == t { AddedIn(s.tasks, x, y); }
  }

  lemma {:induction false} WithoutCount(s: seq<Item>, key: int, val: int, y: Item)
    ensures multiset(Without(TIMES, s, key, true, val))[y] <= multiset(s)[y]
  {
    if s != [] {
      WithoutCount(s[1..], key, val, y);
      assert s == [s[0]] + s[1..];
    }
  }

  lemma LookKeeps(s: State, x: Option<Item>, s': State)
    requires Inv(s) && LookStep(s, x, s')
    ensures Inv(s')
  {
    TakenNext(s, x);
    hide Sorted, InOnePlace, IsUpper;
    forall t ensures InOnePlace(s', t) { SamePlace(s, s', t); }
  }

  lemma TakeKeeps(s: State, s': State)
    requires Inv(s) && TakeStep(s, s')
    ensures Inv(s')
  {
    hide Without, InOnePlace, IsUpper, TreeOk, NextOk, GivenOk, PendingOk;
    var x := s.mutex.found;
    if x.Some? && x.value.key <= s.time {
      TakeTree(s, s');
      assert InOnePlace(s, x.value.val);
      TakeGiven(s, s');
      forall t ensures InOnePlace(s', t) { TakePlace(s, s', t); }
    } else {
      TakeNothing(s, s');
      forall t ensures InOnePlace(s', t) { SamePlace(s, s', t); }
    }
  }

  /** The worker that takes found something due. */
  ghost predicate Takes(s: State) {
    s.mutex.Looking? && s.mutex.found.Some? && s.mutex.found.value.key <= s.time && IsUpper(TIMES, s.tasks, 0, s.mutex.found)
  }

  lemma TakeTree(s: State, s': State)
    requires TreeOk(s) && NextOk(s) && TakeStep(s, s') && Takes(s)
    ensures TreeOk(s') && NextOk(s')
  {
    hide Without, IsUpper;
    var x := s.mutex.found.value;
    TakenNext(s, s.mutex.found);
    WithoutSorted(TIMES, s.tasks, x.key, true, x.val);
    hide Sorted;
    forall y | y in s'.tasks ensures multiset(s'.tasks)[y] == 1 { WithoutCount(s.tasks, x.key, x.val, y); }
  }

  lemma TakeGiven(s: State, s': State)
    requires TreeOk(s) && GivenOk(s) && PendingOk(s) && TakeStep(s, s') && Takes(s) && InOnePlace(s, s.mutex.found.value.val)
    ensures GivenOk(s') && PendingOk(s')
  {
    TakenNext(s, s.mutex.found);
    hide Without, IsUpper, Sorted;
    TakenOnce(s, s.mutex.found.value);
    forall i | 0 <= i < |s.given| ensures s.given[i].task != s.mutex.found.value.val { assert s.given[i] in s.given; }
  }

  lemma TakePlace(s: State, s': State, t: int)
    requires TreeOk(s) && TakeStep(s, s') && Takes(s) && InOnePlace(s, t)
    ensures InOnePlace(s', t)
  {
    hide Without, InOnePlace, IsUpper, TreeOk;
    var x := s.mutex.found.value;
    TakenNext(s, s.mutex.found);
    TreeSorted(s);
    WithoutSorted(TIMES, s.tasks, x.key, true, x.val);
    TakenPlace(s, s', x, t);
  }

  lemma TreeSorted(s: State)
    requires TreeOk(s)
    ensures Sorted(TIMES, s.tasks)
  {
  }

  lemma TakeNothing(s: State, s': State)
    requires TreeOk(s) && NextOk(s) && GivenOk(s) && PendingOk(s) && TakeStep(s, s') && s'.tasks == s.tasks && s'.given == s.given
    ensures TreeOk(s') && NextOk(s') && GivenOk(s') && PendingOk(s')
  {
    hide Without, IsUpper, Sorted;
  }

  /** What btree_upper finds from 0 on is a task with the earliest due time of all. */
  lemma TakenNext(s: State, x: Option<Item>)
    requires TreeOk(s) && IsUpper(TIMES, s.tasks, 0, x)
    ensures x.None? ==> s.tasks == []
    ensures x.Some? ==> x.value in s.tasks && forall y :: y in s.tasks ==> x.value.key <= y.key
  {
    hide Sorted;
    forall y | y in s.tasks ensures TIMES(0, y.key) <= 0 {}
    assert s.tasks != [] ==> s.tasks[0] in s.tasks;
  }

  lemma TakenOnce(s: State, x: Item)
    requires TreeOk(s) && x in s.tasks && InOnePlace(s, x.val)
    ensures forall g :: g in s.given ==> g.task != x.val
  {
    assert InTree(s, x.val);
  }

  lemma TakenPlace(s: State, s': State, x: Item, t: int)
    requires TreeOk(s) && x in s.tasks && s'.given == s.given + [Given(x.val, x.key, s.time)] && s'.pending == s.pending && s'.asked == s.asked
    requires forall y :: y in s'.tasks <==> y in s.tasks && !Matches(TIMES, y, x.key, true, x.val)
    requires InOnePlace(s, t)
    ensures InOnePlace(s', t)
  {
    hide Sorted, Without;
    assert InTree(s, x.val);
    if t != x.val {
      if y :| y in s.tasks && y.val == t { assert y in s'.tasks; }
    } else {
      forall y | y in s'.tasks ensures y.val != t { assert y.key == x.key || y.val != t; }
      assert Given(x.val, x.key, s.time) in s'.given;
    }
    if g :| g in s.given && g.task == t { assert g in s'.given; }
  }

  lemma SamePlace(s: State, s': State, t: int)
    requires s'.tasks == s.tasks && s'.given == s.given && s'.pending == s.pending && s'.asked == s.asked && InOnePlace(s, t)
    ensures InOnePlace(s', t)
  {
    assert (InTree(s', t) <==> InTree(s, t)) && (WasGiven(s', t) <==> WasGiven(s, t));
  }

  lemma TickKeeps(s: State, usecs: nat, woke: bool, s': State)
    requires Inv(s) && TickStep(s, usecs, woke, s')
    ensures Inv(s')
  {
    hide Sorted, InOnePlace, IsUpper;
    forall t ensures InOnePlace(s', t) { SamePlace(s, s', t); }
  }

  lemma {:induction false} RunInv(states: seq<State>, events: seq<Event>, k: nat)
    requires Run(states, events) && k < |states|
    ensures Inv(states[k])
  {
    hide Inv, PrepareStep, AddStep, LowerStep, LookStep, TakeStep, TickStep;
    if k == 0 {
      StartInv();
    } else {
      RunInv(states, events, k - 1);
      var s, s' := states[k - 1], states[k];
      assert Step(s, events[k - 1], s');
      match events[k - 1]
      case Prepare(task, delay) => PrepareKeeps(s, task, delay, s');
      case Add(task) => AddKeeps(s, task, s');
      case Lower => LowerKeeps(s, s');
      case Look(x) => LookKeeps(s, x, s');
      case Take => TakeKeeps(s, s');
      case Tick(usecs, woke) => TickKeeps(s, usecs, woke, s');
    }
  }

  lemma StartInv()
    ensures Inv(START)
  {
  }

  /** No tick past a due time skips the wake loop, unless a push is between adding its
      task and lowering the next task time. */
  lemma NoMissedTick(states: seq<State>, events: seq<Event>, k: nat, x: Item)
    requires Run(states, events) && k < |events| && events[k].Tick? && x in states[k].tasks && x.key <= states[k + 1].time
    requires !states[k].mutex.Adding?
    ensures events[k].woke
  {
    RunInv(states, events, k);
    hide Run, Sorted, IsUpper;
    assert Step(states[k], events[k], states[k + 1]);
  }

  /** Exactly when a tick skips the loop although some task is due: a push is between
      those two writes, its task is due, and no task was due before it. */
  lemma MissedExactly(states: seq<State>, events: seq<Event>, k: nat)
    requires Run(states, events) && k < |events| && events[k].Tick?
    ensures var s, now := states[k], states[k + 1].time;
      (exists x :: x in s.tasks && x.key <= now && !events[k].woke) <==> s.mutex.Adding? && s.mutex.x.key <= now < s.next
  {
    RunInv(states, events, k);
    hide Run, Sorted, IsUpper;
    assert Step(states[k], events[k], states[k + 1]);
    var s := states[k];
    if s.mutex.Adding? { assert s.mutex.x in s.tasks; }
  }

  /** It happens: a task due at once is added, and the timer interrupt comes before the
      next task time is lowered. */
  lemma TickMissed()
    ensures exists states: seq<State>, events: seq<Event> ::
      && Run(states, events) && |events| == 3 && events[2] == Tick(1000, false)
      && exists x :: x in states[2].tasks && x.key <= states[3].time
  {
    var a := Ask(0, 0);
    var s1 := START.(pending := map[7 := 0], asked := map[7 := a]);
    var s2 := START.(tasks := [Item(0, 7)], asked := map[7 := a], mutex := Adding(Item(0, 7)));
    assert s1.pending - {7} == map[];
    assert Added(TIMES, [], Item(0, 7)) == [Item(0, 7)];
    var s3 := s2.(time := 1000);
    assert Step(START, Prepare(7, 0), s1) && Step(s1, Add(7), s2) && Step(s2, Tick(1000, false), s3);
    var states, events := [START, s1, s2, s3], [Prepare(7, 0), Add(7), Tick(1000, false)];
    assert Run(states, events);
    assert Item(0, 7) in s2.tasks;
  }

  /** The microseconds of all ticks. */
  function Ticked(events: seq<Event>): nat {
    if events == [] then 0
    else Ticked(events[..|events| - 1]) + if events[|events| - 1].Tick? then events[|events| - 1].usecs else 0
  }

  lemma ModSum(a: nat, u: nat)
    ensures (a % 0x1_0000_0000_0000_0000 + u) % 0x1_0000_0000_0000_0000 == (a + u) % 0x1_0000_0000_0000_0000
  {
  }

  /** The time is what the ticks add up to, in 64-bit arithmetic: a tick advances it by
      exactly its microseconds, and nothing else does. */
  lemma {:induction false} TimeIsTicked(states: seq<State>, events: seq<Event>, k: nat)
    requires Run(states, events) && k < |states|
    ensures states[k].time == Ticked(events[..k]) % 0x1_0000_0000_0000_0000
  {
    hide Sorted, IsUpper, Added, Without;
    if k > 0 {
      TimeIsTicked(states, events, k - 1);
      assert Step(states[k - 1], events[k - 1], states[k]);
      assert events[..k][..k - 1] == events[..k - 1];
      if events[k - 1].Tick? { ModSum(Ticked(events[..k - 1]), events[k - 1].usecs); }
    }
  }

  /** What is known of a task that was asked for is what its push said: the time of the
      push, and the delay. */
  lemma {:induction false} AskedAt(states: seq<State>, events: seq<Event>, k: nat, t: int) returns (p: nat)
    requires Run(states, events) && k < |states| && t in states[k].asked
    ensures p < k && events[p] == Prepare(t, states[k].asked[t].delay) && states[k].asked[t].from == states[p].time
  {
    hide Sorted, IsUpper, Added, Without;
    if k > 0 {
      assert Step(states[k - 1], events[k - 1], states[k]);
      if events[k - 1].Prepare? && events[k - 1].task == t {
        p := k - 1;
      } else {
        p := AskedAt(states, events, k - 1, t);
      }
    }
  }

  /** A task is given at most once, and `p` is its push: never before it is due, which
      is the delay after the time of the push, in 64-bit arithmetic. */
  lemma GivenOnceNotEarly(states: seq<State>, events: seq<Event>, k: nat, i: nat, j: nat) returns (p: nat)
    requires Run(states, events) && k < |states| && i < |states[k].given| && j < |states[k].given|
    ensures states[k].given[i].task == states[k].given[j].task ==> i == j
    ensures p < k && events[p].Prepare? && events[p].task == states[k].given[i].task
    ensures var g, sum := states[k].given[i], states[p].time + events[p].delay;
            g.at >= g.due == sum % 0x1_0000_0000_0000_0000 && (sum < 0x1_0000_0000_0000_0000 ==> g.at >= g.due == sum)
  {
    hide Run;
    RunInv(states, events, k);
    assert states[k].given[i] in states[k].given;
    p := AskedAt(states, events, k, states[k].given[i].task);
  }

  /** A task given is an earliest of those in the tree. */
  lemma GivenEarliest(states: seq<State>, events: seq<Event>, k: nat, y: Item)
    requires Run(states, events) && k < |events| && events[k].Take? && y in states[k].tasks
    ensures |states[k + 1].given| > |states[k].given| ==>
      |states[k + 1].given| == |states[k].given| + 1 && states[k + 1].given[|states[k].given|].due <= y.key
    ensures states[k + 1].given == states[k].given ==> y.key > states[k].time
  {
    RunInv(states, events, k);
    assert Step(states[k], events[k], states[k + 1]);
    TakenNext(states[k], states[k].mutex.found);
  }

  /** No task is lost. */
  lemma NoneLost(states: seq<State>, events: seq<Event>, k: nat, t: int)
    requires Run(states, events) && k < |states| && t in states[k].asked
    ensures t in states[k].pending || InTree(states[k], t) || WasGiven(states[k], t)
  {
    RunInv(states, events, k);
    assert InOnePlace(states[k], t);
  }

  // ----- the queue itself -----

  class Queue {
    var time: nat
    var next: int              // next_task_time
    const tree: BTree
    var mutex: Holder
    ghost var pending: map<int, int>
    ghost var asked: map<int, Ask>
    ghost var given: seq<Given>

    ghost function View(): State
      reads this, tree, tree.root
    {
      State(time, next, tree.Items(), mutex, pending, asked, given)
    }

    ghost predicate Valid()
      reads this, tree, tree.root, ReprOf(tree.root)
    {
      tree.Valid() && tree.cf == TIMES
    }

    /** start_workers, without the workers. */
    constructor ()
      ensures Valid() && View() == START && fresh(tree)
    {
      TimesOrder();
      tree := new BTree(TIMES);
      time, next, mutex, pending, asked, given := 0, UINT64_MAX, Free, map[], map[], [];
    }

    /** worker_thread up to the next task time. */
    method Look()
      requires Valid() && mutex.Free?
      modifies this`next, this`mutex
      ensures Valid() && mutex.Looking? && LookStep(old(View()), mutex.found, View())
    {
      hide Sorted, IsUpper, Node.Valid, Orders;
      var x := Upper(TIMES, tree.root, 0);
      next, mutex := if x.None? then UINT64_MAX else x.value.key, Looking(x);
    }

    /** The rest of the critical section of worker_thread. */
    method TakeTask() returns (task: Option<int>)
      requires Valid() && mutex.Looking?
      modifies this`given, this`mutex, tree, ReprOf(tree.root)
      ensures Valid() && TakeStep(old(View()), View())
      ensures task.Some? <==> |given| > |old(given)|
      ensures task.Some? ==> given == old(given) + [Given(task.value, given[|given| - 1].due, time)]
    {
      hide Sorted, Without, IsUpper, Node.Valid, Orders;
      var x := mutex.found;
      task := None;
      if x.Some? && x.value.key <= time {
        task := Some(x.value.val);
        tree.RemoveV(x.value.key, x.value.val);
        given := given + [Given(x.value.val, x.value.key, time)];
      }
      mutex := Free;
    }

    /** worker_push_in up to the mutex: the due time of a new task. */
    method Prepare(usecs: nat, task: int) returns (due: nat)
      requires Valid() && task !in asked
      modifies this`pending, this`asked
      ensures Valid() && PrepareStep(old(View()), task, usecs, View()) && pending[task] == due
      ensures due == (time + usecs) % 0x1_0000_0000_0000_0000
    {
      hide Sorted, Node.Valid, Orders;
      due := (time + usecs) % TWO_64;
      pending, asked := pending[task := due], asked[task := Ask(time, usecs)];
    }

    /** worker_push_in: the task is added ... */
    method PushIn(due: nat, task: int)
      requires Valid() && mutex.Free? && task in pending && pending[task] == due
      modifies this`mutex, this`pending, tree, ReprOf(tree.root)
      ensures Valid() && AddStep(old(View()), task, View())
    {
      hide Sorted, Added, Node.Valid, Orders;
      tree.Add(due, task);
      pending, mutex := pending - {task}, Adding(Item(due, task));
    }

    /** ... and the next task time lowered. */
    method LowerNext()
      requires Valid() && mutex.Adding?
      modifies this`next, this`mutex
      ensures Valid() && LowerStep(old(View()), View())
    {
      hide Sorted, Node.Valid, Orders;
      if mutex.x.key < next { next := mutex.x.key; }
      mutex := Free;
    }

    /** notify_time_pass: `asleep` tells of each worker whether it can be resumed; the
        first such one is. */
    method NotifyTimePass(usecs: nat, asleep: seq<bool>) returns (woken: Option<nat>)
      requires Valid()
      modifies this`time
      ensures Valid() && TickStep(old(View()), usecs, next <= time, View())
      ensures time == (old(time) + usecs) % 0x1_0000_0000_0000_0000
      ensures woken.Some? <==> next <= time && true in asleep
      ensures woken.Some? ==> woken.value < |asleep| && asleep[woken.value] && forall i :: 0 <= i < woken.value ==> !asleep[i]
    {
      time := (time + usecs) % TWO_64;
      woken := None;
      if next <= time {
        var i := 0;
        while i < |asleep|
          invariant i <= |asleep| && forall j :: 0 <= j < i ==> !asleep[j]
        {
          if asleep[i] { return Some(i); }
          i := i + 1;
        }
      }
    }
  }
}
