/** The choice loop of schedule, the clock tick and nice. */
module Scheduler {
  const NR_TASKS: nat := 64

  datatype Slot = Empty | Task(running: bool, counter: int, priority: int)

  predicate Runnable(s: Slot) {
    s.Task? && s.running
  }

  datatype Choice = Choice(c: int, next: nat)

  /** The inner loop over slots NR_TASKS - 1 down to lo: the first strictly greatest counter wins. */
  function Pick(tasks: seq<Slot>, lo: nat): (r: Choice)
    requires 1 <= lo <= |tasks|
    ensures r.next == 0 || lo <= r.next < |tasks|
    decreases |tasks| - lo
  {
    if lo == |tasks| then Choice(-1, 0) else
      var r := Pick(tasks, lo + 1);
      if Runnable(tasks[lo]) && tasks[lo].counter > r.c then Choice(tasks[lo].counter, lo) else r
  }

  function Recharged(s: Slot): Slot {
    if s.Task? then s.(counter := s.counter / 2 + s.priority) else s
  }

  /** Every task but task 0 keeps half of what is left and gets its priority. */
  function Recharge(tasks: seq<Slot>): (r: seq<Slot>)
    ensures |r| == |tasks| && forall i :: 0 <= i < |tasks| ==> r[i] == if i == 0 then tasks[0] else Recharged(tasks[i])
  {
    seq(|tasks|, i requires 0 <= i < |tasks| => if i == 0 then tasks[0] else Recharged(tasks[i]))
  }

  /** All counters lie between 0 and twice the bound, all priorities between 1 and the bound. */
  ghost predicate Within(tasks: seq<Slot>, bound: int) {
    |tasks| == NR_TASKS &&
    forall i :: 0 <= i < |tasks| && tasks[i].Task? ==>
        0 <= tasks[i].counter <= 2 * bound && 0 < tasks[i].priority <= bound
  }

  ghost predicate SomeRunnable(tasks: seq<Slot>, lo: nat) {
    exists i :: lo <= i < |tasks| && Runnable(tasks[i])
  }

  /**
   * Pick returns a runnable task of greatest counter, the highest slot among equals, and task 0
   * only if there is none.
   */
  lemma {:induction false} PickIsBest(tasks: seq<Slot>, lo: nat, bound: int)
    requires Within(tasks, bound) && 1 <= lo <= |tasks|
    ensures var r := Pick(tasks, lo);
            && (r.next == 0 <==> !SomeRunnable(tasks, lo)) && (r.next == 0 ==> r.c == -1)
            && (r.next != 0 ==> Runnable(tasks[r.next]) && r.c == tasks[r.next].counter >= 0)
            && (forall i :: lo <= i < |tasks| && Runnable(tasks[i]) ==>
                  tasks[i].counter <= r.c && (tasks[i].counter == r.c ==> i <= r.next))
    decreases |tasks| - lo
  {
    if lo < |tasks| {
      PickIsBest(tasks, lo + 1, bound);
      assert SomeRunnable(tasks, lo) <==> Runnable(tasks[lo]) || SomeRunnable(tasks, lo + 1);
    }
  }

  /** A recharge keeps the bounds. */
  lemma RechargeKeeps(tasks: seq<Slot>, bound: int)
    requires Within(tasks, bound)
    ensures Within(Recharge(tasks), bound)
  {
  }

  /** After one recharge a runnable task has something to run on. */
  lemma OneRechargeIsEnough(tasks: seq<Slot>, bound: int)
    requires Within(tasks, bound) && Pick(tasks, 1).c == 0
    ensures Pick(Recharge(tasks), 1).c > 0 && Pick(Recharge(tasks), 1).next != 0
  {
    hide Pick;
    PickIsBest(tasks, 1, bound);
    RechargeKeeps(tasks, bound);
    var r := Recharge(tasks);
    PickIsBest(r, 1, bound);
    var i := Pick(tasks, 1).next;
    assert Runnable(tasks[i]);
    assert Runnable(r[i]) && r[i].counter > 0;
    assert SomeRunnable(r, 1);
  }

  /** No recharge happens while a runnable task has anything left. */
  lemma RechargeOnlyWhenSpent(tasks: seq<Slot>, bound: int)
    requires Within(tasks, bound)
    ensures Pick(tasks, 1).c == 0 <==>
              SomeRunnable(tasks, 1) && forall i :: 1 <= i < |tasks| && Runnable(tasks[i]) ==> tasks[i].counter == 0
  {
    hide Pick;
    PickIsBest(tasks, 1, bound);
    if SomeRunnable(tasks, 1) {
      var i :| 1 <= i < |tasks| && Runnable(tasks[i]);
    }
  }

  class Kernel {
    var task: seq<Slot>
    var current: nat

    ghost predicate Valid(bound: int)
      reads this
    {
      Within(task, bound) && current < NR_TASKS
    }

    /** schedule: at most one recharge, then the best runnable task. */
    method Schedule(ghost bound: int) returns (ghost recharged: bool)
      requires Valid(bound)
      modifies this
      ensures Valid(bound) && recharged == (Pick(old(task), 1).c == 0)
      ensures task == if recharged then Recharge(old(task)) else old(task)
      ensures current == Pick(task, 1).next
    {
      recharged := false;
      while true
        invariant Within(task, bound) && task == (if recharged then Recharge(old(task)) else old(task))
        invariant recharged ==> Pick(old(task), 1).c == 0 && Pick(task, 1).c > 0
        decreases !recharged
      {
        hide Pick;
        var c, next := Scan(bound);
        if c != 0 { current := next; return; }
        OneRechargeIsEnough(task, bound);
        RechargeKeeps(task, bound);
        RechargeAll();
        recharged := true;
      }
    }

    method Scan(ghost bound: int) returns (c: int, next: nat)
      requires Within(task, bound)
      ensures c == Pick(task, 1).c && next == Pick(task, 1).next < NR_TASKS
    {
      c, next := -1, 0;
      var i := NR_TASKS;
      while i > 1
        invariant 1 <= i <= NR_TASKS && Pick(task, i) == Choice(c, next)
      {
        i := i - 1;
        if Runnable(task[i]) && task[i].counter > c { c, next := task[i].counter, i; }
      }
    }

    method RechargeAll()
      requires |task| == NR_TASKS
      modifies this`task
      ensures task == Recharge(old(task)) && |task| == NR_TASKS
      ensures forall i :: 0 <= i < NR_TASKS ==>
                task[i] == if i == 0 || old(task)[i] == Empty then old(task)[i]
                           else Task(old(task)[i].running, old(task)[i].counter / 2 + old(task)[i].priority,
                                     old(task)[i].priority)
    {
      ghost var was := task;
      var p := NR_TASKS - 1;
      while p > 0
        invariant 0 <= p < NR_TASKS && |task| == NR_TASKS
        invariant forall i :: 0 <= i < NR_TASKS ==> task[i] == if i > p then Recharged(was[i]) else was[i]
      {
        if task[p].Task? { task := task[p := task[p].(counter := task[p].counter / 2 + task[p].priority)]; }
        p := p - 1;
      }
    }

    /** The counter part of do_timer; user says that the tick came in user mode. */
    method Tick(ghost bound: int, user: bool) returns (rescheduled: bool)
      requires Valid(bound) && task[current].Task?
      modifies this
      ensures Valid(bound)
      ensures var t := old(task)[old(current) := Ticked(old(task)[old(current)])];
              && rescheduled == (user && Ticked(old(task)[old(current)]).counter == 0)
              && (!rescheduled ==> task == t && current == old(current))
              && (rescheduled ==>
                   task == (if Pick(t, 1).c == 0 then Recharge(t) else t) && current == Pick(task, 1).next)
    {
      hide Pick;
      var left := task[current].counter - 1;
      rescheduled := false;
      if left > 0 {
        task := task[current := task[current].(counter := left)];
        return;
      }
      task := task[current := task[current].(counter := 0)];
      if !user { return; }
      var _ := Schedule(bound);
      rescheduled := true;
    }

    /** sys_nice: only an increment that would leave no priority at all is ignored. */
    method Nice(increment: int, ghost bound: int)
      requires Valid(bound) && task[current].Task? && task[current].priority - increment <= bound
      modifies this`task
      ensures Valid(bound) && task == old(task)[current := Niced(old(task)[current], increment)]
    {
      if task[current].priority - increment > 0 {
        task := task[current := task[current].(priority := task[current].priority - increment)];
      }
    }
  }

  function Ticked(s: Slot): Slot
    requires s.Task?
  {
    s.(counter := if s.counter > 1 then s.counter - 1 else 0)
  }

  function Niced(s: Slot, increment: int): Slot
    requires s.Task?
  {
    if s.priority - increment > 0 then s.(priority := s.priority - increment) else s
  }

  // ---------------------------------------------------------------- between two recharges

  datatype State = State(task: seq<Slot>, current: nat)

  /** What happens to tasks without a recharge: ticks, switches, and anything other tasks go through. */
  datatype Event =
    | Tick
    | Switch
    | Change(j: nat, slot: Slot)

  /** A switch that recharges ends the interval; a change is to any task but the one watched. */
  ghost predicate Enabled(s: State, e: Event, i: nat) {
    && |s.task| == NR_TASKS && s.current < NR_TASKS
    && match e
       case Tick => s.task[s.current].Task?
       case Switch => Pick(s.task, 1).c != 0
       case Change(j, slot) => j < NR_TASKS && j != i
  }

  function Next(s: State, e: Event): State
    requires |s.task| == NR_TASKS && s.current < NR_TASKS
    requires e.Tick? ==> s.task[s.current].Task?
    requires e.Change? ==> e.j < NR_TASKS
  {
    match e
    case Tick => s.(task := s.task[s.current := Ticked(s.task[s.current])])
    case Switch => s.(current := Pick(s.task, 1).next)
    case Change(j, slot) => s.(task := s.task[j := slot])
  }

  ghost predicate Runs(s: State, es: seq<Event>, i: nat)
    decreases |es|
  {
    es == [] || (Enabled(s, es[0], i) && Runs(Next(s, es[0]), es[1..], i))
  }

  ghost function After(s: State, es: seq<Event>, i: nat): State
    requires Runs(s, es, i)
    decreases |es|
  {
    if es == [] then s else After(Next(s, es[0]), es[1..], i)
  }

  /** Ticks that came while i was current and had something left. */
  ghost function Charged(s: State, es: seq<Event>, i: nat): nat
    requires Runs(s, es, i)
    decreases |es|
  {
    if es == [] then 0
    else (if es[0].Tick? && s.current == i && s.task[i].counter > 0 then 1 else 0) + Charged(Next(s, es[0]), es[1..], i)
  }

  lemma {:induction false} TicksAreCharged(s: State, es: seq<Event>, i: nat)
    requires Runs(s, es, i) && i < NR_TASKS == |s.task| && s.task[i].Task? && s.task[i].counter >= 0
    ensures var s' := After(s, es, i);
            |s'.task| == NR_TASKS && s'.task[i].Task? && s'.task[i].counter >= 0
                && s.task[i].counter == s'.task[i].counter + Charged(s, es, i)
    decreases |es|
  {
    hide Pick;
    if es != [] { TicksAreCharged(Next(s, es[0]), es[1..], i); }
  }

  /**
   * Between two recharges a task that is runnable at the second has run for exactly the
   * counter it had after the first.
   */
  lemma UsesWholeCounter(s: State, es: seq<Event>, i: nat, bound: int)
    requires Runs(s, es, i) && 1 <= i < NR_TASKS == |s.task| && s.task[i].Task? && s.task[i].counter >= 0
    requires var s' := After(s, es, i); Within(s'.task, bound) && Runnable(s'.task[i]) && Pick(s'.task, 1).c == 0
    ensures Charged(s, es, i) == s.task[i].counter
  {
    TicksAreCharged(s, es, i);
    RechargeOnlyWhenSpent(After(s, es, i).task, bound);
  }

  // ---------------------------------------------------------------- the bound is on priorities ever held

  /** What tasks do, from the first task on. */
  datatype Act =
    | Clock(user: bool)
    | Yield
    | Sleep
    | Wake(j: nat)
    | Nice(increment: int)
    | Fork(j: nat)
    | Release(j: nat)

  /** There are 64 slots; task 0 and the current task are there. */
  ghost predicate Shape(s: State) {
    |s.task| == NR_TASKS && s.current < NR_TASKS && s.task[0].Task? && s.task[s.current].Task?
  }

  /** fork takes an empty slot; any task but task 0 can be released, also by itself. */
  ghost predicate Can(s: State, a: Act) {
    && Shape(s)
    && match a
       case Fork(j) => 0 < j < NR_TASKS && s.task[j] == Empty
       case Wake(j) => j < NR_TASKS && s.task[j].Task?
       case Release(j) => 0 < j < NR_TASKS && s.task[j].Task?
       case _ => true
  }

  function Scheduled(s: State): State
    requires |s.task| == NR_TASKS
  {
    var t := if Pick(s.task, 1).c == 0 then Recharge(s.task) else s.task;
    State(t, Pick(t, 1).next)
  }

  /** copy_process: the child starts with its priority as its counter. */
  function Forked(parent: Slot): Slot
    requires parent.Task?
  {
    Task(true, parent.priority, parent.priority)
  }

  function Done(s: State, a: Act): State
    requires Can(s, a)
  {
    var me := s.task[s.current];
    match a
    case Clock(user) =>
      var t := s.(task := s.task[s.current := Ticked(me)]);
      if user && Ticked(me).counter == 0 then Scheduled(t) else t
    case Yield => Scheduled(s)
    case Sleep => Scheduled(s.(task := s.task[s.current := me.(running := false)]))
    case Wake(j) => s.(task := s.task[j := s.task[j].(running := true)])
    case Nice(increment) => s.(task := s.task[s.current := Niced(me, increment)])
    case Fork(j) => s.(task := s.task[j := Forked(me)])
    case Release(j) => Scheduled(s.(task := s.task[j := Empty]))
  }

  ghost predicate CanAll(s: State, acts: seq<Act>)
    decreases |acts|
  {
    acts == [] || (Can(s, acts[0]) && CanAll(Done(s, acts[0]), acts[1..]))
  }

  ghost function DoneAll(s: State, acts: seq<Act>): State
    requires CanAll(s, acts)
    decreases |acts|
  {
    if acts == [] then s else DoneAll(Done(s, acts[0]), acts[1..])
  }

  function Max(a: int, b: int): int {
    if a > b then a else b
  }

  function MaxPriority(tasks: seq<Slot>): int {
    if tasks == [] then 0 else
      var k := |tasks| - 1;
      Max(MaxPriority(tasks[..k]), if tasks[k].Task? then tasks[k].priority else 0)
  }

  function MaxCounter(tasks: seq<Slot>): int {
    if tasks == [] then 0 else
      var k := |tasks| - 1;
      Max(MaxCounter(tasks[..k]), if tasks[k].Task? then tasks[k].counter else 0)
  }

  /** MaxPriority is no less than any priority, and is one of them unless it is 0. */
  lemma {:induction false} MaxPriorityIs(tasks: seq<Slot>)
    ensures 0 <= MaxPriority(tasks)
    ensures forall i :: 0 <= i < |tasks| && tasks[i].Task? ==> tasks[i].priority <= MaxPriority(tasks)
    ensures MaxPriority(tasks) == 0 || exists i ::
              0 <= i < |tasks| && tasks[i].Task? && tasks[i].priority == MaxPriority(tasks)
  {
    if tasks != [] {
      var k := |tasks| - 1;
      MaxPriorityIs(tasks[..k]);
      forall i | 0 <= i < |tasks| && tasks[i].Task? ensures tasks[i].priority <= MaxPriority(tasks) {
        if i < k { assert tasks[..k][i] == tasks[i]; }
      }
      if MaxPriority(tasks) != 0 {
        if MaxPriority(tasks) == MaxPriority(tasks[..k]) {
          var i :| 0 <= i < k && tasks[..k][i].Task? && tasks[..k][i].priority == MaxPriority(tasks[..k]);
          assert tasks[i].Task? && tasks[i].priority == MaxPriority(tasks);
        } else {
          assert tasks[k].Task? && tasks[k].priority == MaxPriority(tasks);
        }
      }
    }
  }

  lemma {:induction false} MaxCounterIs(tasks: seq<Slot>)
    ensures 0 <= MaxCounter(tasks)
    ensures forall i :: 0 <= i < |tasks| && tasks[i].Task? ==> tasks[i].counter <= MaxCounter(tasks)
    ensures MaxCounter(tasks) == 0 || exists i ::
              0 <= i < |tasks| && tasks[i].Task? && tasks[i].counter == MaxCounter(tasks)
  {
    if tasks != [] {
      var k := |tasks| - 1;
      MaxCounterIs(tasks[..k]);
      forall i | 0 <= i < |tasks| && tasks[i].Task? ensures tasks[i].counter <= MaxCounter(tasks) {
        if i < k { assert tasks[..k][i] == tasks[i]; }
      }
      if MaxCounter(tasks) != 0 {
        if MaxCounter(tasks) == MaxCounter(tasks[..k]) {
          var i :| 0 <= i < k && tasks[..k][i].Task? && tasks[..k][i].counter == MaxCounter(tasks[..k]);
          assert tasks[i].Task? && tasks[i].counter == MaxCounter(tasks);
        } else {
          assert tasks[k].Task? && tasks[k].counter == MaxCounter(tasks);
        }
      }
    }
  }

  /** The largest priority any task has had. */
  ghost function Peak(s: State, acts: seq<Act>): int
    requires CanAll(s, acts)
    decreases |acts|
  {
    if acts == [] then MaxPriority(s.task) else Max(MaxPriority(s.task), Peak(Done(s, acts[0]), acts[1..]))
  }

  lemma ScheduledKeeps(s: State, bound: int)
    requires Within(s.task, bound) && s.task[0].Task?
    ensures Shape(Scheduled(s)) && Within(Scheduled(s).task, bound)
  {
    hide Pick;
    RechargeKeeps(s.task, bound);
    var t := if Pick(s.task, 1).c == 0 then Recharge(s.task) else s.task;
    PickIsBest(t, 1, bound);
  }

  lemma DoneKeeps(s: State, a: Act, bound: int)
    requires Can(s, a) && Within(s.task, bound)
    requires a.Nice? ==> s.task[s.current].priority - a.increment <= bound
    ensures Shape(Done(s, a)) && Within(Done(s, a).task, bound)
  {
    hide Pick, Recharge, Scheduled;
    var me := s.task[s.current];
    match a
    case Clock(user) =>
      var t := s.(task := s.task[s.current := Ticked(me)]);
      assert Within(t.task, bound);
      if user && Ticked(me).counter == 0 { ScheduledKeeps(t, bound); }
    case Yield => ScheduledKeeps(s, bound);
    case Sleep => ScheduledKeeps(s.(task := s.task[s.current := me.(running := false)]), bound);
    case Release(j) => ScheduledKeeps(s.(task := s.task[j := Empty]), bound);
    case _ =>
  }

  /**
   * In every run each counter stays between 0 and twice the largest priority any task
   * has had so far, and each priority is positive.
   */
  lemma {:induction false} EveryRunWithin(s: State, acts: seq<Act>, bound: int)
    requires Shape(s) && Within(s.task, bound) && CanAll(s, acts)
    ensures Shape(DoneAll(s, acts)) && Within(DoneAll(s, acts).task, Max(bound, Peak(s, acts)))
    decreases |acts|
  {
    hide Done;
    if acts != [] {
      var s1 := Done(s, acts[0]);
      var b := Max(bound, MaxPriority(s1.task));
      NextWithin(s, acts[0], bound);
      EveryRunWithin(s1, acts[1..], b);
      PeakIsMore(s1, acts[1..]);
      Wider(DoneAll(s1, acts[1..]).task, Max(b, Peak(s1, acts[1..])), Max(bound, Peak(s, acts)));
    } else {
      Wider(s.task, bound, Max(bound, Peak(s, acts)));
    }
  }

  lemma PeakIsMore(s: State, acts: seq<Act>)
    requires CanAll(s, acts)
    ensures MaxPriority(s.task) <= Peak(s, acts)
  {
  }

  lemma Wider(tasks: seq<Slot>, b: int, c: int)
    requires Within(tasks, b) && b <= c
    ensures Within(tasks, c)
  {
  }

  lemma NextWithin(s: State, a: Act, bound: int)
    requires Can(s, a) && Within(s.task, bound)
    ensures Shape(Done(s, a)) && Within(Done(s, a).task, Max(bound, MaxPriority(Done(s, a).task)))
  {
    var b := Max(bound, MaxPriority(Done(s, a).task));
    Wider(s.task, bound, b);
    MaxPriorityIs(Done(s, a).task);
    if a.Nice? {
      var me := s.task[s.current];
      assert Done(s, a).task[s.current] == Niced(me, a.increment);
      if me.priority - a.increment > 0 { DoneKeeps(s, a, b); }
    } else {
      DoneKeeps(s, a, b);
    }
  }

  /** Every counter fits the largest priority there is now. */
  ghost predicate Bounded(tasks: seq<Slot>) {
    Within(tasks, MaxPriority(tasks))
  }

  lemma BoundedIff(tasks: seq<Slot>, bound: int)
    requires Within(tasks, bound)
    ensures Bounded(tasks) <==> MaxCounter(tasks) <= 2 * MaxPriority(tasks)
  {
    MaxPriorityIs(tasks);
    MaxCounterIs(tasks);
  }

  /**
   * When the largest present priority bounds the counters, nice keeps it so exactly when
   * it does not lower the priority (an increment that is not positive, or one that is
   * ignored), or the largest counter fits another task's priority or the new one.
   */
  lemma NiceKeepsIff(s: State, increment: int)
    requires Shape(s) && Bounded(s.task)
    ensures var p, c, others := s.task[s.current].priority, MaxCounter(s.task), MaxPriority(s.task[s.current := Empty]);
            Bounded(Done(s, Nice(increment)).task) <==>
            increment <= 0 || p <= increment || c <= 2 * others || c <= 2 * (p - increment)
  {
    var t := Done(s, Nice(increment)).task;
    var i, p := s.current, s.task[s.current].priority;
    NicedWithin(s, increment);
    BoundedIff(t, Max(MaxPriority(s.task), p - increment));
    SameCounters(s, increment);
    MaxWithout(s.task, i);
    MaxWithout(t, i);
    assert t[i := Empty] == s.task[i := Empty];
    BoundedIff(s.task, MaxPriority(s.task));
  }

  lemma NicedWithin(s: State, increment: int)
    requires Shape(s) && Bounded(s.task)
    ensures Within(Done(s, Nice(increment)).task, Max(MaxPriority(s.task), s.task[s.current].priority - increment))
  {
    var b := Max(MaxPriority(s.task), s.task[s.current].priority - increment);
    Wider(s.task, MaxPriority(s.task), b);
    DoneKeeps(s, Nice(increment), b);
  }

  /** The largest priority is this task's or the largest of the others'. */
  lemma MaxWithout(tasks: seq<Slot>, i: nat)
    requires i < |tasks| && tasks[i].Task? && tasks[i].priority > 0
    ensures MaxPriority(tasks) == Max(MaxPriority(tasks[i := Empty]), tasks[i].priority)
  {
    hide MaxPriority;
    var u := tasks[i := Empty];
    MaxPriorityIs(tasks);
    MaxPriorityIs(u);
    forall j | 0 <= j < |tasks| && j != i ensures u[j] == tasks[j] {}
    var j :| 0 <= j < |tasks| && tasks[j].Task? && tasks[j].priority == MaxPriority(tasks);
    assert j != i ==> u[j].priority <= MaxPriority(u);
    if MaxPriority(u) != 0 {
      var k :| 0 <= k < |u| && u[k].Task? && u[k].priority == MaxPriority(u);
      assert tasks[k].priority <= MaxPriority(tasks);
    }
  }

  lemma SameCounters(s: State, increment: int)
    requires Shape(s)
    ensures MaxCounter(Done(s, Nice(increment)).task) == MaxCounter(s.task)
  {
    hide MaxCounter;
    var t, u := s.task, Done(s, Nice(increment)).task;
    MaxCounterIs(t);
    MaxCounterIs(u);
    forall j | 0 <= j < NR_TASKS ensures t[j].Task? == u[j].Task? && (t[j].Task? ==> t[j].counter == u[j].counter) {}
    if MaxCounter(t) != 0 {
      var j :| 0 <= j < |t| && t[j].Task? && t[j].counter == MaxCounter(t);
      assert u[j].counter <= MaxCounter(u);
    }
    if MaxCounter(u) != 0 {
      var j :| 0 <= j < |u| && u[j].Task? && u[j].counter == MaxCounter(u);
      assert t[j].counter <= MaxCounter(t);
    }
  }

  /** A recharge leaves the priorities alone. */
  lemma RechargeKeepsMax(tasks: seq<Slot>)
    ensures MaxPriority(Recharge(tasks)) == MaxPriority(tasks)
  {
    hide MaxPriority;
    SamePriorities(tasks, Recharge(tasks));
    SamePriorities(Recharge(tasks), tasks);
  }

  /** Where every task is still there with its priority, the largest priority is no smaller. */
  lemma SamePriorities(t: seq<Slot>, u: seq<Slot>)
    requires |t| == |u|
    requires forall i :: 0 <= i < |t| && t[i].Task? ==> u[i].Task? && u[i].priority == t[i].priority
    ensures MaxPriority(t) <= MaxPriority(u)
  {
    hide MaxPriority;
    MaxPriorityIs(t);
    MaxPriorityIs(u);
    if MaxPriority(t) != 0 {
      var i :| 0 <= i < |t| && t[i].Task? && t[i].priority == MaxPriority(t);
      assert u[i].priority <= MaxPriority(u);
    }
  }

  /** The counters of the tasks that remain when j is released, after the schedule that follows. */
  function Remaining(s: State, j: nat): seq<Slot>
    requires |s.task| == NR_TASKS && j < NR_TASKS
  {
    var u := s.task[j := Empty];
    if Pick(u, 1).c == 0 then Recharge(u) else u
  }

  /**
   * release keeps the bound by the largest present priority exactly when the largest counter
   * that remains, recharged if all that can run are spent, fits the largest priority that remains.
   */
  lemma ReleaseKeepsIff(s: State, j: nat)
    requires Can(s, Release(j)) && Bounded(s.task)
    ensures Bounded(Done(s, Release(j)).task) <==> MaxCounter(Remaining(s, j)) <= 2 * MaxPriority(s.task[j := Empty])
  {
    hide Pick, MaxPriority, MaxCounter;
    DoneKeeps(s, Release(j), MaxPriority(s.task));
    BoundedIff(Done(s, Release(j)).task, MaxPriority(s.task));
    RechargeKeepsMax(s.task[j := Empty]);
  }

  /** Ticks, switches, sleeps, wake-ups and forks keep it always. */
  lemma OthersKeep(s: State, a: Act)
    requires Can(s, a) && Bounded(s.task) && !a.Nice? && !a.Release?
    ensures Bounded(Done(s, a).task)
  {
    hide MaxPriority;
    DoneKeeps(s, a, MaxPriority(s.task));
    PrioritiesStay(s, a);
    SamePriorities(s.task, Done(s, a).task);
    Wider(Done(s, a).task, MaxPriority(s.task), MaxPriority(Done(s, a).task));
  }

  lemma PrioritiesStay(s: State, a: Act)
    requires Can(s, a) && !a.Nice? && !a.Release?
    ensures var u := Done(s, a).task;
            |u| == NR_TASKS &&
            forall i :: 0 <= i < NR_TASKS && s.task[i].Task? ==> u[i].Task? && u[i].priority == s.task[i].priority
  {
    hide Pick;
  }

  /** What nice and release must not do, as their callers could tell. */
  ghost predicate Safe(s: State, a: Act)
    requires Can(s, a)
  {
    match a
    case Nice(increment) =>
      var p, c, others := s.task[s.current].priority, MaxCounter(s.task), MaxPriority(s.task[s.current := Empty]);
      increment <= 0 || p <= increment || c <= 2 * others || c <= 2 * (p - increment)
    case Release(j) => MaxCounter(Remaining(s, j)) <= 2 * MaxPriority(s.task[j := Empty])
    case _ => true
  }

  ghost predicate AllSafe(s: State, acts: seq<Act>)
    requires CanAll(s, acts)
    decreases |acts|
  {
    acts == [] || (Safe(s, acts[0]) && AllSafe(Done(s, acts[0]), acts[1..]))
  }

  /** The bound holds in every state of the run. */
  ghost predicate AllBounded(s: State, acts: seq<Act>)
    requires CanAll(s, acts)
    decreases |acts|
  {
    Bounded(s.task) && (acts == [] || AllBounded(Done(s, acts[0]), acts[1..]))
  }

  /** Over every run: the largest present priority bounds the counters throughout exactly when every act is safe. */
  lemma {:induction false} RunBoundedIff(s: State, acts: seq<Act>)
    requires CanAll(s, acts) && Bounded(s.task)
    ensures AllBounded(s, acts) <==> AllSafe(s, acts)
    decreases |acts|
  {
    hide Bounded, Done, Safe;
    if acts != [] {
      SafeIff(s, acts[0]);
      var s1 := Done(s, acts[0]);
      if Bounded(s1.task) { RunBoundedIff(s1, acts[1..]); } else { NotAllBounded(s1, acts[1..]); }
    }
  }

  lemma NotAllBounded(s: State, acts: seq<Act>)
    requires CanAll(s, acts) && !Bounded(s.task)
    ensures !AllBounded(s, acts)
  {
  }

  lemma SafeIff(s: State, a: Act)
    requires Can(s, a) && Bounded(s.task)
    ensures Bounded(Done(s, a).task) <==> Safe(s, a)
  {
    hide Bounded, Done, Remaining, MaxCounter, MaxPriority;
    match a
    case Nice(increment) => NiceKeepsIff(s, increment);
    case Release(j) => ReleaseKeepsIff(s, j);
    case _ => OthersKeep(s, a);
  }

  // ---------------------------------------------------------------- a run that breaks the present bound

  /** Nothing but the first task, as INIT_TASK sets it up. */
  function Boot(): (s: State)
    ensures Shape(s) && Only3(s, 0, Task(true, 15, 15), Empty, Empty)
  {
    State(seq(NR_TASKS, i => if i == 0 then Task(true, 15, 15) else Empty), 0)
  }

  /** Slots 0, 1 and 2 hold a, b and c; the others are empty. */
  ghost predicate Only3(s: State, current: nat, a: Slot, b: Slot, c: Slot) {
    && |s.task| == NR_TASKS && s.current == current
    && forall i :: 0 <= i < NR_TASKS ==> s.task[i] == if i == 0 then a else if i == 1 then b else if i == 2 then c
       else Empty
  }

  lemma Yields3(s: State, current: nat, a: Slot, b: Slot, c: Slot, next: nat)
    requires Only3(s, current, a, b, c) && Shape(s) && Within(s.task, 35) && 1 <= next <= 2 && Runnable(s.task[next])
             && s.task[next].counter > 0
    requires forall i :: 1 <= i <= 2 && i != next && Runnable(s.task[i]) ==> s.task[i].counter < s.task[next].counter
    ensures Only3(Done(s, Yield), next, a, b, c)
  {
    hide Pick;
    PickIsBest(s.task, 1, 35);
    assert SomeRunnable(s.task, 1) by { assert Runnable(s.task[next]); }
    var r := Pick(s.task, 1);
    assert Runnable(s.task[r.next]);
  }

  /**
   * From the first task on: task 1 raises its priority, forks, lowers it again, and so
   * does the child.  The child's counter is still the one from the higher priority.
   */
  lemma NiceBreaksTheBound()
    ensures var acts := [Fork(1), Yield, Nice(-20), Fork(2), Nice(34), Yield];
            CanAll(Boot(), acts) && var s := DoneAll(Boot(), acts);
            && Only3(s, 2, Task(true, 15, 15), Task(true, 15, 1), Task(true, 35, 35)) && Bounded(s.task)
            && Only3(Done(s, Nice(34)), 2, Task(true, 15, 15), Task(true, 15, 1), Task(true, 35, 1))
            && !Bounded(Done(s, Nice(34)).task)
  {
    hide Pick, Scheduled, MaxPriority;
    var z, one := Task(true, 15, 15), Task(true, 15, 35);
    var s0 := Boot();
    var s1 := Done(s0, Fork(1));
    assert Only3(s1, 0, z, z, Empty);
    Yields3(s1, 0, z, z, Empty, 1);
    var s2 := Done(s1, Yield);
    var s3 := Done(s2, Nice(-20));
    assert Only3(s3, 1, z, one, Empty);
    var s4 := Done(s3, Fork(2));
    assert Only3(s4, 1, z, one, Task(true, 35, 35));
    var s5 := Done(s4, Nice(34));
    assert Only3(s5, 1, z, Task(true, 15, 1), Task(true, 35, 35));
    Yields3(s5, 1, z, Task(true, 15, 1), Task(true, 35, 35), 2);
    var s6 := Done(s5, Yield);
    SixDone(s0, Fork(1), Yield, Nice(-20), Fork(2), Nice(34), Yield);
    var s7 := Done(s6, Nice(34));
    assert Only3(s7, 2, z, Task(true, 15, 1), Task(true, 35, 1));
    MaxPriorityIs(s6.task);
    MaxPriorityIs(s7.task);
    assert s6.task[2].priority <= MaxPriority(s6.task);
    assert s7.task[2].counter == 35 && MaxPriority(s7.task) <= 15;
  }

  /** Six steps, one after another. */
  lemma SixDone(s: State, a: Act, b: Act, c: Act, d: Act, e: Act, f: Act)
    requires Can(s, a) && Can(Done(s, a), b) && Can(Done(Done(s, a), b), c)
    requires var t := Done(Done(Done(s, a), b), c); Can(t, d) && Can(Done(t, d), e) && Can(Done(Done(t, d), e), f)
    ensures CanAll(s, [a, b, c, d, e, f])
    ensures DoneAll(s, [a, b, c, d, e, f]) == Done(Done(Done(Done(Done(Done(s, a), b), c), d), e), f)
  {
    hide Can, Done;
    var t := Done(Done(Done(s, a), b), c);
    ThreeDone(t, d, e, f, []);
    assert [d, e, f] + [] == [d, e, f];
    ThreeDone(s, a, b, c, [d, e, f]);
    assert [a, b, c] + [d, e, f] == [a, b, c, d, e, f];
  }

  lemma ThreeDone(s: State, a: Act, b: Act, c: Act, more: seq<Act>)
    requires Can(s, a) && Can(Done(s, a), b) && Can(Done(Done(s, a), b), c)
    requires CanAll(Done(Done(Done(s, a), b), c), more)
    ensures var all := [a, b, c] + more;
            CanAll(s, all) && DoneAll(s, all) == DoneAll(Done(Done(Done(s, a), b), c), more)
  {
    hide Can, Done;
    OneDone(Done(Done(s, a), b), c, more);
    OneDone(Done(s, a), b, [c] + more);
    OneDone(s, a, [b] + ([c] + more));
    assert [a] + ([b] + ([c] + more)) == [a, b, c] + more;
  }

  lemma OneDone(s: State, a: Act, more: seq<Act>)
    requires Can(s, a) && CanAll(Done(s, a), more)
    ensures CanAll(s, [a] + more) && DoneAll(s, [a] + more) == DoneAll(Done(s, a), more)
  {
    hide Can, Done;
    assert ([a] + more)[1..] == more;
  }

  // ---------------------------------------------------------------- and one in which release does

  /** Slots 0 to 3 hold a, b, c and d; the others are empty. */
  ghost predicate Only4(s: State, current: nat, a: Slot, b: Slot, c: Slot, d: Slot) {
    && |s.task| == NR_TASKS && s.current == current && s.task[0] == a && s.task[1] == b && s.task[2] == c
       && s.task[3] == d
    && forall i :: 4 <= i < NR_TASKS ==> s.task[i] == Empty
  }

  /** schedule picks the highest slot of greatest counter. */
  lemma Picks4(s: State, current: nat, a: Slot, b: Slot, c: Slot, d: Slot, next: nat)
    requires Only4(s, current, a, b, c, d) && Within(s.task, 35) && 1 <= next <= 3 && Runnable(s.task[next])
    requires s.task[next].counter > 0 && forall i :: 1 <= i <= 3 && i != next && Runnable(s.task[i]) ==>
               s.task[i].counter < s.task[next].counter || (i < next && s.task[i].counter == s.task[next].counter)
    ensures Only4(Scheduled(s), next, a, b, c, d)
  {
    hide Pick;
    PickIsBest(s.task, 1, 35);
    assert SomeRunnable(s.task, 1) by { assert Runnable(s.task[next]); }
    var r := Pick(s.task, 1);
    assert Runnable(s.task[r.next]);
  }

  /**
   * As before, but the child forks before it lowers its priority, and its own child runs,
   * exits and is released by it: with that the last high priority is gone.
   */
  lemma ReleaseBreaksTheBound()
    ensures var acts := [Fork(1), Yield, Nice(-20), Fork(2), Nice(34), Yield, Fork(3), Nice(34), Yield];
            CanAll(Boot(), acts + [Sleep]) && var s := DoneAll(Boot(), acts + [Sleep]);
            && Only4(s, 2, Task(true, 15, 15), Task(true, 15, 1), Task(true, 35, 1), Task(false, 35, 35))
            && Bounded(s.task) && Can(s, Release(3))
            && Only4(Done(s, Release(3)), 2, Task(true, 15, 15), Task(true, 15, 1), Task(true, 35, 1), Empty)
            && !Bounded(Done(s, Release(3)).task)
  {
    hide Pick, Scheduled, MaxPriority;
    NiceBreaksTheBound();
    var first := [Fork(1), Yield, Nice(-20), Fork(2), Nice(34), Yield];
    var s6 := DoneAll(Boot(), first);
    ReleaseTail(s6);
    var s9 := Done(Done(Done(s6, Fork(3)), Nice(34)), Yield);
    ThreeDone(s6, Fork(3), Nice(34), Yield, [Sleep]);
    OneDone(s9, Sleep, []);
    assert [Sleep] + [] == [Sleep];
    var more := [Fork(3), Nice(34), Yield] + [Sleep];
    DoneJoins(Boot(), first, more);
    assert first + more
        == [Fork(1), Yield, Nice(-20), Fork(2), Nice(34), Yield, Fork(3), Nice(34), Yield] + [Sleep];
  }

  lemma {:induction false} DoneJoins(s: State, a: seq<Act>, b: seq<Act>)
    requires CanAll(s, a) && CanAll(DoneAll(s, a), b)
    ensures CanAll(s, a + b) && DoneAll(s, a + b) == DoneAll(DoneAll(s, a), b)
    decreases |a|
  {
    hide Can, Done;
    if a == [] {
      assert a + b == b;
    } else {
      assert (a + b)[1..] == a[1..] + b;
      DoneJoins(Done(s, a[0]), a[1..], b);
    }
  }

  /** The last four acts and the release. */
  lemma ReleaseTail(s: State)
    requires Only3(s, 2, Task(true, 15, 15), Task(true, 15, 1), Task(true, 35, 35))
    ensures Can(s, Fork(3)) && var s1 := Done(s, Fork(3)); Can(s1, Nice(34)) && var s2 := Done(s1, Nice(34));
            Can(s2, Yield) && var s3 := Done(s2, Yield); Can(s3, Sleep) && var s4 := Done(s3, Sleep);
            && Only4(s4, 2, Task(true, 15, 15), Task(true, 15, 1), Task(true, 35, 1), Task(false, 35, 35))
            && Bounded(s4.task) && Can(s4, Release(3))
            && Only4(Done(s4, Release(3)), 2, Task(true, 15, 15), Task(true, 15, 1), Task(true, 35, 1), Empty)
            && !Bounded(Done(s4, Release(3)).task)
  {
    hide Pick, Scheduled, MaxPriority;
    var z, one, two, three := Task(true, 15, 15), Task(true, 15, 1), Task(true, 35, 1), Task(true, 35, 35);
    var s2 := Done(Done(s, Fork(3)), Nice(34));
    assert Only4(s2, 2, z, one, two, three);
    Picks4(s2, 2, z, one, two, three, 3);
    var s3 := Done(s2, Yield);
    var asleep := s3.(task := s3.task[3 := Task(false, 35, 35)]);
    assert Only4(asleep, 3, z, one, two, Task(false, 35, 35));
    Picks4(asleep, 3, z, one, two, Task(false, 35, 35), 2);
    var s4 := Done(s3, Sleep);
    var gone := s4.(task := s4.task[3 := Empty]);
    assert Only4(gone, 2, z, one, two, Empty);
    Picks4(gone, 2, z, one, two, Empty, 2);
    MaxPriorityIs(s4.task);
    MaxPriorityIs(Done(s4, Release(3)).task);
    assert s4.task[3].priority <= MaxPriority(s4.task);
    assert Done(s4, Release(3)).task[2].counter == 35 && MaxPriority(Done(s4, Release(3)).task) <= 15;
  }
}
