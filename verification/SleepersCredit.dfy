/** What a task gains while it sleeps: every recharge halves what it lacks of twice its priority. */
module SleepersCredit {
  import opened Scheduler

  // ---------------------------------------------------------------- when an act recharges

  /** The act ends in schedule: a tick in user mode only when it takes the last of the counter. */
  predicate Schedules(s: State, a: Act)
    requires Can(s, a)
  {
    match a
    case Clock(user) => user && s.task[s.current].counter <= 1
    case Yield => true
    case Sleep => true
    case Release(_) => true
    case _ => false
  }

  /** The tasks as schedule finds them. */
  function Found(s: State, a: Act): (t: seq<Slot>)
    requires Can(s, a) && Schedules(s, a)
    ensures |t| == NR_TASKS
  {
    var me := s.task[s.current];
    match a
    case Clock(_) => s.task[s.current := Task(me.running, 0, me.priority)]
    case Sleep => s.task[s.current := Task(false, me.counter, me.priority)]
    case Release(j) => s.task[j := Empty]
    case _ => s.task
  }

  /** Some task can run, and those that can have nothing left. */
  ghost predicate Spent(t: seq<Slot>) {
    SomeRunnable(t, 1) && forall i :: 1 <= i < |t| && Runnable(t[i]) ==> t[i].counter == 0
  }

  ghost predicate Recharges(s: State, a: Act)
    requires Can(s, a)
  {
    Schedules(s, a) && Spent(Found(s, a))
  }

  ghost function Count(s: State, acts: seq<Act>): nat
    requires CanAll(s, acts)
    decreases |acts|
  {
    if acts == [] then 0 else (if Recharges(s, acts[0]) then 1 else 0) + Count(Done(s, acts[0]), acts[1..])
  }

  // ---------------------------------------------------------------- a task that sleeps

  ghost predicate Asleep(s: State, i: nat) {
    |s.task| == NR_TASKS && 0 < i < NR_TASKS && i != s.current && s.task[i].Task? && !s.task[i].running
  }

  predicate Disturbs(a: Act, i: nat) {
    (a.Wake? || a.Release?) && a.j == i
  }

  /** Nobody wakes or releases task i during the run. */
  ghost predicate SleepsThrough(s: State, acts: seq<Act>, i: nat)
    requires CanAll(s, acts)
  {
    Asleep(s, i) && forall k :: 0 <= k < |acts| ==> !Disturbs(acts[k], i)
  }

  lemma ScheduledAt(t: State, i: nat, bound: int)
    requires Within(t.task, bound) && 0 < i < NR_TASKS && t.task[i].Task?
    ensures var u := Scheduled(t); var c, p := t.task[i].counter, t.task[i].priority;
            |u.task| == NR_TASKS && u.task[i] == Task(t.task[i].running, if Spent(t.task) then c / 2 + p else c, p)
  {
    hide Pick;
    RechargeOnlyWhenSpent(t.task, bound);
  }

  lemma NotChosen(t: State, i: nat, bound: int)
    requires Within(t.task, bound) && 0 < i < NR_TASKS && t.task[i].Task? && !t.task[i].running
    ensures Scheduled(t).current != i
  {
    hide Pick;
    RechargeKeeps(t.task, bound);
    var u := if Pick(t.task, 1).c == 0 then Recharge(t.task) else t.task;
    PickIsBest(u, 1, bound);
  }

  lemma FoundIsScheduled(s: State, a: Act, bound: int)
    requires Can(s, a) && Schedules(s, a) && Within(s.task, bound)
    ensures Within(Found(s, a), bound) && Done(s, a) == Scheduled(State(Found(s, a), s.current))
  {
    hide Scheduled;
    var me := s.task[s.current];
    if a.Clock? { assert s.task[s.current := Ticked(me)] == Found(s, a); }
  }

  /** One act: a task asleep gets half its counter plus its priority if the act recharges, and stays as it is if not. */
  lemma SleepStep(s: State, a: Act, i: nat, bound: int)
    requires Can(s, a) && Within(s.task, bound) && Asleep(s, i) && !Disturbs(a, i)
    ensures var s', c, p := Done(s, a), s.task[i].counter, s.task[i].priority;
            Asleep(s', i) && s'.task[i] == Task(false, if Recharges(s, a) then c / 2 + p else c, p)
  {
    hide Scheduled, Spent, Within;
    if Schedules(s, a) {
      FoundIsScheduled(s, a, bound);
      var t := State(Found(s, a), s.current);
      assert t.task[i] == s.task[i];
      ScheduledAt(t, i, bound);
      NotChosen(t, i, bound);
    }
  }

  function Pow2(k: nat): (r: nat)
    ensures r > 0
  {
    if k == 0 then 1 else 2 * Pow2(k - 1)
  }

  /** g' is g divided by n, rounded up. */
  predicate Share(g: int, n: nat, g': int) {
    (g' - 1) * n < g <= g' * n
  }

  lemma ShareTwice(g: int, h: int, g': int, n: nat)
    requires Share(g, 2, h) && Share(h, n, g') && n > 0
    ensures Share(g, 2 * n, g')
  {
    assert g' * (2 * n) == 2 * (g' * n);
    assert (g' - 1) * (2 * n) == 2 * ((g' - 1) * n);
  }

  /**
   * Over every run that recharges k times, what a sleeping task lacks of twice its priority
   * is divided by two to the k, rounded up.
   */
  lemma {:induction false} GapHalves(s: State, acts: seq<Act>, i: nat, bound: int)
    requires Within(s.task, bound) && CanAll(s, acts) && SleepsThrough(s, acts, i)
    ensures var s', p := DoneAll(s, acts), s.task[i].priority;
            && Asleep(s', i) && s'.task[i].priority == p
            && Share(2 * p - s.task[i].counter, Pow2(Count(s, acts)), 2 * p - s'.task[i].counter)
    decreases |acts|
  {
    hide Done, Within, Recharges, Share;
    if acts == [] {
      ShareOne(2 * s.task[i].priority - s.task[i].counter);
    } else {
      var s1, c, p := Done(s, acts[0]), s.task[i].counter, s.task[i].priority;
      SleepStep(s, acts[0], i, bound);
      NextWithin(s, acts[0], bound);
      forall k | 0 <= k < |acts[1..]| ensures !Disturbs(acts[1..][k], i) { assert acts[1..][k] == acts[k + 1]; }
      GapHalves(s1, acts[1..], i, Max(bound, MaxPriority(s1.task)));
      if Recharges(s, acts[0]) {
        ShareHalf(c, p);
        ShareTwice(2 * p - c, 2 * p - s1.task[i].counter, 2 * p - DoneAll(s, acts).task[i].counter,
                   Pow2(Count(s1, acts[1..])));
      }
    }
  }

  lemma ShareOne(g: int)
    ensures Share(g, 1, g)
  {
  }

  lemma ShareHalf(c: int, p: int)
    ensures Share(2 * p - c, 2, 2 * p - (c / 2 + p))
  {
  }

  /**
   * So a sleeper's counter never falls while it is at most twice its priority, rises with
   * the first recharge while it is less than one below that, and gets there.
   */
  lemma SleeperGains(s: State, acts: seq<Act>, i: nat, bound: int)
    requires Within(s.task, bound) && CanAll(s, acts) && SleepsThrough(s, acts, i)
    requires s.task[i].counter <= 2 * s.task[i].priority
    ensures var s' := DoneAll(s, acts);
            Asleep(s', i) && var c, c', p, k := s.task[i].counter, s'.task[i].counter, s.task[i].priority,
                Count(s, acts);
            && c <= c' <= 2 * p && (k > 0 && c < 2 * p - 1 ==> c < c') && (k > 0 ==> c' >= p)
            && (Pow2(k) >= 2 * p ==> c' >= 2 * p - 1)
  {
    hide CanAll, DoneAll, Count, Share;
    GapHalves(s, acts, i, bound);
    GapShrinks(2 * s.task[i].priority - s.task[i].counter, Count(s, acts),
               2 * s.task[i].priority - DoneAll(s, acts).task[i].counter, s.task[i].priority);
  }

  /** After one recharge it has at least its priority, whatever it had before. */
  lemma SleeperHas(s: State, acts: seq<Act>, i: nat, bound: int)
    requires Within(s.task, bound) && CanAll(s, acts) && SleepsThrough(s, acts, i) && Count(s, acts) > 0
    ensures Asleep(DoneAll(s, acts), i) && DoneAll(s, acts).task[i].counter >= s.task[i].priority
  {
    hide CanAll, DoneAll, Count, Share;
    GapHalves(s, acts, i, bound);
    var p, n := s.task[i].priority, Pow2(Count(s, acts));
    assert n >= 2;
    Times(p, 2, n);
    ShareAtMost(2 * p - s.task[i].counter, n, 2 * p - DoneAll(s, acts).task[i].counter, p);
  }

  lemma GapShrinks(g: int, k: nat, g': int, p: int)
    requires 0 <= g <= 2 * p && Share(g, Pow2(k), g')
    ensures 0 <= g' <= g && (k > 0 && g > 1 ==> g' < g) && (k > 0 ==> g' <= p) && (Pow2(k) >= 2 * p ==> g' <= 1)
  {
    hide Share;
    var n := Pow2(k);
    NotNegative(g, n, g');
    Times(g, 1, n);
    ShareAtMost(g, n, g', g);
    if k > 0 {
      assert n >= 2;
      Times(p, 2, n);
      ShareAtMost(g, n, g', p);
      if g > 1 { Times(g - 1, 2, n); ShareAtMost(g, n, g', g - 1); }
    }
    if n >= 2 * p { ShareAtMost(g, n, g', 1); }
  }

  lemma Times(a: nat, b: nat, c: nat)
    requires b <= c
    ensures a * b <= a * c
  {
  }

  lemma NotNegative(g: int, n: nat, g': int)
    requires 0 <= g && n > 0 && Share(g, n, g')
    ensures g' >= 0
  {
    if g' < 0 { Times(n, 1, -g'); }
  }

  lemma ShareAtMost(g: int, n: nat, g': int, m: int)
    requires n > 0 && Share(g, n, g') && g <= m * n
    ensures g' <= m
  {
    if g' > m { Times(n, 0, g' - 1 - m); }
  }

  // ---------------------------------------------------------------- and why schedule then prefers it

  /** After a recharge a sleeper has more than a runnable task of its priority exactly if it had 2 left. */
  lemma FavouredIff(s: State, a: Act, i: nat, j: nat, bound: int)
    requires Can(s, a) && Within(s.task, bound) && Asleep(s, i) && !Disturbs(a, i) && Recharges(s, a)
    requires 0 < j < NR_TASKS && Runnable(Found(s, a)[j]) && Found(s, a)[j].priority == s.task[i].priority
    ensures var t := Done(s, a).task;
            && |t| == NR_TASKS && t[i].Task? && t[j].Task? && t[j].counter == t[j].priority == t[i].priority
            && (t[i].counter > t[j].counter <==> s.task[i].counter >= 2)
  {
    hide Scheduled, Within;
    SleepStep(s, a, i, bound);
    FoundIsScheduled(s, a, bound);
    ScheduledAt(State(Found(s, a), s.current), j, bound);
  }

  /**
   * A task of priority 2 or more sleeps through a run with at least one recharge; at the next
   * recharge some task j of its priority can run; then it is woken.  The next choice is not j.
   */
  lemma SleeperGoesFirst(s: State, acts: seq<Act>, a: Act, i: nat, j: nat, bound: int)
    requires Within(s.task, bound) && CanAll(s, acts) && SleepsThrough(s, acts, i) && Count(s, acts) > 0
    requires 2 <= s.task[i].priority
    requires Can(DoneAll(s, acts), a) && !Disturbs(a, i) && Recharges(DoneAll(s, acts), a)
    requires var t := Found(DoneAll(s, acts), a);
             0 < j < NR_TASKS && Runnable(t[j]) && t[j].priority == s.task[i].priority
    ensures var s2 := Done(DoneAll(s, acts), a); Can(s2, Wake(i)) && var s3 := Done(s2, Wake(i));
            Can(s3, Yield) && var s4 := Done(s3, Yield); s4.current != j && s4.task == s3.task
  {
    var s1 := DoneAll(s, acts);
    hide CanAll, DoneAll, Count, Within, Done, Recharges, SleepsThrough, Found;
    SleeperHas(s, acts, i, bound);
    GapHalves(s, acts, i, bound);
    var b := EndWithin(s, acts, bound);
    FavouredIff(s1, a, i, j, b);
    NextWithin(s1, a, b);
    SleepStep(s1, a, i, b);
    ScheduledAfter(s1, a, j, b);
    WokenIsChosen(Done(s1, a), i, j, Max(b, MaxPriority(Done(s1, a).task)));
  }

  lemma ScheduledAfter(s: State, a: Act, j: nat, bound: int)
    requires Can(s, a) && Within(s.task, bound) && Schedules(s, a) && 0 < j < NR_TASKS && Runnable(Found(s, a)[j])
    ensures |Done(s, a).task| == NR_TASKS && Runnable(Done(s, a).task[j])
  {
    hide Scheduled, Within;
    FoundIsScheduled(s, a, bound);
    ScheduledAt(State(Found(s, a), s.current), j, bound);
  }

  lemma EndWithin(s: State, acts: seq<Act>, bound: int) returns (b: int)
    requires Within(s.task, bound) && CanAll(s, acts)
    requires acts == [] ==> Shape(s)
    ensures Within(DoneAll(s, acts).task, b)
  {
    b := Max(bound, Peak(s, acts));
    EveryRunWithin(s, acts, bound);
  }

  lemma WokenIsChosen(s: State, i: nat, j: nat, bound: int)
    requires Shape(s) && Within(s.task, bound) && Asleep(s, i) && 0 < j < NR_TASKS && Runnable(s.task[j])
    requires s.task[i].counter > s.task[j].counter
    ensures Can(s, Wake(i)) && var s1 := Done(s, Wake(i));
            Can(s1, Yield) && Done(s1, Yield).current != j && Done(s1, Yield).task == s1.task
  {
    hide Pick;
    var s1 := Done(s, Wake(i));
    assert Within(s1.task, bound);
    PickIsBest(s1.task, 1, bound);
    assert Runnable(s1.task[i]);
  }
}
