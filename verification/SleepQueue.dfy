/** sleep_on and wake_up on one wait queue: a list kept in the sleepers' own stack frames. */
module SleepQueue {
  const NIL: int := -1

  /**
   * A task outside sleep_on, or inside it with its saved tmp.  Since and stamp are
   * history: the number of wake_up calls and of sleep_on calls before this one.
   */
  datatype Task = Out | In(asleep: bool, tmp: int, since: nat, stamp: nat)

  /** The queue head and all tasks; wakes and clock count calls of wake_up and sleep_on. */
  datatype State = State(head: int, ts: seq<Task>, wakes: nat, clock: nat, panicked: bool)

  datatype Event = Sleep(t: nat) | Wake | Resume(t: nat)

  /** Resume is a woken task going on behind the schedule call in sleep_on. */
  predicate Enabled(s: State, e: Event) {
    !s.panicked && match e
    case Sleep(t) => t < |s.ts| && s.ts[t].Out?
    case Wake => s.head == NIL || 0 <= s.head < |s.ts|
    case Resume(t) => t < |s.ts| && s.ts[t].In? && !s.ts[t].asleep && (s.ts[t].tmp == NIL || 0 <= s.ts[t].tmp < |s.ts|)
  }

  /** state = 0. */
  function Rouse(ts: seq<Task>, x: int): (r: seq<Task>)
    requires x == NIL || 0 <= x < |ts|
    ensures |r| == |ts|
  {
    if x != NIL && ts[x].In? then ts[x := ts[x].(asleep := false)] else ts
  }

  function Next(s: State, e: Event): State
    requires Enabled(s, e)
  {
    match e
    case Sleep(t) =>
      if t == 0 then s.(panicked := true)
      else State(t, s.ts[t := In(true, s.head, s.wakes, s.clock)], s.wakes, s.clock + 1, false)
    case Wake => State(NIL, Rouse(s.ts, s.head), s.wakes + 1, s.clock, false)
    case Resume(t) => s.(ts := Rouse(s.ts[t := Out], s.ts[t].tmp))
  }

  predicate Asleep(s: State, x: int) {
    0 <= x < |s.ts| && s.ts[x].In? && s.ts[x].asleep
  }

  predicate Saves(s: State, y: int, x: int) {
    0 <= y < |s.ts| && s.ts[y].In? && s.ts[y].tmp == x
  }

  /** A name, the head or a saved tmp, is that of a task asleep. */
  ghost predicate NamesSleep(s: State) {
    && (s.head != NIL ==> Asleep(s, s.head) && s.ts[s.head].since == s.wakes)
    && (forall y, x :: Saves(s, y, x) && x != NIL ==>
       Asleep(s, x) && s.ts[x].since == s.ts[y].since && s.ts[x].stamp < s.ts[y].stamp)
    && (forall y :: 0 <= y < |s.ts| && s.ts[y].In? ==> s.ts[y].stamp < s.clock && s.ts[y].since <= s.wakes)
  }

  /** No task is named twice. */
  ghost predicate NamedOnce(s: State) {
    && (forall y :: Saves(s, y, s.head) ==> s.head == NIL)
    && (forall y, z, x :: Saves(s, y, x) && Saves(s, z, x) && x != NIL ==> y == z)
  }

  /** Every sleeper is named. */
  ghost predicate Found(s: State) {
    forall x :: Asleep(s, x) ==> x == s.head || SavedBySome(s, x)
  }

  ghost predicate SavedBySome(s: State, x: int) {
    exists y :: Saves(s, y, x)
  }

  ghost predicate Inv(s: State) {
    (s.head == NIL || 0 <= s.head < |s.ts|) && NamesSleep(s) && NamedOnce(s) && Found(s)
  }

  lemma SleepKeeps(s: State, e: Event)
    requires Inv(s) && Enabled(s, e) && e.Sleep?
    ensures Inv(Next(s, e))
  {
    var s', t := Next(s, e), e.t;
    if t != 0 {
      forall y, x ensures Saves(s', y, x) <==> (y == t && x == s.head) || Saves(s, y, x) {}
      forall x ensures Asleep(s', x) <==> x == t || Asleep(s, x) {}
      forall x | Asleep(s', x) ensures x == s'.head || SavedBySome(s', x) {
        if x != t {
          if x == s.head { assert Saves(s', t, x); } else {
            assert SavedBySome(s, x);
            var y :| Saves(s, y, x);
            assert Saves(s', y, x);
          }
        }
      }
    } else {
      assert forall x :: Asleep(s', x) <==> Asleep(s, x);
      assert forall y, x :: Saves(s', y, x) <==> Saves(s, y, x);
      forall x | Asleep(s', x) ensures x == s'.head || SavedBySome(s', x) {
        if x != s.head { assert SavedBySome(s, x); var y :| Saves(s, y, x); assert Saves(s', y, x); }
      }
    }
  }

  lemma WakeKeeps(s: State)
    requires Inv(s) && Enabled(s, Wake)
    ensures Inv(Next(s, Wake))
  {
    var s' := Next(s, Wake);
    forall y, x ensures Saves(s', y, x) <==> Saves(s, y, x) {}
    forall x ensures Asleep(s', x) <==> Asleep(s, x) && x != s.head {}
    forall x | Asleep(s', x) ensures SavedBySome(s', x) {
      assert SavedBySome(s, x);
      var y :| Saves(s, y, x);
      assert Saves(s', y, x);
    }
  }

  lemma ResumeKeeps(s: State, e: Event)
    requires Inv(s) && Enabled(s, e) && e.Resume?
    ensures Inv(Next(s, e))
  {
    var s', t := Next(s, e), e.t;
    var named := s.ts[t].tmp;
    forall y, x ensures Saves(s', y, x) <==> Saves(s, y, x) && y != t {}
    assert Saves(s, t, named);
    forall x ensures Asleep(s', x) <==> Asleep(s, x) && x != named {}
    forall x | Asleep(s', x) ensures x == s'.head || SavedBySome(s', x) {
      if x != s.head {
        assert SavedBySome(s, x);
        var y :| Saves(s, y, x);
        assert Saves(s', y, x);
      }
    }
  }

  lemma StepKeeps(s: State, e: Event)
    requires Inv(s) && Enabled(s, e)
    ensures Inv(Next(s, e))
  {
    match e
    case Sleep(t) => SleepKeeps(s, e);
    case Wake => WakeKeeps(s);
    case Resume(t) => ResumeKeeps(s, e);
  }

  /** Each sleeping task is named by exactly one holder: the head, or one saved tmp. */
  lemma ExactlyOneHolder(s: State, x: int)
    requires Inv(s) && Asleep(s, x)
    ensures (x == s.head) != SavedBySome(s, x)
    ensures forall y, z :: Saves(s, y, x) && Saves(s, z, x) ==> y == z
  {
    if SavedBySome(s, x) { var y :| Saves(s, y, x); }
  }

  ghost predicate NoneWoken(s: State) {
    forall t :: 0 <= t < |s.ts| && s.ts[t].In? ==> s.ts[t].asleep
  }

  /**
   * Once every woken task has gone on, whoever still sleeps went to sleep after the
   * last wake_up: nobody who slept at that moment was forgotten.
   */
  lemma {:induction false} NobodyForgotten(s: State, x: int)
    requires Inv(s) && NoneWoken(s) && Asleep(s, x)
    ensures s.ts[x].since == s.wakes
    decreases s.clock - s.ts[x].stamp
  {
    if x != s.head {
      assert SavedBySome(s, x);
      var y :| Saves(s, y, x);
      NobodyForgotten(s, y);
    }
  }

  // ---------------------------------------------------------------- whole runs

  ghost predicate Runs(s: State, es: seq<Event>)
    decreases |es|
  {
    es == [] || (Enabled(s, es[0]) && Runs(Next(s, es[0]), es[1..]))
  }

  function After(s: State, es: seq<Event>): State
    requires Runs(s, es)
    decreases |es|
  {
    if es == [] then s else After(Next(s, es[0]), es[1..])
  }

  lemma {:induction false} RunKeeps(s: State, es: seq<Event>)
    requires Inv(s) && Runs(s, es)
    ensures Inv(After(s, es))
    decreases |es|
  {
    if es != [] {
      StepKeeps(s, es[0]);
      RunKeeps(Next(s, es[0]), es[1..]);
    }
  }

  /** Nobody is inside sleep_on. */
  lemma EmptyIsFine(s: State)
    requires s.head == NIL && forall t :: 0 <= t < |s.ts| ==> s.ts[t].Out?
    ensures Inv(s)
  {
  }

  /** x has not left the sleep it was in at s. */
  predicate StillAsleep(s: State, s': State, x: int) {
    Asleep(s, x) && Asleep(s', x) && s'.ts[x].stamp == s.ts[x].stamp
  }

  /** A task that is still asleep entered that sleep when it did before. */
  lemma {:induction false} SinceStays(s: State, es: seq<Event>, x: int)
    requires Inv(s) && Runs(s, es) && Asleep(s, x) && Asleep(After(s, es), x)
             && After(s, es).ts[x].stamp == s.ts[x].stamp
    ensures After(s, es).ts[x].since == s.ts[x].since
    decreases |es|
  {
    if es != [] {
      var s1 := Next(s, es[0]);
      StepKeeps(s, es[0]);
      if Asleep(s1, x) && s1.ts[x].stamp == s.ts[x].stamp {
        SinceStays(s1, es[1..], x);
      } else {
        StampsRise(s1, es[1..], x, s.ts[x].stamp);
      }
    }
  }

  /** A sleep once left is never entered again: later stamps are larger. */
  lemma {:induction false} StampsRise(s: State, es: seq<Event>, x: int, stamp: nat)
    requires Inv(s) && Runs(s, es) && stamp < s.clock && (Asleep(s, x) ==> s.ts[x].stamp != stamp)
    ensures Asleep(After(s, es), x) ==> After(s, es).ts[x].stamp != stamp
    decreases |es|
  {
    if es != [] {
      StepKeeps(s, es[0]);
      StampsRise(Next(s, es[0]), es[1..], x, stamp);
    }
  }

  /** wake_up counts. */
  lemma {:induction false} WakesGrow(s: State, es: seq<Event>)
    requires Runs(s, es)
    ensures After(s, es).wakes >= s.wakes
    decreases |es|
  {
    if es != [] { WakesGrow(Next(s, es[0]), es[1..]); }
  }

  /**
   * One wake_up, and then any run at whose end every woken task has gone on: nobody who
   * was asleep at the wake_up is still in that sleep.
   */
  lemma WakeReachesAll(s: State, es: seq<Event>, x: int)
    requires Inv(s) && Enabled(s, Wake) && Runs(Next(s, Wake), es) && NoneWoken(After(Next(s, Wake), es))
             && Asleep(s, x)
    ensures !StillAsleep(s, After(Next(s, Wake), es), x)
  {
    var s1 := Next(s, Wake);
    StepKeeps(s, Wake);
    RunKeeps(s1, es);
    WakesGrow(s1, es);
    var s2 := After(s1, es);
    if Asleep(s2, x) {
      NobodyForgotten(s2, x);
      if s2.ts[x].stamp == s.ts[x].stamp {
        if Asleep(s1, x) { SinceStays(s1, es, x); } else { StampsRise(s1, es, x, s.ts[x].stamp); }
      }
    }
  }

  /** So it is in every run from a queue nobody waits on. */
  lemma WakeReachesAllFromStart(s: State, before: seq<Event>, after: seq<Event>, x: int)
    requires s.head == NIL && forall t :: 0 <= t < |s.ts| ==> s.ts[t].Out?
    requires Runs(s, before) && Enabled(After(s, before), Wake) && Asleep(After(s, before), x)
    requires Runs(Next(After(s, before), Wake), after) && NoneWoken(After(Next(After(s, before), Wake), after))
    ensures !StillAsleep(After(s, before), After(Next(After(s, before), Wake), after), x)
  {
    EmptyIsFine(s);
    hide Inv;
    RunKeeps(s, before);
    WakeReachesAll(After(s, before), after, x);
  }

  function Inside(ts: seq<Task>): nat {
    if ts == [] then 0 else Inside(ts[..|ts| - 1]) + (if ts[|ts| - 1].In? then 1 else 0)
  }

  lemma {:induction false} InsideSet(ts: seq<Task>, t: nat, v: Task)
    requires t < |ts|
    ensures Inside(ts[t := v]) == Inside(ts) - (if ts[t].In? then 1 else 0) + (if v.In? then 1 else 0)
  {
    var n := |ts| - 1;
    if t < n {
      InsideSet(ts[..n], t, v);
      assert ts[t := v][..n] == ts[..n][t := v];
    } else {
      assert ts[t := v][..n] == ts[..n];
    }
  }

  /** Woken tasks run out: going on takes one task out of sleep_on each time. */
  lemma {:induction false} ResumesEnd(s: State, es: seq<Event>)
    requires Inv(s) && Runs(s, es) && forall i :: 0 <= i < |es| ==> es[i].Resume?
    ensures |es| <= Inside(s.ts)
    decreases |es|
  {
    if es != [] {
      var t := es[0].t;
      InsideSet(s.ts, t, Out);
      var ts1, tmp := s.ts[t := Out], s.ts[t].tmp;
      if tmp != NIL && ts1[tmp].In? { InsideSet(ts1, tmp, ts1[tmp].(asleep := false)); }
      StepKeeps(s, es[0]);
      ResumesEnd(Next(s, es[0]), es[1..]);
    }
  }
}
