/** The read-write lock built from a mutex and two condition variables, for any number of threads. */
module RwLock {
  /** Where a thread is; a woken thread has been signalled but does not have the mutex yet. */
  datatype Phase = Idle | HoldR | HoldW | SleepR | WokenR | SleepW | WokenW

  /** rw_refcount, rw_nwaitreaders, rw_nwaitwriters and the threads. */
  datatype State = State(ref: int, readers: int, writers: int, ts: seq<Phase>, dumped: bool)

  datatype Event =
    | RdLock(t: nat)
    | WrLock(t: nat)
    | TryRd(t: nat)
    | TryWr(t: nat)
    | Unlock(t: nat, u: nat)
    | GoR(t: nat)
    | GoW(t: nat)
    | Spurious(t: nat)
    | Fail(t: nat)

  function Set(s: State, t: nat, p: Phase): State
    requires t < |s.ts|
  {
    s.(ts := s.ts[t := p])
  }

  /** The test at the top of the loop in rdlock, and what follows it. */
  function Reader(s: State, t: nat): State
    requires t < |s.ts|
  {
    if s.ref < 0 || s.writers > 0 then Set(s, t, SleepR).(readers := s.readers + 1)
    else Set(s, t, HoldR).(ref := s.ref + 1)
  }

  function Writer(s: State, t: nat): State
    requires t < |s.ts|
  {
    if s.ref != 0 then Set(s, t, SleepW).(writers := s.writers + 1)
    else Set(s, t, HoldW).(ref := -1)
  }

  /** pthread_cond_broadcast on the readers' condition. */
  function WakeReaders(ts: seq<Phase>): (r: seq<Phase>)
    ensures |r| == |ts| && forall i :: 0 <= i < |ts| ==> r[i] == if ts[i] == SleepR then WokenR else ts[i]
  {
    if ts == [] then [] else WakeReaders(ts[..|ts| - 1]) + [if ts[|ts| - 1] == SleepR then WokenR else ts[|ts| - 1]]
  }

  /** pthread_cond_signal on the writers' condition: u is the sleeping writer it picks, if there is one. */
  function SignalWriter(ts: seq<Phase>, u: nat): seq<Phase> {
    if u < |ts| && ts[u] == SleepW then ts[u := WokenW] else ts
  }

  function Release(s: State, t: nat): State
    requires t < |s.ts|
  {
    var s1 := Set(s, t, Idle);
    if s.ref > 0 then s1.(ref := s.ref - 1) else if s.ref == -1 then s1.(ref := 0) else s1.(dumped := true)
  }

  /** Writers are preferred; readers are woken only when no writer waits. */
  function Pass(s: State, u: nat): State {
    if s.writers > 0 then (if s.ref == 0 then s.(ts := SignalWriter(s.ts, u)) else s)
    else if s.readers > 0 then s.(ts := WakeReaders(s.ts))
    else s
  }

  /** Each event is one stretch of code under the mutex; u is the writer a signal picks. */
  predicate Enabled(s: State, e: Event) {
    && e.t < |s.ts| && !s.dumped
    && match e
       case RdLock(t) => s.ts[t] == Idle
       case WrLock(t) => s.ts[t] == Idle
       case TryRd(t) => s.ts[t] == Idle
       case TryWr(t) => s.ts[t] == Idle
       case Unlock(t, u) => (s.ts[t] == HoldR || s.ts[t] == HoldW)
           && (SleepW in s.ts ==> u < |s.ts| && s.ts[u] == SleepW)
       case GoR(t) => s.ts[t] == WokenR
       case GoW(t) => s.ts[t] == WokenW
       case Spurious(t) => s.ts[t] == SleepR || s.ts[t] == SleepW
       case Fail(t) => s.ts[t] == WokenR || s.ts[t] == WokenW
  }

  function Next(s: State, e: Event): State
    requires Enabled(s, e)
  {
    match e
    case RdLock(t) => Reader(s, t)
    case WrLock(t) => Writer(s, t)
    case TryRd(t) => if s.ref < 0 || s.writers > 0 then s else Set(s, t, HoldR).(ref := s.ref + 1)
    case TryWr(t) => if s.ref != 0 then s else Set(s, t, HoldW).(ref := -1)
    case Unlock(t, u) => Pass(Release(s, t), u)
    case GoR(t) => Reader(s.(readers := s.readers - 1), t)
    case GoW(t) => Writer(s.(writers := s.writers - 1), t)
    case Spurious(t) => Set(s, t, if s.ts[t] == SleepR then WokenR else WokenW)
    case Fail(t) =>
      if s.ts[t] == WokenR then Set(s, t, Idle).(readers := s.readers - 1)
          else Set(s, t, Idle).(writers := s.writers - 1)
  }

  function Count(ts: seq<Phase>, p: Phase): nat {
    if ts == [] then 0 else Count(ts[..|ts| - 1], p) + (if ts[|ts| - 1] == p then 1 else 0)
  }

  /** How many threads are in phase p. */
  function N(s: State, p: Phase): nat {
    Count(s.ts, p)
  }

  /** The counters say who holds and who waits. */
  ghost predicate Counted(s: State) {
    && !s.dumped
    && s.readers == N(s, SleepR) + N(s, WokenR)
    && s.writers == N(s, SleepW) + N(s, WokenW)
    && (if s.ref == -1 then N(s, HoldW) == 1 && N(s, HoldR) == 0 else s.ref == N(s, HoldR) && N(s, HoldW) == 0)
  }

  /** Nobody is stranded. */
  ghost predicate NoneStranded(s: State) {
    && (N(s, SleepR) > 0 ==> s.ref == -1 || s.writers > 0)
    && (N(s, SleepW) > 0 && s.ref == 0 ==> N(s, WokenW) > 0)
  }

  ghost predicate Inv(s: State) {
    Counted(s) && NoneStranded(s)
  }

  lemma {:induction false} CountSet(ts: seq<Phase>, t: nat, p: Phase, q: Phase)
    requires t < |ts|
    ensures Count(ts[t := p], q) == Count(ts, q) - (if ts[t] == q then 1 else 0) + (if p == q then 1 else 0)
    ensures Count(ts, ts[t]) > 0
  {
    var n := |ts| - 1;
    if t < n {
      CountSet(ts[..n], t, p, q);
      assert ts[t := p][..n] == ts[..n][t := p];
    } else {
      assert ts[t := p][..n] == ts[..n];
    }
  }

  lemma {:induction false} CountZero(ts: seq<Phase>, q: Phase)
    ensures Count(ts, q) > 0 <==> q in ts
  {
    if ts != [] {
      CountZero(ts[..|ts| - 1], q);
      assert ts == ts[..|ts| - 1] + [ts[|ts| - 1]];
    }
  }

  lemma Swap(ts: seq<Phase>, t: nat, p: Phase)
    requires t < |ts|
    ensures Count(ts, ts[t]) > 0
    ensures forall q :: Count(ts[t := p], q) == Count(ts, q) - (if ts[t] == q then 1 else 0) + (if p == q then 1 else 0)
  {
    hide Count;
    forall q ensures Count(ts[t := p], q) == Count(ts, q) - (if ts[t] == q then 1 else 0) + (if p == q then 1 else 0) {
      CountSet(ts, t, p, q);
    }
    CountSet(ts, t, p, p);
  }

  lemma {:induction false} Broadcast(ts: seq<Phase>)
    ensures var r := WakeReaders(ts);
            && Count(r, SleepR) == 0 && Count(r, WokenR) == Count(ts, WokenR) + Count(ts, SleepR)
            && forall p :: p != SleepR && p != WokenR ==> Count(r, p) == Count(ts, p)
  {
    if ts != [] {
      var front := ts[..|ts| - 1];
      Broadcast(front);
      assert WakeReaders(ts)[..|ts| - 1] == WakeReaders(front);
    }
  }

  lemma Signal(ts: seq<Phase>, u: nat)
    requires SleepW in ts ==> u < |ts| && ts[u] == SleepW
    ensures var r := SignalWriter(ts, u);
            && (Count(ts, SleepW) > 0 ==>
                 Count(r, WokenW) == Count(ts, WokenW) + 1 && Count(r, SleepW) == Count(ts, SleepW) - 1)
            && (Count(ts, SleepW) == 0 ==> r == ts)
            && forall p :: p != SleepW && p != WokenW ==> Count(r, p) == Count(ts, p)
  {
    hide Count;
    CountZero(ts, SleepW);
    if SleepW in ts { Swap(ts, u, WokenW); }
  }

  /** A thread that holds the lock releases what rw_refcount counted for it. */
  lemma ReleaseCounts(s: State, t: nat)
    requires Counted(s) && t < |s.ts| && (s.ts[t] == HoldR || s.ts[t] == HoldW)
    ensures var r := Release(s, t);
            Counted(r) && r.ref >= 0 && (NoneStranded(s) && r.ref > 0 && N(r, SleepR) > 0 ==> r.writers > 0)
  {
    hide Count;
    Swap(s.ts, t, Idle);
  }

  /** unlock keeps the counts, and strands nobody. */
  lemma UnlockKeeps(s: State, e: Event)
    requires Counted(s) && Enabled(s, e) && e.Unlock?
    ensures Counted(Next(s, e)) && (NoneStranded(s) ==> NoneStranded(Next(s, e)))
  {
    ReleaseCounts(s, e.t);
    UnlockPicks(s, e);
    hide Count, Release, Pass, N;
    PassKeeps(Release(s, e.t), e.u);
  }

  /** After a release the right threads are woken. */
  lemma PassKeeps(s: State, u: nat)
    requires Counted(s) && s.ref >= 0 && (SleepW in s.ts ==> u < |s.ts| && s.ts[u] == SleepW)
    ensures Counted(Pass(s, u)) && ((s.ref > 0 && N(s, SleepR) > 0 ==> s.writers > 0) ==> NoneStranded(Pass(s, u)))
  {
    hide Count, SignalWriter, WakeReaders;
    if s.writers > 0 { Signal(s.ts, u); } else if s.readers > 0 { Broadcast(s.ts); }
  }

  lemma UnlockPicks(s: State, e: Event)
    requires Enabled(s, e) && e.Unlock?
    ensures var ts := Release(s, e.t).ts; SleepW in ts ==> e.u < |ts| && ts[e.u] == SleepW
  {
    var ts := Release(s, e.t).ts;
    if SleepW in ts {
      var i :| 0 <= i < |ts| && ts[i] == SleepW;
      assert s.ts[i] == SleepW;
    }
  }

  /** The counters are exact after every step, whether waits fail or not. */
  lemma StepCounts(s: State, e: Event)
    requires Counted(s) && Enabled(s, e)
    ensures Counted(Next(s, e))
  {
    hide Count, Pass, Release;
    if e.Unlock? {
      UnlockKeeps(s, e);
    } else {
      var p := Next(s, e).ts[e.t];
      Swap(s.ts, e.t, p);
      assert s.ts[e.t := s.ts[e.t]] == s.ts;
    }
  }

  /** Every step without a wait error keeps the lock's promises. */
  lemma StepKeeps(s: State, e: Event)
    requires Inv(s) && Enabled(s, e) && !e.Fail?
    ensures Inv(Next(s, e))
  {
    hide Count, Pass, Release;
    if e.Unlock? {
      UnlockKeeps(s, e);
    } else {
      var p := Next(s, e).ts[e.t];
      Swap(s.ts, e.t, p);
      assert s.ts[e.t := s.ts[e.t]] == s.ts;
    }
  }

  /**
   * A writer's wait fails while no writer holds the lock, and either it was the only one
   * woken for a lock that is free, with another asleep, or it was the only writer waiting,
   * with readers asleep behind it.
   */
  ghost predicate Strands(s: State, e: Event)
    requires Enabled(s, e)
  {
    && e.Fail? && s.ts[e.t] == WokenW
    && ((s.ref == 0 && N(s, WokenW) == 1 && N(s, SleepW) > 0) || (s.ref != -1 && s.writers == 1 && N(s, SleepR) > 0))
  }

  /** A failing wait strands somebody in exactly those cases. */
  lemma FailKeepsIff(s: State, e: Event)
    requires Inv(s) && Enabled(s, e) && e.Fail?
    ensures Inv(Next(s, e)) <==> !Strands(s, e)
  {
    hide Count;
    Swap(s.ts, e.t, Idle);
  }

  /**
   * Whoever sleeps, some thread can move the lock on: one that holds it can unlock it, or
   * it is free and a woken writer gets it.
   */
  lemma SomeoneCanGo(s: State)
    requires Inv(s) && N(s, SleepR) + N(s, SleepW) > 0
    ensures exists e :: Enabled(s, e) && (e.Unlock? || (e.GoW? && Next(s, e).ts[e.t] == HoldW))
  {
    forall p ensures N(s, p) > 0 <==> p in s.ts { CountZero(s.ts, p); }
    hide Count, N;
    if HoldR in s.ts || HoldW in s.ts {
      var t :| 0 <= t < |s.ts| && (s.ts[t] == HoldR || s.ts[t] == HoldW);
      var u := SleepingWriter(s.ts);
      assert Enabled(s, Unlock(t, u));
    } else {
      assert s.ref == 0;
      assert WokenW in s.ts;
      var t :| 0 <= t < |s.ts| && s.ts[t] == WokenW;
      assert Enabled(s, GoW(t)) && Next(s, GoW(t)).ts[t] == HoldW;
    }
  }

  /** The writer a signal picks. */
  ghost function SleepingWriter(ts: seq<Phase>): (u: nat)
    ensures SleepW in ts ==> u < |ts| && ts[u] == SleepW
  {
    if SleepW in ts then var i :| 0 <= i < |ts| && ts[i] == SleepW; i else 0
  }

  // ---------------------------------------------------------------- who gets the lock

  ghost predicate SomeoneIs(s: State, p: Phase) { p in s.ts }

  predicate WantsR(e: Event) { e.RdLock? || e.TryRd? || e.GoR? }

  predicate WantsW(e: Event) { e.WrLock? || e.TryWr? || e.GoW? }

  /** Counting threads is looking for them. */
  lemma CountedIs(s: State)
    requires Counted(s)
    ensures s.ref == 0 <==> !SomeoneIs(s, HoldR) && !SomeoneIs(s, HoldW)
    ensures s.ref < 0 <==> SomeoneIs(s, HoldW)
    ensures s.writers > 0 <==> SomeoneIs(s, SleepW) || SomeoneIs(s, WokenW)
    ensures s.readers > 0 <==> SomeoneIs(s, SleepR) || SomeoneIs(s, WokenR)
  {
    forall p ensures N(s, p) > 0 <==> SomeoneIs(s, p) { CountZero(s.ts, p); }
    hide Count, N, SomeoneIs;
  }

  /** A reader gets the lock exactly when no writer has it and none waits for it; else it waits, or is told busy. */
  lemma ReaderGetsItIff(s: State, e: Event)
    requires Counted(s) && Enabled(s, e) && WantsR(e)
    ensures var s' := Next(s, e);
            && |s'.ts| == |s.ts|
            && (s'.ts[e.t] == HoldR <==>
               !SomeoneIs(s, HoldW) && !SomeoneIs(s, SleepW) && !SomeoneIs(s, WokenW))
            && (s'.ts[e.t] != HoldR ==> if e.TryRd? then s' == s else s'.ts[e.t] == SleepR)
            && forall i :: 0 <= i < |s.ts| && i != e.t ==> s'.ts[i] == s.ts[i]
  {
    hide Count, SomeoneIs;
    CountedIs(s);
  }

  /** A writer gets the lock exactly when nobody has it; else it waits, or is told busy. */
  lemma WriterGetsItIff(s: State, e: Event)
    requires Counted(s) && Enabled(s, e) && WantsW(e)
    ensures var s' := Next(s, e);
            && |s'.ts| == |s.ts|
            && (s'.ts[e.t] == HoldW <==> !SomeoneIs(s, HoldR) && !SomeoneIs(s, HoldW))
            && (s'.ts[e.t] != HoldW ==> if e.TryWr? then s' == s else s'.ts[e.t] == SleepW)
            && forall i :: 0 <= i < |s.ts| && i != e.t ==> s'.ts[i] == s.ts[i]
  {
    hide Count, SomeoneIs;
    CountedIs(s);
  }

  /**
   * Who is woken by unlock: while a writer waits no reader, and a writer, the one picked,
   * only when nobody holds the lock any more; while none waits, all sleeping readers.
   */
  lemma UnlockWakes(s: State, e: Event)
    requires Counted(s) && Enabled(s, e) && e.Unlock?
    ensures var s' := Next(s, e); var waiting := SomeoneIs(s, SleepW) || SomeoneIs(s, WokenW);
            && |s'.ts| == |s.ts| && s'.ts[e.t] == Idle
            && forall i :: 0 <= i < |s.ts| && i != e.t ==>
               s'.ts[i] == if !waiting && s.ts[i] == SleepR then WokenR
                           else if i == e.u && s.ts[i] == SleepW && !Held(s') then WokenW else s.ts[i]
  {
    hide Count;
    CountedIs(s);
    ReleaseCounts(s, e.t);
    CountedIs(Release(s, e.t));
    StepCounts(s, e);
    CountedIs(Next(s, e));
    assert Next(s, e).ref == Release(s, e.t).ref;
  }

  ghost predicate Held(s: State) { SomeoneIs(s, HoldR) || SomeoneIs(s, HoldW) }

  /** No step made while a writer waits lets a reader in. */
  lemma NoReaderOvertakes(s: State, e: Event, i: nat)
    requires Counted(s) && Enabled(s, e) && (SomeoneIs(s, SleepW) || SomeoneIs(s, WokenW)) && i < |s.ts|
    ensures |Next(s, e).ts| == |s.ts| && (Next(s, e).ts[i] == HoldR ==> s.ts[i] == HoldR)
  {
    hide Count, SomeoneIs, Next;
    if WantsR(e) { ReaderGetsItIff(s, e); }
    else if WantsW(e) { WriterGetsItIff(s, e); }
    else if e.Unlock? { UnlockWakes(s, e); }
    else { OtherSteps(s, e, i); }
  }

  lemma OtherSteps(s: State, e: Event, i: nat)
    requires Enabled(s, e) && (e.Spurious? || e.Fail?) && i < |s.ts|
    ensures |Next(s, e).ts| == |s.ts| && (Next(s, e).ts[i] == HoldR ==> s.ts[i] == HoldR)
  {
  }

  // ---------------------------------------------------------------- the code under the mutex

  /** pthread_rwlock_t.  The phases of the threads stand for the two condition variables. */
  class Lock {
    var refcount: int
    var nwaitreaders: int
    var nwaitwriters: int
    var dumped: bool
    ghost var ts: seq<Phase>

    ghost function Abs(): State
      reads this
    {
      State(refcount, nwaitreaders, nwaitwriters, ts, dumped)
    }

    constructor (ghost n: nat)
      ensures Abs() == Fresh(n) && Inv(Abs())
    {
      refcount, nwaitreaders, nwaitwriters, dumped := 0, 0, 0, false;
      ts := Fresh(n).ts;
      new;
      FreshIsFine(n);
    }

    /** rdlock from the test of its loop to the lock or to the wait; woken says that a wait has just ended. */
    method ReadTurn(ghost t: nat, woken: bool) returns (waits: bool)
      requires Inv(Abs()) && t < |ts| && ts[t] == if woken then WokenR else Idle
      modifies this
      ensures Inv(Abs()) && Abs() == Next(old(Abs()), if woken then GoR(t) else RdLock(t))
      ensures waits <==> old(refcount) < 0 || old(nwaitwriters) > 0
      ensures ts == old(ts)[t := if waits then SleepR else HoldR]
      ensures refcount == old(refcount) + (if waits then 0 else 1) && nwaitwriters == old(nwaitwriters)
      ensures nwaitreaders == old(nwaitreaders) - (if woken then 1 else 0) + (if waits then 1 else 0)
    {
      hide Count, NoneStranded;
      StepKeeps(Abs(), if woken then GoR(t) else RdLock(t));
      if woken { nwaitreaders := nwaitreaders - 1; }
      waits := refcount < 0 || nwaitwriters > 0;
      if waits {
        nwaitreaders := nwaitreaders + 1;
        ts := ts[t := SleepR];
      } else {
        refcount := refcount + 1;
        ts := ts[t := HoldR];
      }
    }

    method WriteTurn(ghost t: nat, woken: bool) returns (waits: bool)
      requires Inv(Abs()) && t < |ts| && ts[t] == if woken then WokenW else Idle
      modifies this
      ensures Inv(Abs()) && Abs() == Next(old(Abs()), if woken then GoW(t) else WrLock(t))
      ensures waits <==> old(refcount) != 0
      ensures ts == old(ts)[t := if waits then SleepW else HoldW]
      ensures refcount == (if waits then old(refcount) else -1) && nwaitreaders == old(nwaitreaders)
      ensures nwaitwriters == old(nwaitwriters) - (if woken then 1 else 0) + (if waits then 1 else 0)
    {
      hide Count, NoneStranded;
      StepKeeps(Abs(), if woken then GoW(t) else WrLock(t));
      if woken { nwaitwriters := nwaitwriters - 1; }
      waits := refcount != 0;
      if waits {
        nwaitwriters := nwaitwriters + 1;
        ts := ts[t := SleepW];
      } else {
        refcount := -1;
        ts := ts[t := HoldW];
      }
    }

    method TryReadLock(ghost t: nat) returns (busy: bool)
      requires Inv(Abs()) && t < |ts| && ts[t] == Idle
      modifies this
      ensures Inv(Abs()) && Abs() == Next(old(Abs()), TryRd(t)) && busy == (old(refcount) < 0 || old(nwaitwriters) > 0)
      ensures if busy then Abs() == old(Abs())
              else ts == old(ts)[t := HoldR] && refcount == old(refcount) + 1
                   && nwaitreaders == old(nwaitreaders) && nwaitwriters == old(nwaitwriters)
    {
      hide Count, NoneStranded;
      StepKeeps(Abs(), TryRd(t));
      busy := refcount < 0 || nwaitwriters > 0;
      if !busy {
        refcount := refcount + 1;
        ts := ts[t := HoldR];
      }
    }

    method TryWriteLock(ghost t: nat) returns (busy: bool)
      requires Inv(Abs()) && t < |ts| && ts[t] == Idle
      modifies this
      ensures Inv(Abs()) && Abs() == Next(old(Abs()), TryWr(t)) && busy == (old(refcount) != 0)
      ensures if busy then Abs() == old(Abs())
              else ts == old(ts)[t := HoldW] && refcount == -1
                   && nwaitreaders == old(nwaitreaders) && nwaitwriters == old(nwaitwriters)
    {
      hide Count, NoneStranded;
      StepKeeps(Abs(), TryWr(t));
      busy := refcount != 0;
      if !busy {
        refcount := -1;
        ts := ts[t := HoldW];
      }
    }

    /** unlock by a holder; u is the sleeping writer a signal would pick. */
    method Release(ghost t: nat, ghost u: nat)
      requires Inv(Abs()) && Enabled(Abs(), Unlock(t, u))
      modifies this
      ensures Inv(Abs()) && Abs() == Next(old(Abs()), Unlock(t, u))
    {
      hide Count, NoneStranded, WakeReaders, SignalWriter;
      StepKeeps(Abs(), Unlock(t, u));
      ts := ts[t := Idle];
      dumped := dumped || (refcount <= 0 && refcount != -1);
      if refcount > 0 { refcount := refcount - 1; } else if refcount == -1 { refcount := 0; }
      if nwaitwriters > 0 {
        if refcount == 0 { ts := SignalWriter(ts, u); }
      } else if nwaitreaders > 0 {
        ts := WakeReaders(ts);
      }
    }
  }

  // ---------------------------------------------------------------- whole runs

  ghost predicate Runs(s: State, es: seq<Event>)
    decreases |es|
  {
    es == [] || (Enabled(s, es[0]) && Runs(Next(s, es[0]), es[1..]))
  }

  function After(s: State, es: seq<Event>): State
    requires Runs(s, es)
    decreases |es|
  {
    if es == [] then s else After(Next(s, es[0]), es[1..])
  }

  /** No wait fails at a moment when that strands somebody. */
  ghost predicate Safe(s: State, es: seq<Event>)
    requires Runs(s, es)
    decreases |es|
  {
    es == [] || (!Strands(s, es[0]) && Safe(Next(s, es[0]), es[1..]))
  }

  lemma {:induction false} RunKeeps(s: State, es: seq<Event>)
    requires Inv(s) && Runs(s, es) && Safe(s, es)
    ensures Inv(After(s, es))
    decreases |es|
  {
    hide Counted, NoneStranded, Strands;
    if es != [] {
      if es[0].Fail? { FailKeepsIff(s, es[0]); } else { StepKeeps(s, es[0]); }
      RunKeeps(Next(s, es[0]), es[1..]);
    }
  }

  lemma {:induction false} RunCounts(s: State, es: seq<Event>)
    requires Counted(s) && Runs(s, es)
    ensures Counted(After(s, es))
    decreases |es|
  {
    hide Counted;
    if es != [] {
      StepCounts(s, es[0]);
      RunCounts(Next(s, es[0]), es[1..]);
    }
  }

  /**
   * In every run from a new lock, failing waits included: a writer excludes everybody
   * else, and the counters are exact.
   */
  lemma MutualExclusion(n: nat, es: seq<Event>)
    requires Runs(Fresh(n), es)
    ensures var s := After(Fresh(n), es);
            && Counted(s) && (s.ref == -1 <==> N(s, HoldW) == 1) && N(s, HoldW) <= 1
            && (N(s, HoldW) == 1 ==> N(s, HoldR) == 0) && (s.ref != -1 ==> s.ref == N(s, HoldR))
  {
    FreshIsFine(n);
    RunCounts(Fresh(n), es);
  }

  /** Thread w waits to write before every step. */
  ghost predicate Waiting(s: State, es: seq<Event>, w: nat)
    requires Runs(s, es)
    decreases |es|
  {
    es == [] || (w < |s.ts| && (s.ts[w] == SleepW || s.ts[w] == WokenW) && Waiting(Next(s, es[0]), es[1..], w))
  }

  /** In every run, for as long as some writer waits, the threads that hold read locks only get fewer. */
  lemma {:induction false} WritersArePreferred(s: State, es: seq<Event>, w: nat, i: nat)
    requires Counted(s) && Runs(s, es) && Waiting(s, es, w) && i < |s.ts|
    ensures |After(s, es).ts| == |s.ts| && (After(s, es).ts[i] == HoldR ==> s.ts[i] == HoldR)
    decreases |es|
  {
    hide Counted, Next;
    if es != [] {
      StepCounts(s, es[0]);
      NoReaderOvertakes(s, es[0], i);
      WritersArePreferred(Next(s, es[0]), es[1..], w, i);
    }
  }

  /** So it is from a new lock on, at any moment of any run. */
  lemma WritersArePreferredAlways(n: nat, before: seq<Event>, es: seq<Event>, w: nat, i: nat)
    requires Runs(Fresh(n), before) && var s := After(Fresh(n), before); Runs(s, es) && Waiting(s, es, w) && i < |s.ts|
    ensures var s := After(Fresh(n), before);
            |After(s, es).ts| == |s.ts| && (After(s, es).ts[i] == HoldR ==> s.ts[i] == HoldR)
  {
    hide Counted, NoneStranded;
    FreshIsFine(n);
    RunCounts(Fresh(n), before);
    WritersArePreferred(After(Fresh(n), before), es, w, i);
  }

  function Fresh(n: nat): State {
    State(0, 0, 0, seq(n, _ => Idle), false)
  }

  lemma FreshIsFine(n: nat)
    ensures Inv(Fresh(n))
  {
    var ts := Fresh(n).ts;
    hide Count;
    forall p | p != Idle ensures Count(ts, p) == 0 { CountZero(ts, p); }
  }

  // ---------------------------------------------------------------- a run that strands a writer

  /**
   * From a new lock: thread 0 takes it, 1 and 2 wait to write, 0 unlocks and 1 is
   * signalled.  If the wait of 1 fails, 2 sleeps on although the lock is free.
   */
  lemma FailureStrands()
    ensures var es := [WrLock(0), WrLock(1), WrLock(2), Unlock(0, 1)];
            && Runs(Fresh(3), es) && Safe(Fresh(3), es) && var s := After(Fresh(3), es);
            && Inv(s) && Enabled(s, Fail(1)) && var s' := Next(s, Fail(1));
            && Three(s', 0, 1, Idle, Idle, SleepW) && !NoneStranded(s')
  {
    hide Count, N, Strands, Next, Enabled, Runs, After, Safe, NoneStranded, Counted;
    var s0 := Fresh(3);
    assert Three(s0, 0, 0, Idle, Idle, Idle);
    Takes(s0);
    var s1 := Next(s0, WrLock(0));
    Waits(s1, 1, Idle);
    var s2 := Next(s1, WrLock(1));
    Waits(s2, 2, SleepW);
    var s3 := Next(s2, WrLock(2));
    Passes(s3);
    var s4 := Next(s3, Unlock(0, 1));
    FourSteps(s0, s1, s2, s3, WrLock(0), WrLock(1), WrLock(2), Unlock(0, 1));
    FreshIsFine(3);
    RunKeeps(s0, [WrLock(0), WrLock(1), WrLock(2), Unlock(0, 1)]);
    Fails(s4);
  }

  /** Nobody waits to read; threads 0, 1 and 2 are in phases a, b and c. */
  ghost predicate Three(s: State, ref: int, writers: int, a: Phase, b: Phase, c: Phase) {
    s.ref == ref && s.readers == 0 && s.writers == writers && !s.dumped && |s.ts| == 3 && s.ts[0] == a && s.ts[1] == b
        && s.ts[2] == c
  }

  lemma Takes(s: State)
    requires Three(s, 0, 0, Idle, Idle, Idle)
    ensures Enabled(s, WrLock(0)) && Three(Next(s, WrLock(0)), -1, 0, HoldW, Idle, Idle)
  {
  }

  lemma Waits(s: State, t: nat, b: Phase)
    requires 1 <= t <= 2 && Three(s, -1, t - 1, HoldW, b, Idle) && b == if t == 1 then Idle else SleepW
    ensures Enabled(s, WrLock(t)) && Three(Next(s, WrLock(t)), -1, t, HoldW, SleepW, if t == 1 then Idle else SleepW)
  {
  }

  lemma Passes(s: State)
    requires Three(s, -1, 2, HoldW, SleepW, SleepW)
    ensures Enabled(s, Unlock(0, 1)) && Three(Next(s, Unlock(0, 1)), 0, 2, Idle, WokenW, SleepW)
  {
  }

  lemma Fails(s: State)
    requires Three(s, 0, 2, Idle, WokenW, SleepW)
    ensures Enabled(s, Fail(1)) && Three(Next(s, Fail(1)), 0, 1, Idle, Idle, SleepW) && !NoneStranded(Next(s, Fail(1)))
  {
    hide Count;
    var s' := Next(s, Fail(1));
    assert s'.ts[2] == SleepW;
    CountZero(s'.ts, SleepW);
    CountZero(s'.ts, WokenW);
    Stranded(s');
  }

  lemma Stranded(s: State)
    requires s.ref == 0 && Count(s.ts, SleepW) > 0 && Count(s.ts, WokenW) == 0
    ensures !NoneStranded(s)
  {
    hide Count;
  }

  /** Four steps, none of them a failing wait. */
  lemma FourSteps(s: State, s1: State, s2: State, s3: State, a: Event, b: Event, c: Event, d: Event)
    requires Enabled(s, a) && s1 == Next(s, a) && Enabled(s1, b) && s2 == Next(s1, b)
    requires Enabled(s2, c) && s3 == Next(s2, c) && Enabled(s3, d) && !a.Fail? && !b.Fail? && !c.Fail? && !d.Fail?
    ensures var es := [a, b, c, d]; Runs(s, es) && Safe(s, es) && After(s, es) == Next(s3, d)
  {
    hide Enabled, Next, Count;
    OneStep(s3, d, []);
    OneStep(s2, c, [d] + []);
    OneStep(s1, b, [c] + ([d] + []));
    OneStep(s, a, [b] + ([c] + ([d] + [])));
    assert [a] + ([b] + ([c] + ([d] + []))) == [a, b, c, d];
  }

  lemma OneStep(s: State, e: Event, es: seq<Event>)
    requires Enabled(s, e) && !e.Fail? && Runs(Next(s, e), es) && Safe(Next(s, e), es)
    ensures Runs(s, [e] + es) && Safe(s, [e] + es) && After(s, [e] + es) == After(Next(s, e), es)
  {
    hide Enabled, Next, Count;
    assert ([e] + es)[1..] == es;
  }
}
