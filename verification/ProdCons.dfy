/** Any number of producers and consumers around a ring of ten slots, statement by statement. */
module ProdCons {
  const NBUFF: nat := 10

  /** The statement a thread is about to execute. */
  datatype Pc =
    // produce
    | WaitEmpty | LockP | TestP | StoreP | IncPut | IncPutVal | UnlockP | PostStored
    | EndStored | EndEmpty | EndUnlockP | DoneP
    // consume
    | WaitStored | LockC | TestC | CheckC | IncGet | IncGetVal | UnlockC | PostEmpty
    | BackStored | EndUnlockC | DoneC

  /** shared, what the consumers found in the ring, and whether one of them reported an error. */
  datatype Shared = Shared(buff: seq<int>, nput: nat, nputval: int, nget: nat, ngetval: int,
                           mutex: nat, nempty: nat, nstored: nat, eaten: seq<int>, error: bool)

  datatype State = State(m: Shared, ts: seq<Pc>)

  /** A thread can execute its statement: a semaphore it waits for is positive. */
  predicate Ready(m: Shared, p: Pc) {
    |m.buff| == NBUFF &&
    match p
    case WaitEmpty => m.nempty > 0
    case LockP => m.mutex > 0
    case WaitStored => m.nstored > 0
    case LockC => m.mutex > 0
    case DoneP => false
    case DoneC => false
    case _ => true
  }

  /** What the statement does to the shared variables. */
  function Do(m: Shared, p: Pc): Shared
    requires Ready(m, p)
  {
    match p
    case WaitEmpty => m.(nempty := m.nempty - 1)
    case LockP => m.(mutex := m.mutex - 1)
    case TestP => m
    case StoreP => m.(buff := m.buff[m.nput % NBUFF := m.nputval])
    case IncPut => m.(nput := m.nput + 1)
    case IncPutVal => m.(nputval := m.nputval + 1)
    case UnlockP => m.(mutex := m.mutex + 1)
    case PostStored => m.(nstored := m.nstored + 1)
    case EndStored => m.(nstored := m.nstored + 1)
    case EndEmpty => m.(nempty := m.nempty + 1)
    case EndUnlockP => m.(mutex := m.mutex + 1)
    case WaitStored => m.(nstored := m.nstored - 1)
    case LockC => m.(mutex := m.mutex - 1)
    case TestC => m
    case CheckC => var v := m.buff[m.nget % NBUFF]; m.(eaten := m.eaten + [v], error := m.error || v != m.ngetval)
    case IncGet => m.(nget := m.nget + 1)
    case IncGetVal => m.(ngetval := m.ngetval + 1)
    case UnlockC => m.(mutex := m.mutex + 1)
    case PostEmpty => m.(nempty := m.nempty + 1)
    case BackStored => m.(nstored := m.nstored + 1)
    case EndUnlockC => m.(mutex := m.mutex + 1)
  }

  /** The statement that comes after p. */
  function Then(m: Shared, p: Pc, nitems: int): Pc {
    match p
    case WaitEmpty => LockP
    case LockP => TestP
    case TestP => if m.nput >= nitems then EndStored else StoreP
    case StoreP => IncPut
    case IncPut => IncPutVal
    case IncPutVal => UnlockP
    case UnlockP => PostStored
    case PostStored => WaitEmpty
    case EndStored => EndEmpty
    case EndEmpty => EndUnlockP
    case EndUnlockP => DoneP
    case DoneP => DoneP
    case WaitStored => LockC
    case LockC => TestC
    case TestC => if m.nget >= nitems then BackStored else CheckC
    case CheckC => IncGet
    case IncGet => IncGetVal
    case IncGetVal => UnlockC
    case UnlockC => PostEmpty
    case PostEmpty => WaitStored
    case BackStored => EndUnlockC
    case EndUnlockC => DoneC
    case DoneC => DoneC
  }

  predicate Enabled(s: State, t: nat) {
    t < |s.ts| && Ready(s.m, s.ts[t])
  }

  function Next(s: State, t: nat, nitems: int): State
    requires Enabled(s, t)
  {
    State(Do(s.m, s.ts[t]), s.ts[t := Then(s.m, s.ts[t], nitems)])
  }

  // ---------------------------------------------------------------- sums over threads

  /** What to add up over all threads. */
  datatype Weight =
    | Inside        // holds the mutex
    | EmptyTaken    // holds an empty slot that it has not counted as filled
    | EmptyOwed     // has emptied a slot and not yet said so
    | StoredOwed    // has filled a slot and not yet said so
    | StoredTaken   // holds a stored item that it has not counted as fetched
    | Extra         // has made the extra post of a finished producer
    | Filling       // between the store and nput++
    | Putting       // past the test for more items to put
    | PutDone       // has seen that all items are put
    | Getting       // past the test for more items to get
    | GetDone       // has seen that all items are fetched
    | BeforePutVal  // between nput++ and nputval++
    | BeforeGetVal
    | Fetched       // between the check and nget++
    | Rank          // how far from its end

  predicate IsInside(p: Pc) {
    p.TestP? || p.StoreP? || p.IncPut? || p.IncPutVal? || p.UnlockP? || p.EndStored? || p.EndEmpty? || p.EndUnlockP?
        || p.TestC? || p.CheckC? || p.IncGet? || p.IncGetVal? || p.UnlockC? || p.BackStored? || p.EndUnlockC?
  }

  predicate IsEmptyTaken(p: Pc) {
    p.LockP? || p.TestP? || p.StoreP? || p.IncPut? || p.EndStored? || p.EndEmpty?
  }

  predicate IsEmptyOwed(p: Pc) {
    p.IncGetVal? || p.UnlockC? || p.PostEmpty?
  }

  predicate IsStoredOwed(p: Pc) {
    p.IncPutVal? || p.UnlockP? || p.PostStored?
  }

  predicate IsStoredTaken(p: Pc) {
    p.LockC? || p.TestC? || p.CheckC? || p.IncGet? || p.BackStored?
  }

  predicate IsExtra(p: Pc) {
    p.EndEmpty? || p.EndUnlockP? || p.DoneP?
  }

  predicate IsFilling(p: Pc) {
    p.IncPut?
  }

  predicate IsPutting(p: Pc) {
    p.StoreP? || p.IncPut?
  }

  predicate IsPutDone(p: Pc) {
    p.EndStored? || p.EndEmpty? || p.EndUnlockP? || p.DoneP?
  }

  predicate IsGetting(p: Pc) {
    p.CheckC? || p.IncGet?
  }

  predicate IsGetDone(p: Pc) {
    p.BackStored? || p.EndUnlockC? || p.DoneC?
  }

  predicate IsBeforePutVal(p: Pc) {
    p.IncPutVal?
  }

  predicate IsBeforeGetVal(p: Pc) {
    p.IncGetVal?
  }

  predicate IsFetched(p: Pc) {
    p.IncGet?
  }

  function Weigh(w: Weight, p: Pc): nat {
    match w
    case Inside => Bit(IsInside(p))
    case EmptyTaken => Bit(IsEmptyTaken(p))
    case EmptyOwed => Bit(IsEmptyOwed(p))
    case StoredOwed => Bit(IsStoredOwed(p))
    case StoredTaken => Bit(IsStoredTaken(p))
    case Extra => Bit(IsExtra(p))
    case Filling => Bit(IsFilling(p))
    case Putting => Bit(IsPutting(p))
    case PutDone => Bit(IsPutDone(p))
    case Getting => Bit(IsGetting(p))
    case GetDone => Bit(IsGetDone(p))
    case BeforePutVal => Bit(IsBeforePutVal(p))
    case BeforeGetVal => Bit(IsBeforeGetVal(p))
    case Fetched => Bit(IsFetched(p))
    case Rank => RankOf(p)
  }

  function Bit(b: bool): nat {
    if b then 1 else 0
  }

  function RankOf(p: Pc): nat {
    match p
    case WaitEmpty => 10 case LockP => 9 case TestP => 8 case StoreP => 7 case IncPut => 6
    case IncPutVal => 15 case UnlockP => 14 case PostStored => 13
    case EndStored => 5 case EndEmpty => 4 case EndUnlockP => 3 case DoneP => 0
    case WaitStored => 10 case LockC => 9 case TestC => 8 case CheckC => 7 case IncGet => 6
    case IncGetVal => 15 case UnlockC => 14 case PostEmpty => 13
    case BackStored => 5 case EndUnlockC => 3 case DoneC => 0
  }

  function Sum(w: Weight, ts: seq<Pc>): nat {
    if ts == [] then 0 else Sum(w, ts[..|ts| - 1]) + Weigh(w, ts[|ts| - 1])
  }

  lemma {:induction false} SumSet(w: Weight, ts: seq<Pc>, t: nat, p: Pc)
    requires t < |ts|
    ensures Sum(w, ts[t := p]) == Sum(w, ts) - Weigh(w, ts[t]) + Weigh(w, p)
    ensures Weigh(w, ts[t]) <= Sum(w, ts)
  {
    hide Weigh;
    var n := |ts| - 1;
    if t < n {
      SumSet(w, ts[..n], t, p);
      assert ts[t := p][..n] == ts[..n][t := p];
    } else {
      assert ts[t := p][..n] == ts[..n];
    }
  }

  /** Weights that only a thread holding the mutex has. */
  predicate OnlyInside(w: Weight) {
    w.Filling? || w.Putting? || w.Getting? || w.BeforePutVal? || w.BeforeGetVal? || w.Fetched?
  }

  lemma {:induction false} SumInside(w: Weight, ts: seq<Pc>)
    requires OnlyInside(w)
    ensures Sum(w, ts) <= Sum(Inside, ts)
  {
    if ts != [] { SumInside(w, ts[..|ts| - 1]); }
  }

  /** A thread holding the mutex is alone with it. */
  lemma {:induction false} Alone(w: Weight, ts: seq<Pc>, t: nat)
    requires OnlyInside(w) && t < |ts| && Sum(Inside, ts) <= 1 && Weigh(Inside, ts[t]) == 1
    ensures Sum(w, ts) == Weigh(w, ts[t])
  {
    var n := |ts| - 1;
    if t < n {
      SumSet(Inside, ts[..n], t, DoneP);
      Alone(w, ts[..n], t);
    } else {
      SumInside(w, ts[..n]);
    }
  }

  // ---------------------------------------------------------------- the invariant

  function Max0(n: int): nat {
    if n < 0 then 0 else n
  }

  /** Where every empty slot and every stored item is. */
  ghost predicate Tokens(m: Shared, ts: seq<Pc>) {
    && m.mutex + Sum(Inside, ts) == 1
    && m.nget <= m.nput
    && m.nempty + Sum(EmptyTaken, ts) + (m.nput - m.nget) + Sum(EmptyOwed, ts) == NBUFF
    && m.nstored + Sum(StoredOwed, ts) + Sum(StoredTaken, ts) == (m.nput - m.nget) + Sum(Extra, ts)
  }

  /** How far the counters have come. */
  ghost predicate Counters(m: Shared, ts: seq<Pc>, nitems: int) {
    && m.nput <= Max0(nitems)
    && (Sum(Putting, ts) > 0 ==> m.nput < nitems) && (Sum(PutDone, ts) > 0 ==> m.nput >= nitems)
    && (Sum(Getting, ts) > 0 ==> m.nget < nitems) && (Sum(GetDone, ts) > 0 ==> m.nget >= nitems)
    && m.nputval + Sum(BeforePutVal, ts) == m.nput && m.ngetval + Sum(BeforeGetVal, ts) == m.nget
  }

  /** The ring holds exactly the items put and not yet fetched, and consumers got 0, 1, 2, ... */
  ghost predicate Ring(m: Shared, ts: seq<Pc>) {
    && |m.buff| == NBUFF && !m.error
    && (forall i :: m.nget <= i < m.nput ==> Holds(m.buff, i))
    && (Sum(Filling, ts) > 0 ==> Holds(m.buff, m.nput))
    && |m.eaten| == m.nget + Sum(Fetched, ts) && forall i :: 0 <= i < |m.eaten| ==> m.eaten[i] == i
  }

  predicate Holds(buff: seq<int>, i: nat)
    requires |buff| == NBUFF
  {
    buff[i % NBUFF] == i
  }

  ghost predicate Inv(s: State, nitems: int) {
    Tokens(s.m, s.ts) && Counters(s.m, s.ts, nitems) && Ring(s.m, s.ts)
  }

  /** A statement moves empty slots, stored items and the mutex around and loses none. */
  lemma TokensMove(m: Shared, p: Pc, nitems: int)
    requires Ready(m, p)
    ensures var m', q := Do(m, p), Then(m, p, nitems);
            && m'.mutex + Bit(IsInside(q)) == m.mutex + Bit(IsInside(p))
            && m'.nempty + Bit(IsEmptyTaken(q)) + (m'.nput - m'.nget) + Bit(IsEmptyOwed(q))
               == m.nempty + Bit(IsEmptyTaken(p)) + (m.nput - m.nget) + Bit(IsEmptyOwed(p))
            && m'.nstored + Bit(IsStoredOwed(q)) + Bit(IsStoredTaken(q)) - (m'.nput - m'.nget) - Bit(IsExtra(q))
               == m.nstored + Bit(IsStoredOwed(p)) + Bit(IsStoredTaken(p)) - (m.nput - m.nget) - Bit(IsExtra(p))
            && (m'.nget - m'.nput <= m.nget - m.nput || (p == IncGet && m'.nget == m.nget + 1 && m'.nput == m.nput))
  {
  }

  lemma TokensKept(s: State, t: nat, nitems: int)
    requires Inv(s, nitems) && Enabled(s, t)
    ensures var s' := Next(s, t, nitems); Tokens(s'.m, s'.ts)
  {
    hide Sum, Ring, Counters, Do, Then, Ready, IsInside, IsEmptyTaken, IsEmptyOwed, IsStoredOwed, IsStoredTaken,
        IsExtra;
    var p, q := s.ts[t], Then(s.m, s.ts[t], nitems);
    if p == IncGet { ItemIsThere(s, t, nitems); }
    TokensMove(s.m, p, nitems);
    SumSet(Inside, s.ts, t, q);
    SumSet(EmptyTaken, s.ts, t, q);
    SumSet(EmptyOwed, s.ts, t, q);
    SumSet(StoredOwed, s.ts, t, q);
    SumSet(StoredTaken, s.ts, t, q);
    SumSet(Extra, s.ts, t, q);
  }

  /** A consumer past its test finds an item: no extra post can outrun the items. */
  lemma ItemIsThere(s: State, t: nat, nitems: int)
    requires Inv(s, nitems) && t < |s.ts| && (s.ts[t] == CheckC || s.ts[t] == IncGet)
    ensures s.m.nget < s.m.nput
  {
    hide Sum, Ring;
    SumSet(StoredTaken, s.ts, t, s.ts[t]);
    SumSet(Getting, s.ts, t, s.ts[t]);
    ExtraIsPutDone(s.ts);
  }

  lemma {:induction false} ExtraIsPutDone(ts: seq<Pc>)
    ensures Sum(Extra, ts) <= Sum(PutDone, ts)
  {
    if ts != [] { ExtraIsPutDone(ts[..|ts| - 1]); }
  }

  /** A statement moves the counters as it says. */
  lemma CountersMove(m: Shared, p: Pc, nitems: int)
    requires Ready(m, p)
    ensures var m', q := Do(m, p), Then(m, p, nitems);
            && m.nput <= m'.nput <= m.nput + Bit(IsPutting(p)) && m.nget <= m'.nget <= m.nget + Bit(IsGetting(p))
            && m'.nputval + Bit(IsBeforePutVal(q)) - m'.nput == m.nputval + Bit(IsBeforePutVal(p)) - m.nput
            && m'.ngetval + Bit(IsBeforeGetVal(q)) - m'.nget == m.ngetval + Bit(IsBeforeGetVal(p)) - m.nget
            && (IsPutting(q) ==> m'.nput == m.nput && (IsPutting(p) || m.nput < nitems))
            && (IsGetting(q) ==> m'.nget == m.nget && (IsGetting(p) || m.nget < nitems))
            && (IsPutDone(q) ==> IsPutDone(p) || m.nput >= nitems)
               && (IsGetDone(q) ==> IsGetDone(p) || m.nget >= nitems)
            && (IsPutting(p) || IsGetting(p) ==> IsInside(p))
            && (m'.nput > m.nput ==> !IsPutting(q)) && (m'.nget > m.nget ==> !IsGetting(q))
  {
  }

  lemma CountersKept(s: State, t: nat, nitems: int)
    requires Inv(s, nitems) && Enabled(s, t)
    ensures var s' := Next(s, t, nitems); Counters(s'.m, s'.ts, nitems)
  {
    hide Sum, Ring, Do, Then, Ready, IsPutting, IsPutDone, IsGetting, IsGetDone, IsBeforePutVal, IsBeforeGetVal,
        IsInside;
    var p, q := s.ts[t], Then(s.m, s.ts[t], nitems);
    CountersMove(s.m, p, nitems);
    SumSet(Putting, s.ts, t, q);
    SumSet(PutDone, s.ts, t, q);
    SumSet(Getting, s.ts, t, q);
    SumSet(GetDone, s.ts, t, q);
    SumSet(BeforePutVal, s.ts, t, q);
    SumSet(BeforeGetVal, s.ts, t, q);
    if IsPutting(p) || IsGetting(p) {
      Alone(Putting, s.ts, t);
      Alone(Getting, s.ts, t);
    }
  }

  /** Different items of the ring are in different slots. */
  lemma Slots(i: nat, j: nat)
    requires i < j < i + NBUFF
    ensures i % NBUFF != j % NBUFF
  {
  }

  lemma RingKept(s: State, t: nat, nitems: int)
    requires Inv(s, nitems) && Enabled(s, t)
    ensures var s' := Next(s, t, nitems); Ring(s'.m, s'.ts)
  {
    hide Sum, Holds, Tokens, Counters;
    var p := s.ts[t];
    if p == StoreP { StoreKept(s, t, nitems); }
    else if p == IncPut { PutKept(s, t, nitems); }
    else if p == CheckC { CheckKept(s, t, nitems); }
    else {
      SumSet(Filling, s.ts, t, Then(s.m, p, nitems));
      SumSet(Fetched, s.ts, t, Then(s.m, p, nitems));
    }
  }

  /** A store overwrites no unread item. */
  lemma StoreKept(s: State, t: nat, nitems: int)
    requires Inv(s, nitems) && Enabled(s, t) && s.ts[t] == StoreP
    ensures var s' := Next(s, t, nitems); Ring(s'.m, s'.ts) && s.m.nput - s.m.nget < NBUFF
  {
    hide Sum, Holds;
    SumSet(EmptyTaken, s.ts, t, IncPut);
    SumSet(Fetched, s.ts, t, IncPut);
    Alone(BeforePutVal, s.ts, t);
    StoreFits(s.m);
  }

  lemma StoreFits(m: Shared)
    requires |m.buff| == NBUFF && m.nputval == m.nput && m.nput - m.nget < NBUFF &&
             forall i :: m.nget <= i < m.nput ==> Holds(m.buff, i)
    ensures var buff' := m.buff[m.nput % NBUFF := m.nputval];
            Holds(buff', m.nput) && forall i :: m.nget <= i < m.nput ==> Holds(buff', i)
  {
    var buff' := m.buff[m.nput % NBUFF := m.nputval];
    forall i | m.nget <= i < m.nput ensures Holds(buff', i) {
      assert Holds(m.buff, i);
      Slots(i, m.nput);
    }
  }

  lemma PutKept(s: State, t: nat, nitems: int)
    requires Inv(s, nitems) && Enabled(s, t) && s.ts[t] == IncPut
    ensures var s' := Next(s, t, nitems); Ring(s'.m, s'.ts)
  {
    hide Sum, Holds;
    SumSet(Filling, s.ts, t, IncPutVal);
    SumSet(Fetched, s.ts, t, IncPutVal);
    Alone(Filling, s.ts, t);
  }

  /** The check of a consumer always succeeds. */
  lemma CheckKept(s: State, t: nat, nitems: int)
    requires Inv(s, nitems) && Enabled(s, t) && s.ts[t] == CheckC
    ensures var s' := Next(s, t, nitems); Ring(s'.m, s'.ts) && s.m.buff[s.m.nget % NBUFF] == s.m.ngetval == s.m.nget
  {
    hide Sum;
    SumSet(Filling, s.ts, t, IncGet);
    SumSet(Fetched, s.ts, t, IncGet);
    ItemIsThere(s, t, nitems);
    Alone(BeforeGetVal, s.ts, t);
    Alone(Fetched, s.ts, t);
    assert Holds(s.m.buff, s.m.nget);
  }

  lemma StepKeeps(s: State, t: nat, nitems: int)
    requires Inv(s, nitems) && Enabled(s, t)
    ensures Inv(Next(s, t, nitems), nitems)
  {
    hide Tokens, Counters, Ring;
    TokensKept(s, t, nitems);
    CountersKept(s, t, nitems);
    RingKept(s, t, nitems);
  }

  // ---------------------------------------------------------------- no deadlock

  predicate Produces(p: Pc) {
    p.WaitEmpty? || p.LockP? || p.TestP? || p.StoreP? || p.IncPut? || p.IncPutVal? || p.UnlockP? || p.PostStored?
    || p.EndStored? || p.EndEmpty? || p.EndUnlockP? || p.DoneP?
  }

  /** The first np threads are the producers. */
  ghost predicate Roles(ts: seq<Pc>, np: nat) {
    forall t :: 0 <= t < |ts| ==> (Produces(ts[t]) <==> t < np)
  }

  lemma RolesKept(s: State, t: nat, nitems: int, np: nat)
    requires Enabled(s, t) && Roles(s.ts, np)
    ensures Roles(Next(s, t, nitems).ts, np)
  {
    hide Do;
  }

  predicate Done(p: Pc) {
    p.DoneP? || p.DoneC?
  }

  ghost predicate AllDone(ts: seq<Pc>) {
    forall t :: 0 <= t < |ts| ==> Done(ts[t])
  }

  lemma {:induction false} SumZero(w: Weight, ts: seq<Pc>)
    requires forall t :: 0 <= t < |ts| ==> Weigh(w, ts[t]) == 0
    ensures Sum(w, ts) == 0
  {
    hide Weigh;
    if ts != [] { SumZero(w, ts[..|ts| - 1]); }
  }

  /** A statement that never waits. */
  predicate Free(p: Pc) {
    !(p.WaitEmpty? || p.LockP? || p.WaitStored? || p.LockC? || p.DoneP? || p.DoneC?)
  }

  predicate Waiting(p: Pc) {
    p.WaitEmpty? || p.WaitStored? || p.DoneP? || p.DoneC?
  }

  /** With a producer and a consumer at all, somebody can go on until all have finished. */
  lemma SomeoneCanGo(s: State, nitems: int, np: nat) returns (t: nat)
    requires Inv(s, nitems) && Roles(s.ts, np) && 0 < np < |s.ts| && !AllDone(s.ts)
    ensures Enabled(s, t)
  {
    if i :| 0 <= i < |s.ts| && Free(s.ts[i]) {
      t := i;
    } else if j :| 0 <= j < |s.ts| && !Waiting(s.ts[j]) {
      t := j;
      SumZero(Inside, s.ts);
      hide Sum;
    } else {
      t := WaiterCanGo(s, nitems, np);
    }
  }

  lemma WaiterCanGo(s: State, nitems: int, np: nat) returns (t: nat)
    requires Inv(s, nitems) && Roles(s.ts, np) && 0 < np < |s.ts| && !AllDone(s.ts)
    requires forall i :: 0 <= i < |s.ts| ==> Waiting(s.ts[i])
    ensures Enabled(s, t)
  {
    hide Sum, Roles;
    WaitersHoldNothing(s.ts);
    SumSet(GetDone, s.ts, np, DoneC);
    SumSet(Extra, s.ts, 0, DoneP);
    RoleOf(s.ts, np, 0);
    RoleOf(s.ts, np, np);
    t :| 0 <= t < |s.ts| && !Done(s.ts[t]);
    if !Enabled(s, t) {
      t := if s.ts[t] == WaitEmpty then np else 0;
    }
  }

  lemma WaitersHoldNothing(ts: seq<Pc>)
    requires forall i :: 0 <= i < |ts| ==> Waiting(ts[i])
    ensures Sum(EmptyTaken, ts) == Sum(EmptyOwed, ts) == Sum(StoredOwed, ts) == Sum(StoredTaken, ts) == 0
  {
    hide Sum;
    SumZero(EmptyTaken, ts);
    SumZero(EmptyOwed, ts);
    SumZero(StoredOwed, ts);
    SumZero(StoredTaken, ts);
  }

  lemma RoleOf(ts: seq<Pc>, np: nat, t: nat)
    requires Roles(ts, np) && t < |ts|
    ensures Produces(ts[t]) <==> t < np
  {
  }

  // ---------------------------------------------------------------- every run ends

  function Measure(s: State, nitems: int): int {
    20 * (Max0(nitems) - s.m.nput) + 20 * (Max0(nitems) - s.m.nget) + Sum(Rank, s.ts)
  }

  lemma RankMoves(m: Shared, p: Pc, nitems: int)
    requires Ready(m, p)
    ensures var m' := Do(m, p);
            RankOf(Then(m, p, nitems)) < RankOf(p) + 20 * (m'.nput - m.nput) + 20 * (m'.nget - m.nget)
  {
  }

  lemma StepCounts(s: State, t: nat, nitems: int)
    requires Inv(s, nitems) && Enabled(s, t)
    ensures 0 <= Measure(Next(s, t, nitems), nitems) < Measure(s, nitems)
  {
    hide Sum, Do, Then, Ready, RankOf, Ring;
    StepKeeps(s, t, nitems);
    RankMoves(s.m, s.ts[t], nitems);
    SumSet(Rank, s.ts, t, Then(s.m, s.ts[t], nitems));
  }

  /** The threads in es execute one statement each, in that order. */
  ghost predicate Runs(s: State, es: seq<nat>, nitems: int)
    decreases |es|
  {
    es == [] || (Enabled(s, es[0]) && Runs(Next(s, es[0], nitems), es[1..], nitems))
  }

  function After(s: State, es: seq<nat>, nitems: int): State
    requires Runs(s, es, nitems)
    decreases |es|
  {
    if es == [] then s else After(Next(s, es[0], nitems), es[1..], nitems)
  }

  lemma {:induction false} RunKeeps(s: State, es: seq<nat>, nitems: int, np: nat)
    requires Inv(s, nitems) && Roles(s.ts, np) && Runs(s, es, nitems)
    ensures var s' := After(s, es, nitems);
            Inv(s', nitems) && Roles(s'.ts, np) && |s'.ts| == |s.ts|
            && |es| + Measure(s', nitems) <= Measure(s, nitems)
    decreases |es|
  {
    hide Inv, Roles, Measure, Do, Then, Ready;
    if es != [] {
      StepKeeps(s, es[0], nitems);
      StepCounts(s, es[0], nitems);
      RolesKept(s, es[0], nitems, np);
      RunKeeps(Next(s, es[0], nitems), es[1..], nitems, np);
    }
  }

  /** main after it has started its threads. */
  ghost predicate Started(s: State, np: nat, nc: nat) {
    && |s.m.buff| == NBUFF && s.m.nput == 0 && s.m.nputval == 0 && s.m.nget == 0 && s.m.ngetval == 0
    && s.m.mutex == 1 && s.m.nempty == NBUFF && s.m.nstored == 0 && s.m.eaten == [] && !s.m.error
    && |s.ts| == np + nc && forall t :: 0 <= t < |s.ts| ==> s.ts[t] == if t < np then WaitEmpty else WaitStored
  }

  lemma StartIsFine(s: State, np: nat, nc: nat, nitems: int)
    requires Started(s, np, nc)
    ensures Inv(s, nitems) && Roles(s.ts, np)
  {
    hide Sum, Weigh;
    WaitersHoldNothing(s.ts);
    NoneInside(s.ts);
    NoneCounted(s.ts);
  }

  lemma NoneInside(ts: seq<Pc>)
    requires forall t :: 0 <= t < |ts| ==> ts[t] == WaitEmpty || ts[t] == WaitStored
    ensures Sum(Inside, ts) == Sum(Extra, ts) == Sum(Filling, ts) == Sum(Fetched, ts) == 0
  {
    hide Sum;
    SumZero(Inside, ts);
    SumZero(Extra, ts);
    SumZero(Filling, ts);
    SumZero(Fetched, ts);
  }

  lemma NoneCounted(ts: seq<Pc>)
    requires forall t :: 0 <= t < |ts| ==> ts[t] == WaitEmpty || ts[t] == WaitStored
    ensures Sum(Putting, ts) == Sum(PutDone, ts) == Sum(Getting, ts) == Sum(GetDone, ts) == Sum(BeforePutVal, ts)
            == Sum(BeforeGetVal, ts) == 0
  {
    hide Sum;
    SumZero(Putting, ts);
    SumZero(PutDone, ts);
    SumZero(Getting, ts);
    SumZero(GetDone, ts);
    SumZero(BeforePutVal, ts);
    SumZero(BeforeGetVal, ts);
  }

  /** When all have finished, the consumers together got every item once, in order. */
  lemma EndIsComplete(s: State, nitems: int, np: nat)
    requires Inv(s, nitems) && Roles(s.ts, np) && np < |s.ts| && AllDone(s.ts)
    ensures s.m.nput == s.m.nget == Max0(nitems) == |s.m.eaten| &&
            forall i :: 0 <= i < |s.m.eaten| ==> s.m.eaten[i] == i
  {
    hide Sum;
    SumSet(GetDone, s.ts, np, DoneC);
    SumZero(Fetched, s.ts);
    RoleOf(s.ts, np, np);
  }

  /**
   * Whatever the interleaving: no consumer ever finds a wrong value, the run is finite,
   * and where it stops every thread has finished and every item was consumed once.
   */
  lemma EveryRun(s: State, np: nat, nc: nat, nitems: int, es: seq<nat>)
    requires Started(s, np, nc) && np > 0 && nc > 0 && Runs(s, es, nitems)
    ensures var s' := After(s, es, nitems);
            && !s'.m.error && |es| <= 40 * Max0(nitems) + 10 * (np + nc)
            && ((forall t :: !Enabled(s', t)) ==> AllDone(s'.ts) && |s'.m.eaten| == Max0(nitems))
            && forall i :: 0 <= i < |s'.m.eaten| ==> s'.m.eaten[i] == i
  {
    StartIsFine(s, np, nc, nitems);
    RunKeeps(s, es, nitems, np);
    StartRank(s.ts);
    hide Sum, Enabled, Done;
    var s' := After(s, es, nitems);
    MeasureIsNatural(s', nitems);
    if forall t :: !Enabled(s', t) {
      if !AllDone(s'.ts) { var t := SomeoneCanGo(s', nitems, np); }
      EndIsComplete(s', nitems, np);
    }
  }

  lemma MeasureIsNatural(s: State, nitems: int)
    requires Inv(s, nitems)
    ensures Measure(s, nitems) >= 0
  {
    hide Sum;
  }

  lemma {:induction false} StartRank(ts: seq<Pc>)
    requires forall t :: 0 <= t < |ts| ==> ts[t] == WaitEmpty || ts[t] == WaitStored
    ensures Sum(Rank, ts) == 10 * |ts|
  {
    if ts != [] { StartRank(ts[..|ts| - 1]); }
  }
}
