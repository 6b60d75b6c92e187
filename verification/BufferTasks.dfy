/**
 * Many tasks inside getblk and brelse at once.  The code between two sleeps is one
 * step; device transfers and interrupts come between steps as they like.
 */
module BufferTasks {
  import opened BufferCache

  /** A reference a task obtained by asking for a device and block. */
  datatype Ref = Ref(b: nat, dev: U16, block: U32)

  /** Where a task is inside getblk. */
  datatype Phase =
    | Idle
    | Repeat(dev: U16, block: U32)
    | InHash(b: nat, dev: U16, block: U32)
    | ForFree(dev: U16, block: U32)
    | InWait(b: nat, dev: U16, block: U32)
    | InSync(b: nat, dev: U16, block: U32)

  datatype Task = Task(phase: Phase, held: multiset<Ref>)

  datatype System = System(cache: Cache, tasks: seq<Task>, panicked: bool)

  datatype Event =
    | Call(t: nat, dev: U16, block: U32)
    | Look(t: nat)
    | HashWake(t: nat)
    | FreeWake(t: nat)
    | WaitWake(t: nat)
    | SyncWake(t: nat)
    | Release(t: nat, r: Ref)
    | Soil(t: nat, r: Ref)
    | Transfer(b: nat, lock: bool, dirt: bool, uptodate: bool)

  /** The references a task accounts for in b_count. */
  function Own(t: Task): multiset<Ref> {
    t.held + (if t.phase.InHash? then multiset{Ref(t.phase.b, t.phase.dev, t.phase.block)} else multiset{})
  }

  function All(tasks: seq<Task>): multiset<Ref> {
    if tasks == [] then multiset{} else Own(tasks[0]) + All(tasks[1..])
  }

  ghost predicate Named(c: Cache, r: Ref) {
    r.b < |c.bufs| && c.bufs[r.b].dev == r.dev && c.bufs[r.b].block == r.block
  }

  function NameOf(c: Cache, b: nat): Ref
    requires b < |c.bufs|
  {
    Ref(b, c.bufs[b].dev, c.bufs[b].block)
  }

  /** Every reference still names the block it was asked for. */
  ghost predicate RefsOk(c: Cache, refs: multiset<Ref>) {
    forall r :: r in refs ==> Named(c, r)
  }

  /** b_count is the number of references. */
  ghost predicate CountsOk(c: Cache, refs: multiset<Ref>) {
    forall b :: 0 <= b < |c.bufs| ==> c.bufs[b].count == refs[NameOf(c, b)]
  }

  predicate PhaseOk(c: Cache, p: Phase) {
    p.InHash? || p.InWait? || p.InSync? ==> p.b < |c.bufs|
  }

  ghost predicate Inv(s: System) {
    && RingOk(s.cache) && Unique(s.cache.bufs) && !s.panicked
    && (forall t :: 0 <= t < |s.tasks| ==> PhaseOk(s.cache, s.tasks[t].phase))
    && RefsOk(s.cache, All(s.tasks)) && CountsOk(s.cache, All(s.tasks))
  }

  ghost predicate Enabled(s: System, e: Event) {
    && !s.panicked && RingOk(s.cache)
    && (forall t :: 0 <= t < |s.tasks| ==> PhaseOk(s.cache, s.tasks[t].phase))
    && (!e.Transfer? ==> e.t < |s.tasks|)
    && match e
       case Call(t, _, _) => s.tasks[t].phase.Idle?
       case Look(t) => s.tasks[t].phase.Repeat?
       case HashWake(t) => s.tasks[t].phase.InHash? && !s.cache.bufs[s.tasks[t].phase.b].lock
       case FreeWake(t) => s.tasks[t].phase.ForFree?
       case WaitWake(t) => s.tasks[t].phase.InWait? && !s.cache.bufs[s.tasks[t].phase.b].lock
       case SyncWake(t) => s.tasks[t].phase.InSync?
       case Release(t, r) => s.tasks[t].phase.Idle? && r in s.tasks[t].held && r.b < |s.cache.bufs|
           && !s.cache.bufs[r.b].lock
       case Soil(t, r) => s.tasks[t].phase.Idle? && r in s.tasks[t].held && r.b < |s.cache.bufs|
       case Transfer(b, _, dirt, _) => b < |s.cache.bufs| && (dirt ==> s.cache.bufs[b].dirt)
  }

  function Put(s: System, t: nat, task: Task): System
    requires t < |s.tasks|
  {
    s.(tasks := s.tasks[t := task])
  }

  ghost function Next(s: System, e: Event): System
    requires Enabled(s, e)
  {
    match e
    case Call(t, dev, block) => Put(s, t, s.tasks[t].(phase := Repeat(dev, block)))
    case Look(t) =>
      var p := s.tasks[t].phase;
      (match LookUp(s.cache, p.dev, p.block)
       case Cached(b) => Put(s, t, s.tasks[t].(phase := InHash(b, p.dev, p.block))).(cache := Grab(s.cache, b))
       case Candidate(b) => Put(s, t, s.tasks[t].(phase := InWait(b, p.dev, p.block)))
       case AllBusy => Put(s, t, s.tasks[t].(phase := ForFree(p.dev, p.block))))
    case HashWake(t) =>
      var p := s.tasks[t].phase;
      if s.cache.bufs[p.b].dev == p.dev && s.cache.bufs[p.b].block == p.block then
        Put(s, t, Task(Idle, s.tasks[t].held + multiset{Ref(p.b, p.dev, p.block)}))
      else
        Put(s, t, s.tasks[t].(phase := Repeat(p.dev, p.block))).(cache := Drop(s.cache, p.b))
    case FreeWake(t) => Put(s, t, s.tasks[t].(phase := Repeat(s.tasks[t].phase.dev, s.tasks[t].phase.block)))
    case WaitWake(t) =>
      var p := s.tasks[t].phase;
      (match Try(s.cache, p.b, p.dev, p.block)
       case Locked => s
       case NeedsSync => Put(s, t, s.tasks[t].(phase := InSync(p.b, p.dev, p.block)))
       case Labelled => Put(s, t, Task(Idle, s.tasks[t].held + multiset{Ref(p.b, p.dev, p.block)})).(cache :=
           Label(s.cache, p.b, p.dev, p.block))
       case _ => Put(s, t, s.tasks[t].(phase := Repeat(p.dev, p.block))))
    case SyncWake(t) => Put(s, t, s.tasks[t].(phase :=
        InWait(s.tasks[t].phase.b, s.tasks[t].phase.dev, s.tasks[t].phase.block)))
    case Release(t, r) =>
      var s1 := Put(s, t, s.tasks[t].(held := s.tasks[t].held - multiset{r}));
      s1.(cache := Drop(s.cache, r.b), panicked := s.cache.bufs[r.b].count == 0)
    case Soil(t, r) => s.(cache := s.cache.(bufs := s.cache.bufs[r.b := s.cache.bufs[r.b].(dirt := true)]))
    case Transfer(b, lock, dirt, uptodate) =>
      s.(cache := s.cache.(bufs := s.cache.bufs[b :=
          s.cache.bufs[b].(lock := lock, dirt := dirt, uptodate := uptodate)]))
  }

  /** The one way the count can go wrong: a 256th reference to one buffer. */
  ghost predicate Wraps(s: System, e: Event)
    requires Enabled(s, e)
  {
    e.Look? && var p := s.tasks[e.t].phase;
    var r := LookUp(s.cache, p.dev, p.block);
    r.Cached? && s.cache.bufs[r.b].count == 0xff
  }

  // ---------------------------------------------------------------- references

  lemma {:induction false} AllPut(tasks: seq<Task>, t: nat, task: Task)
    requires t < |tasks|
    ensures Own(tasks[t]) <= All(tasks)
    ensures All(tasks[t := task]) == All(tasks) - Own(tasks[t]) + Own(task)
  {
    if t == 0 {
      assert tasks[0 := task][1..] == tasks[1..];
    } else {
      AllPut(tasks[1..], t - 1, task);
      assert tasks[t := task][1..] == tasks[1..][t - 1 := task];
    }
  }

  lemma AllSame(tasks: seq<Task>, t: nat, task: Task)
    requires t < |tasks| && Own(task) == Own(tasks[t])
    ensures All(tasks[t := task]) == All(tasks)
  {
    hide All, Own;
    AllPut(tasks, t, task);
  }

  lemma AllMore(tasks: seq<Task>, t: nat, task: Task, r: Ref)
    requires t < |tasks| && Own(task) == Own(tasks[t]) + multiset{r}
    ensures All(tasks[t := task]) == All(tasks) + multiset{r}
  {
    hide All, Own;
    AllPut(tasks, t, task);
  }

  lemma AllLess(tasks: seq<Task>, t: nat, task: Task, r: Ref)
    requires t < |tasks| && Own(task) == Own(tasks[t]) - multiset{r} && r in Own(tasks[t])
    ensures All(tasks[t := task]) == All(tasks) - multiset{r}
  {
    hide All, Own;
    AllPut(tasks, t, task);
  }

  /** Only the counts of buffers other than b are untouched, and all names stay. */
  lemma NamesKept(c: Cache, c': Cache, refs: multiset<Ref>)
    requires |c'.bufs| == |c.bufs| && forall b :: 0 <= b < |c.bufs| ==> NameOf(c', b) == NameOf(c, b)
    requires RefsOk(c, refs)
    ensures RefsOk(c', refs)
  {
    forall r | r in refs ensures Named(c', r) {
      assert Named(c, r);
      assert NameOf(c', r.b) == NameOf(c, r.b);
    }
  }

  /** A buffer with count 0 has no reference at all. */
  lemma UnusedIsUnnamed(c: Cache, refs: multiset<Ref>, b: nat)
    requires RefsOk(c, refs) && CountsOk(c, refs) && b < |c.bufs| && c.bufs[b].count == 0
    ensures forall r :: r in refs ==> r.b != b
  {
    forall r | r in refs ensures r.b != b {
      assert Named(c, r) && r == NameOf(c, r.b);
      assert c.bufs[r.b].count == refs[NameOf(c, r.b)];
    }
  }

  // ---------------------------------------------------------------- one step

  /** A step that leaves the cache and the references alone. */
  lemma QuietStep(s: System, t: nat, task: Task)
    requires Inv(s) && t < |s.tasks| && Own(task) == Own(s.tasks[t]) && PhaseOk(s.cache, task.phase)
    ensures Inv(Put(s, t, task))
  {
    hide RefsOk, CountsOk, RingOk, Unique, All, Own;
    AllSame(s.tasks, t, task);
  }

  lemma TransferStep(s: System, e: Event)
    requires Inv(s) && Enabled(s, e) && (e.Transfer? || e.Soil?)
    ensures Inv(Next(s, e))
  {
    hide Unique, Named;
    var c, c' := s.cache, Next(s, e).cache;
    forall b | 0 <= b < |c.bufs| ensures NameOf(c', b) == NameOf(c, b) && c'.bufs[b].count == c.bufs[b].count {}
    NamesKept(c, c', All(s.tasks));
    UniqueByLabels(c.bufs, c'.bufs);
  }

  lemma GrabStep(s: System, e: Event)
    requires Inv(s) && Enabled(s, e) && e.Look? && LookUp(s.cache, s.tasks[e.t].phase.dev,
             s.tasks[e.t].phase.block).Cached?
    ensures Inv(Next(s, e)) <==> !Wraps(s, e)
  {
    hide Unique, RefsOk, CountsOk, Named, RingOk, Find, Best, All;
    var p := s.tasks[e.t].phase;
    var b := LookUp(s.cache, p.dev, p.block).b;
    AllMore(s.tasks, e.t, s.tasks[e.t].(phase := InHash(b, p.dev, p.block)), Ref(b, p.dev, p.block));
    FoundName(s.cache, p.dev, p.block);
    GrabRefs(s.cache, All(s.tasks), b);
    UniqueByLabels(s.cache.bufs, Grab(s.cache, b).bufs);
    GrabRing(s.cache, b);
  }

  lemma FoundName(c: Cache, dev: U16, block: U32)
    requires RingOk(c) && LookUp(c, dev, block).Cached?
    ensures NameOf(c, LookUp(c, dev, block).b) == Ref(LookUp(c, dev, block).b, dev, block)
  {
    hide Best;
  }

  lemma GrabRing(c: Cache, b: nat)
    requires RingOk(c) && b < |c.bufs|
    ensures RingOk(Grab(c, b)) && RingOk(Drop(c, b))
  {
  }

  lemma GrabRefs(c: Cache, refs: multiset<Ref>, b: nat)
    requires RefsOk(c, refs) && CountsOk(c, refs) && b < |c.bufs|
    ensures RefsOk(Grab(c, b), refs + multiset{NameOf(c, b)})
    ensures CountsOk(Grab(c, b), refs + multiset{NameOf(c, b)}) <==> c.bufs[b].count < 0xff
  {
    var c', refs' := Grab(c, b), refs + multiset{NameOf(c, b)};
    NamesKept(c, c', refs);
    forall x | 0 <= x < |c.bufs| ensures NameOf(c', x) == NameOf(c, x)
        && refs'[NameOf(c', x)] == c.bufs[x].count + (if x == b then 1 else 0) {
      assert c.bufs[x].count == refs[NameOf(c, x)];
    }
    if c.bufs[b].count == 0xff {
      assert c'.bufs[b].count != refs'[NameOf(c', b)];
    }
  }

  /** get_hash_table never has to try again: the buffer it waited for kept its label. */
  lemma NoHashRetry(s: System, e: Event)
    requires Inv(s) && Enabled(s, e) && e.HashWake?
    ensures var p := s.tasks[e.t].phase; s.cache.bufs[p.b].dev == p.dev && s.cache.bufs[p.b].block == p.block
  {
    var p := s.tasks[e.t].phase;
    AllPut(s.tasks, e.t, s.tasks[e.t]);
    assert Ref(p.b, p.dev, p.block) in Own(s.tasks[e.t]);
    assert Named(s.cache, Ref(p.b, p.dev, p.block));
  }

  /** brelse never meets a buffer with count 0. */
  lemma NoReleasePanic(s: System, e: Event)
    requires Inv(s) && Enabled(s, e) && e.Release?
    ensures s.cache.bufs[e.r.b].count > 0 && e.r == NameOf(s.cache, e.r.b) && All(s.tasks)[e.r] > 0
  {
    AllPut(s.tasks, e.t, s.tasks[e.t]);
    assert e.r in Own(s.tasks[e.t]);
    assert Named(s.cache, e.r);
  }

  lemma ReleaseStep(s: System, e: Event)
    requires Inv(s) && Enabled(s, e) && e.Release?
    ensures Inv(Next(s, e))
  {
    hide Unique, RefsOk, CountsOk, Named, RingOk, All;
    NoReleasePanic(s, e);
    AllLess(s.tasks, e.t, s.tasks[e.t].(held := s.tasks[e.t].held - multiset{e.r}), e.r);
    DropRefs(s.cache, All(s.tasks), e.r.b);
    UniqueByLabels(s.cache.bufs, Drop(s.cache, e.r.b).bufs);
    GrabRing(s.cache, e.r.b);
  }

  lemma DropRefs(c: Cache, refs: multiset<Ref>, b: nat)
    requires RefsOk(c, refs) && CountsOk(c, refs) && b < |c.bufs| && c.bufs[b].count > 0
    ensures RefsOk(Drop(c, b), refs - multiset{NameOf(c, b)})
    ensures CountsOk(Drop(c, b), refs - multiset{NameOf(c, b)})
  {
    var c', refs' := Drop(c, b), refs - multiset{NameOf(c, b)};
    NamesKept(c, c', refs);
    forall x | 0 <= x < |c.bufs| ensures NameOf(c', x) == NameOf(c, x)
        && refs'[NameOf(c', x)] == c.bufs[x].count - (if x == b then 1 else 0) {
      assert c.bufs[x].count == refs[NameOf(c, x)];
    }
  }

  lemma LabelStep(s: System, e: Event)
    requires Inv(s) && Enabled(s, e) && e.WaitWake?
    requires var p := s.tasks[e.t].phase; Try(s.cache, p.b, p.dev, p.block) == Labelled
    ensures Inv(Next(s, e))
  {
    hide Unique, Without, Find, All, RefsOk, CountsOk, RingOk;
    var p := s.tasks[e.t].phase;
    var r := Ref(p.b, p.dev, p.block);
    var c, c' := s.cache, Label(s.cache, p.b, p.dev, p.block);
    RingHasAll(c, p.b);
    LabelKeepsRing(c, p.b, p.dev, p.block);
    LabelKeepsUnique(c, p.b, p.dev, p.block);
    AllMore(s.tasks, e.t, Task(Idle, s.tasks[e.t].held + multiset{r}), r);
    UnusedIsUnnamed(c, All(s.tasks), p.b);
    LabelRefs(c, All(s.tasks), p.b, p.dev, p.block);
  }

  lemma LabelRefs(c: Cache, refs: multiset<Ref>, b: nat, dev: U16, block: U32)
    requires RefsOk(c, refs) && CountsOk(c, refs) && b < |c.bufs| && (forall r :: r in refs ==> r.b != b)
    ensures var c' := Label(c, b, dev, block); var refs' := refs + multiset{Ref(b, dev, block)};
            RefsOk(c', refs') && CountsOk(c', refs')
  {
    var c', refs' := Label(c, b, dev, block), refs + multiset{Ref(b, dev, block)};
    forall r | r in refs' ensures Named(c', r) {
      if r in refs { assert Named(c, r); }
    }
    forall x | 0 <= x < |c'.bufs| ensures c'.bufs[x].count == refs'[NameOf(c', x)] {
      assert c.bufs[x].count == refs[NameOf(c, x)];
      assert Ref(b, dev, block) !in refs;
    }
  }

  /**
   * Each step keeps the invariant exactly when it does not take a 256th reference to
   * one buffer.
   */
  lemma StepKeeps(s: System, e: Event)
    requires Inv(s) && Enabled(s, e)
    ensures Inv(Next(s, e)) <==> !Wraps(s, e)
  {
    hide All, RefsOk, CountsOk, RingOk, Unique, Find, Best, Without;
    if e.Transfer? || e.Soil? { TransferStep(s, e); }
    else {
      var p := s.tasks[e.t].phase;
      match e
      case Call(t, dev, block) => QuietStep(s, t, s.tasks[t].(phase := Repeat(dev, block)));
      case FreeWake(t) => QuietStep(s, t, s.tasks[t].(phase := Repeat(p.dev, p.block)));
      case SyncWake(t) => QuietStep(s, t, s.tasks[t].(phase := InWait(p.b, p.dev, p.block)));
      case Release(t, r) => ReleaseStep(s, e);
      case HashWake(t) =>
        NoHashRetry(s, e);
        QuietStep(s, t, Task(Idle, s.tasks[t].held + multiset{Ref(p.b, p.dev, p.block)}));
      case WaitWake(t) =>
        if Try(s.cache, p.b, p.dev, p.block) == Labelled { LabelStep(s, e); }
        else if Try(s.cache, p.b, p.dev, p.block) == NeedsSync { QuietStep(s, t,
            s.tasks[t].(phase := InSync(p.b, p.dev, p.block))); }
        else { QuietStep(s, t, s.tasks[t].(phase := Repeat(p.dev, p.block))); }
      case Look(t) =>
        match LookUp(s.cache, p.dev, p.block)
        case Cached(b) => GrabStep(s, e);
        case Candidate(b) => QuietStep(s, t, s.tasks[t].(phase := InWait(b, p.dev, p.block)));
        case AllBusy => QuietStep(s, t, s.tasks[t].(phase := ForFree(p.dev, p.block)));
    }
  }

  /**
   * A step changes the label of a buffer only when the buffer is unused, unlocked and
   * clean, and only to a label that no buffer carries.
   */
  lemma RelabelsOnlyIdle(s: System, e: Event, b: nat)
    requires Inv(s) && Enabled(s, e) && b < |s.cache.bufs|
    ensures var c, c' := s.cache, Next(s, e).cache;
            |c'.bufs| == |c.bufs| &&
            (NameOf(c', b) != NameOf(c, b) ==>
              && c.bufs[b].count == 0 && !c.bufs[b].lock && !c.bufs[b].dirt
              && Find(c.bufs, c'.bufs[b].dev, c'.bufs[b].block).None?
              && (forall r :: r in All(s.tasks) ==> r.b != b))
  {
    hide Best, Without, All;
    if s.cache.bufs[b].count == 0 { UnusedIsUnnamed(s.cache, All(s.tasks), b); }
  }

  // ---------------------------------------------------------------- whole runs

  /** es can happen one after another from s. */
  ghost predicate Runs(s: System, es: seq<Event>)
    decreases |es|
  {
    es == [] || (Enabled(s, es[0]) && Runs(Next(s, es[0]), es[1..]))
  }

  /** No step of the run takes a 256th reference to one buffer. */
  ghost predicate Counted(s: System, es: seq<Event>)
    requires Runs(s, es)
    decreases |es|
  {
    es == [] || (!Wraps(s, es[0]) && Counted(Next(s, es[0]), es[1..]))
  }

  ghost function After(s: System, es: seq<Event>): System
    requires Runs(s, es)
    decreases |es|
  {
    if es == [] then s else After(Next(s, es[0]), es[1..])
  }

  lemma {:induction false} RunKeeps(s: System, es: seq<Event>)
    requires Inv(s) && Runs(s, es) && Counted(s, es)
    ensures Inv(After(s, es))
    decreases |es|
  {
    if es != [] {
      StepKeeps(s, es[0]);
      RunKeeps(Next(s, es[0]), es[1..]);
    }
  }

  /** A reference kept throughout a run names the same device and block at its end. */
  lemma HeldKeepsLabel(s: System, es: seq<Event>, t: nat, r: Ref)
    requires Inv(s) && Runs(s, es) && Counted(s, es) && t < |After(s, es).tasks| && r in After(s, es).tasks[t].held
    ensures Named(After(s, es).cache, r) && After(s, es).cache.bufs[r.b].count > 0
  {
    RunKeeps(s, es);
    var s' := After(s, es);
    AllPut(s'.tasks, t, s'.tasks[t]);
    assert r in Own(s'.tasks[t]);
    assert r in All(s'.tasks);
    assert r == NameOf(s'.cache, r.b);
  }

  /** Fresh from buffer_init: no labels, no references. */
  lemma {:induction false} InitiallyFine(c: Cache, tasks: seq<Task>)
    requires RingOk(c) && forall b :: 0 <= b < |c.bufs| ==> c.bufs[b].dev == 0 && c.bufs[b].count == 0
    requires forall t :: 0 <= t < |tasks| ==> tasks[t] == Task(Idle, multiset{})
    ensures Inv(System(c, tasks, false))
  {
    NoRefs(tasks);
  }

  lemma {:induction false} NoRefs(tasks: seq<Task>)
    requires forall t :: 0 <= t < |tasks| ==> tasks[t] == Task(Idle, multiset{})
    ensures All(tasks) == multiset{}
  {
    if tasks != [] { NoRefs(tasks[1..]); }
  }

  // ---------------------------------------------------------------- what an up-to-date buffer holds

  /** The step ends a getblk with buffer b, newly labelled. */
  ghost predicate HandsOut(s: System, e: Event, b: nat)
    requires Enabled(s, e)
  {
    e.WaitWake? && s.tasks[e.t].phase.b == b && e.t < |Next(s, e).tasks| && Next(s, e).tasks[e.t].phase.Idle?
  }

  /** getblk hands a buffer out clean, unlocked, used once and not up to date, and changes no other buffer. */
  lemma HandsOutBlank(s: System, e: Event, b: nat)
    requires Enabled(s, e) && b < |s.cache.bufs| && HandsOut(s, e, b)
    ensures var p, c, c' := s.tasks[e.t].phase, s.cache, Next(s, e).cache;
            && |c'.bufs| == |c.bufs| && c'.bufs[b] == Buffer(p.dev, p.block, 1, false, false, false)
            && forall x :: 0 <= x < |c.bufs| && x != b ==> c'.bufs[x] == c.bufs[x]
  {
    hide Find, Without;
  }

  /** Every other step but a transfer leaves b's label and its flag as they are. */
  lemma LabelStays(s: System, e: Event, b: nat)
    requires Enabled(s, e) && b < |s.cache.bufs| && !HandsOut(s, e, b)
    ensures var c, c' := s.cache, Next(s, e).cache;
            && |c'.bufs| == |c.bufs| && NameOf(c', b) == NameOf(c, b)
            && c'.bufs[b].uptodate == if e.Transfer? && e.b == b then e.uptodate else c.bufs[b].uptodate
  {
    hide Find, Best, Without;
  }

  /**
   * The device and block of the last transfer that left b up to date, unless one that failed,
   * or a getblk that took b for another block, came after it.
   */
  ghost function ReadFrom(s: System, es: seq<Event>, b: nat, was: Option<Ref>): Option<Ref>
    requires Runs(s, es) && b < |s.cache.bufs|
    decreases |es|
  {
    if es == [] then was
    else
      var now := if HandsOut(s, es[0], b) then None
                 else if es[0].Transfer? && es[0].b == b then
                   (if es[0].uptodate then Some(NameOf(s.cache, b)) else None)
                 else was;
      BuffersStay(s, es[0]);
      ReadFrom(Next(s, es[0]), es[1..], b, now)
  }

  lemma BuffersStay(s: System, e: Event)
    requires Enabled(s, e)
    ensures |Next(s, e).cache.bufs| == |s.cache.bufs|
  {
    hide Find, Best, Without;
  }

  /** was is where the bytes of b come from, if b is up to date. */
  ghost predicate Comes(c: Cache, b: nat, was: Option<Ref>)
    requires b < |c.bufs|
  {
    (c.bufs[b].uptodate <==> was.Some?) && (was.Some? ==> was.value == NameOf(c, b))
  }

  /**
   * In every run, whatever interleaving: a buffer is up to date exactly when a transfer has
   * made it so since it was last given a label, and that transfer was of the block it is labelled with.
   */
  lemma {:induction false} UpToDateMeansRead(s: System, es: seq<Event>, b: nat, was: Option<Ref>)
    requires Runs(s, es) && b < |s.cache.bufs| && Comes(s.cache, b, was)
    ensures |After(s, es).cache.bufs| == |s.cache.bufs| && Comes(After(s, es).cache, b, ReadFrom(s, es, b, was))
    decreases |es|
  {
    if es != [] {
      BuffersStay(s, es[0]);
      if HandsOut(s, es[0], b) { HandsOutBlank(s, es[0], b); } else { LabelStays(s, es[0], b); }
      hide Next, Enabled, HandsOut;
      var s1 := Next(s, es[0]);
      var now := if HandsOut(s, es[0], b) then None
                 else if es[0].Transfer? && es[0].b == b then
                   (if es[0].uptodate then Some(NameOf(s.cache, b)) else None)
                 else was;
      UpToDateMeansRead(s1, es[1..], b, now);
    }
  }

  // ---------------------------------------------------------------- a run in which a count wraps

  /** A cache of one buffer fresh from buffer_init, and two tasks. */
  function Start(): System {
    System(Cache([Buffer(0, 0, 0, false, false, false)], [0]), [Task(Idle, multiset{}), Task(Idle, multiset{})], false)
  }

  /** The buffer is labelled (1, 1) and task 0 holds it n times. */
  ghost predicate Holds(s: System, n: nat) {
    && !s.panicked && |s.cache.bufs| == 1 && s.cache.ring == [0] && |s.tasks| == 2
    && s.cache.bufs[0] == Buffer(1, 1, n % 0x100, false, false, false)
    && s.tasks[0] == Task(Idle, multiset{}[Ref(0, 1, 1) := n]) && s.tasks[1] == Task(Idle, multiset{})
  }

  lemma {:induction false} RunsJoin(s: System, a: seq<Event>, b: seq<Event>)
    requires Runs(s, a) && Runs(After(s, a), b)
    ensures Runs(s, a + b) && After(s, a + b) == After(After(s, a), b)
    decreases |a|
  {
    hide Enabled, Next;
    if a == [] {
      assert a + b == b;
    } else {
      assert (a + b)[1..] == a[1..] + b;
      RunsJoin(Next(s, a[0]), a[1..], b);
    }
  }

  lemma ThreeRun(s: System, a: Event, b: Event, c: Event)
    requires Enabled(s, a) && Enabled(Next(s, a), b) && Enabled(Next(Next(s, a), b), c)
    ensures Runs(s, [a, b, c]) && After(s, [a, b, c]) == Next(Next(Next(s, a), b), c)
  {
    hide Enabled, Next;
    assert [a, b, c][1..] == [b, c] && [b, c][1..] == [c] && [c][1..] == [];
    Unroll(Next(Next(s, a), b), [c]);
    Unroll(Next(s, a), [b, c]);
    Unroll(s, [a, b, c]);
  }

  lemma Unroll(s: System, es: seq<Event>)
    requires es != [] && Enabled(s, es[0])
    ensures Runs(s, es) == Runs(Next(s, es[0]), es[1..])
    ensures Runs(s, es) ==> After(s, es) == After(Next(s, es[0]), es[1..])
  {
  }

  /** getblk(1, 1) by task 0 when the buffer is in the cache. */
  function Again(): seq<Event> {
    [Call(0, 1, 1), Look(0), HashWake(0)]
  }

  /** The first getblk labels the buffer, the others find it. */
  function Crowding(n: nat): seq<Event> {
    if n == 0 then [] else if n == 1 then [Call(0, 1, 1), Look(0), WaitWake(0)] else Crowding(n - 1) + Again()
  }

  lemma FirstHold()
    ensures Runs(Start(), Crowding(1)) && Holds(After(Start(), Crowding(1)), 1)
  {
    var s := Start();
    var bufs := s.cache.bufs;
    assert Find(bufs[..0], 1, 1) == None;
    assert Best(bufs, [0][..0]) == None;
    var s1 := Next(s, Call(0, 1, 1));
    var s2 := Next(s1, Look(0));
    assert s2.tasks[0].phase == InWait(0, 1, 1);
    var s3 := Next(s2, WaitWake(0));
    assert s3.cache.ring == [0];
    ThreeRun(s, Call(0, 1, 1), Look(0), WaitWake(0));
  }

  lemma OneMore(s: System, n: nat)
    requires Holds(s, n) && n > 0
    ensures Runs(s, Again()) && Holds(After(s, Again()), n + 1)
  {
    hide LookUp, Runs, After;
    var s1 := Next(s, Call(0, 1, 1));
    Cached11(s1.cache);
    var s2 := Next(s1, Look(0));
    assert s2.tasks[0].phase == InHash(0, 1, 1);
    var s3 := Next(s2, HashWake(0));
    assert s3.tasks[0].held == multiset{}[Ref(0, 1, 1) := n + 1];
    ThreeRun(s, Call(0, 1, 1), Look(0), HashWake(0));
  }

  lemma Cached11(c: Cache)
    requires |c.bufs| == 1 && c.ring == [0] && Matches(c.bufs[0], 1, 1)
    ensures RingOk(c) && LookUp(c, 1, 1) == Cached(0)
  {
    hide Find, Best;
    FoundIsTheOne(c.bufs, 1, 1, 0);
  }

  lemma {:induction false} Crowds(n: nat)
    requires n > 0
    ensures Runs(Start(), Crowding(n)) && Holds(After(Start(), Crowding(n)), n)
  {
    if n == 1 {
      FirstHold();
    } else {
      Crowds(n - 1);
      hide Holds, Again, Start;
      OneMore(After(Start(), Crowding(n - 1)), n - 1);
      RunsJoin(Start(), Crowding(n - 1), Again());
    }
  }

  lemma TakenFrom(s: System)
    requires Holds(s, 0x100)
    ensures var es := [Call(1, 2, 2), Look(1), WaitWake(1)];
            Runs(s, es) && var s' := After(s, es);
            |s'.tasks| == 2 && s'.tasks[0].held == s.tasks[0].held && |s'.cache.bufs| == 1 && s'.cache.bufs[0].dev == 2
  {
    var bufs := s.cache.bufs;
    assert Find(bufs[..0], 2, 2) == None;
    assert Best(bufs, [0][..0]) == None;
    var s1 := Next(s, Call(1, 2, 2));
    var s2 := Next(s1, Look(1));
    assert s2.tasks[1].phase == InWait(0, 2, 2);
    ThreeRun(s, Call(1, 2, 2), Look(1), WaitWake(1));
  }

  /**
   * From a fresh cache: with the 256th getblk of the same block b_count is 0 again, and the
   * buffer, still held 256 times, is given to another block.
   */
  lemma WrapLosesTheLabel()
    ensures var es := Crowding(0x100) + [Call(1, 2, 2), Look(1), WaitWake(1)];
            Inv(Start()) && Runs(Start(), es) && |After(Start(), es).tasks| > 0 &&
            After(Start(), es).tasks[0].held[Ref(0, 1, 1)] == 0x100 && !Named(After(Start(), es).cache, Ref(0, 1, 1))
  {
    InitiallyFine(Start().cache, Start().tasks);
    Crowds(0x100);
    var s := After(Start(), Crowding(0x100));
    TakenFrom(s);
    HeldBy(s, 0x100);
    hide Holds, Crowding, Inv, Start;
    RunsJoin(Start(), Crowding(0x100), [Call(1, 2, 2), Look(1), WaitWake(1)]);
  }

  lemma HeldBy(s: System, n: nat)
    requires Holds(s, n)
    ensures s.tasks[0].held[Ref(0, 1, 1)] == n
  {
  }
}
