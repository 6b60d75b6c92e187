/**
 The reference semantics: every user page is private, fork copies the parent's pages at once.
 The copy-on-write machine of PageFaults refines it on every run.
 */
module EagerCopy {
  import opened PageFrames
  import opened CopyOnWrite
  import opened PageFaults
  import opened FrameSupply

  datatype Op =
    | Forks(p: int, c: int, n: nat)                  // copy_mem from task p to task c
    | Exits(c: int, n: nat)                          // free_page_tables of task c
    | Stores(d: int, i: int, at: nat, b: bv8)        // one byte written by a user task
    | Verifies(d: int, i: int)                       // write_verify, before the kernel writes there
    | Touches(d: int, i: int)                        // do_no_page without an executable: get_empty_page
    | Shares(d: int, e: int, i: int)                 // try_to_share
    | KernelGets                                     // get_free_page kept by the kernel
    | KernelFrees(f: int)                            // free_page of a page the kernel holds
    | KernelFills(f: int, bytes: seq<bv8>)           // bread_page or copy_strings into such a page
    | Places(f: int, bytes: seq<bv8>, d: int, i: int) // put_page of such a page, holding bytes

  ghost predicate Enabled(s: Mem, op: Op)
    requires Inv(s)
  {
    match op
    case Forks(p, c, n) => p >= 1 && MayFork(s, p, c, n) && NoChild(s, c, n)
    case Exits(c, n) => 1 <= c < TASKS && n <= SPAN
    case Stores(d, i, at, _) => IsSlot(d, i) && at < PAGE_SIZE
    case Verifies(d, i) => IsSlot(d, i)
    case Touches(d, i) => IsSlot(d, i) && Entry(s, d, i).Absent?
    case Shares(d, e, i) => Twins(d, e) && 0 <= i < ENTRIES
    case KernelGets => true
    case KernelFrees(f) => LOW <= f < s.high && s.held[f] > 0
    case KernelFills(f, bytes) => LOW <= f < s.high && s.held[f] > 0 && |bytes| == PAGE_SIZE
    case Places(f, bytes, d, i) =>
      IsSlot(d, i) && LOW <= f < s.high && s.held[f] == 1 && s.page[f] == bytes && Entry(s, d, i).Absent?
  }

  /** The state after one operation. */
  ghost function Step(s: Mem, op: Op): (r: Mem)
    requires Inv(s) && Enabled(s, op)
    ensures Inv(r)
  {
    hide TablesOk, RolesOk, SharingOk, CountsOk, MayCopy;
    match op
    case Forks(p, c, n) => Fork(s, p, c, n).mem
    case Exits(c, n) => FreeDirs(s, SPAN * c, n)
    case Stores(d, i, at, b) => Store(s, d, i, at, b).mem
    case Verifies(d, i) => Verify(s, d, i).mem
    case Touches(d, i) => GetEmptyPageDoes(s, d, i); GetEmptyPage(s, d, i).mem
    case Shares(d, e, i) => TryToShare(s, d, e, i).mem
    case KernelGets => if OutOfFrames(s) then s else Alloc(s, FreeFrame(s))
    case KernelFrees(f) => UnholdKeeps(s, f); Unhold(s, f)
    case KernelFills(f, bytes) => PageKeeps(s, f, bytes); s.(page := s.page[f := bytes])
    case Places(f, bytes, d, i) => PutPage(s, f, d, i).mem
  }

  /**
   * Whether the operation takes effect: what it needs is there, and there are frames
   * enough.  Nothing here mentions what the operation does.
   */
  ghost predicate Can(s: Mem, op: Op)
    requires Inv(s) && Enabled(s, op)
  {
    match op
    case Forks(p, c, n) => Tables(s, p, n) <= |Free(s)|
    case Stores(d, i, at, b) => Entry(s, d, i).Page? && (Entry(s, d, i).write || Sole(s, d, i) || Free(s) != {})
    case Verifies(d, i) => Entry(s, d, i).Page? ==> Entry(s, d, i).write || Sole(s, d, i) || Free(s) != {}
    case Touches(d, i) => (if HasTable(s, d) then 1 else 2) <= |Free(s)|
    case Shares(d, e, i) => Clean(s, d, i) && Entry(s, e, i).Absent? && (HasTable(s, e) || Free(s) != {})
    case Places(f, bytes, d, i) => HasTable(s, d) || Free(s) != {}
    case _ => true
  }

  // ---------------------------------------------------------------- eager memory

  type Space = map<(int, int), View>

  ghost function Slots(): set<(int, int)> {
    set d, i | SPAN <= d < ENTRIES && 0 <= i < ENTRIES :: (d, i)
  }

  ghost function SpaceOf(s: Mem): (a: Space)
    requires Shape(s)
    ensures a.Keys == Slots()
  {
    map q | q in Slots() :: ViewAt(s, q.0, q.1)
  }

  ghost predicate IsSpace(a: Space) { a.Keys == Slots() }

  predicate InTask(q: (int, int), c: int, n: int) { SPAN * c <= q.0 < SPAN * c + n }

  predicate WellFormed(op: Op) {
    && (op.Forks? ==> 1 <= op.p < TASKS && 1 <= op.c < TASKS && op.n <= SPAN)
    && (op.Stores? || op.Verifies? || op.Touches? || op.Places? ==> IsSlot(op.d, op.i))
    && (op.Shares? ==> Twins(op.d, op.e) && 0 <= op.i < ENTRIES)
  }

  /** What the operation does to memory in which every page is private. */
  ghost function Eager(a: Space, op: Op): (r: Space)
    requires IsSpace(a) && WellFormed(op)
    ensures IsSpace(r)
  {
    match op
    case Forks(p, c, n) => map q | q in Slots() :: if InTask(q, c, n) then a[(q.0 - SPAN * c + SPAN * p, q.1)] else a[q]
    case Exits(c, n) => map q | q in Slots() :: if InTask(q, c, n) then Nothing else a[q]
    case Stores(d, i, at, b) =>
      var v := a[(d, i)];
      if v.Bytes? && at < |v.bytes| then a[(d, i) := Bytes(v.bytes[at := b])] else a
    case Touches(d, i) => a[(d, i) := Bytes(ZeroPage())]
    case Shares(d, e, i) => a[(e, i) := a[(d, i)]]
    case Places(f, bytes, d, i) => a[(d, i) := Bytes(bytes)]
    case _ => a
  }

  lemma ForkRefines(s: Mem, p: int, c: int, n: nat)
    requires Inv(s) && Enabled(s, Forks(p, c, n)) && Fork(s, p, c, n).Ok?
    ensures SpaceOf(Fork(s, p, c, n).mem) == Eager(SpaceOf(s), Forks(p, c, n))
  {
    hide TablesOk, RolesOk, SharingOk, CountsOk, CopyDirs, NameAt, MayCopy;
    CopyDirsEffect(s, p, c, n);
    var r := CopyDirs(s, p, c, n).mem;
    forall q | q in Slots() ensures ViewAt(r, q.0, q.1) == Eager(SpaceOf(s), Forks(p, c, n))[q] {
      if InTask(q, c, n) {
        assert Copied(s, p, r, c, q.0 - SPAN * c);
      } else {
        assert SameRegion(s, r, q.0);
      }
    }
  }

  /** No entry of the child exists, so copy_page_tables cannot panic with "already exist". */
  lemma {:induction false} ForkNeverPanics(s: Mem, p: int, c: int, n: nat)
    requires Inv(s) && MayFork(s, p, c, n) && NoChild(s, c, n)
    ensures !CopyDirs(s, p, c, n).Panic?
  {
    hide TablesOk, RolesOk, SharingOk, CountsOk, CopyDir, MayCopy;
    if n > 0 {
      ForkNeverPanics(s, p, c, n - 1);
      CopyDirsFrame(s, p, c, n - 1);
      var m := CopyDirs(s, p, c, n - 1);
      if m.Ok? {
        ForkCopies(s, m.mem, p, c, n - 1);
        assert m.mem.dir[SPAN * c + (n - 1)].NoTable?;
      }
    }
  }

  lemma FailedForkInvisible(s: Mem, p: int, c: int, n: nat)
    requires Inv(s) && Enabled(s, Forks(p, c, n)) && !Fork(s, p, c, n).Ok?
    ensures SpaceOf(Fork(s, p, c, n).mem) == SpaceOf(s)
  {
    hide TablesOk, RolesOk, SharingOk, CountsOk, CopyDirs, FreeDirs, NameAt, MayCopy;
    ForkNeverPanics(s, p, c, n);
    ForkUndone(s, p, c, n);
    var r := Fork(s, p, c, n).mem;
    forall q | q in Slots() ensures ViewAt(r, q.0, q.1) == ViewAt(s, q.0, q.1) {
      assert SameRegion(s, r, q.0);
    }
  }

  lemma ExitRefines(s: Mem, c: int, n: nat)
    requires Inv(s) && Enabled(s, Exits(c, n))
    ensures SpaceOf(FreeDirs(s, SPAN * c, n)) == Eager(SpaceOf(s), Exits(c, n))
  {
    hide TablesOk, RolesOk, SharingOk, CountsOk, FreeDirs, NameAt;
    FreeDirsEffect(s, SPAN * c, n);
    var r := FreeDirs(s, SPAN * c, n);
    assert Emptied(s, r, SPAN * c, n);
    forall q | q in Slots() ensures ViewAt(r, q.0, q.1) == Eager(SpaceOf(s), Exits(c, n))[q] {
      if InTask(q, c, n) {
        assert EmptyRegion(r, q.0);
      } else {
        assert SameRegion(s, r, q.0);
      }
    }
  }

  lemma SameSpace(s: Mem, r: Mem)
    requires Shape(s) && Shape(r) && SameViews(s, r)
    ensures SpaceOf(r) == SpaceOf(s)
  {
  }

  lemma SpaceBut(s: Mem, r: Mem, d: int, i: int)
    requires Shape(s) && Shape(r) && IsSlot(d, i) && SameViewsBut(s, r, d, i)
    ensures SpaceOf(r) == SpaceOf(s)[(d, i) := ViewAt(r, d, i)]
  {
  }

  /** The kernel's own pages are nobody's view. */
  lemma FillIsInvisible(s: Mem, f: int, bytes: seq<bv8>)
    requires Inv(s) && Enabled(s, KernelFills(f, bytes))
    ensures SameViews(s, s.(page := s.page[f := bytes]))
  {
    hide TablesOk, SharingOk, CountsOk;
    PageKeeps(s, f, bytes);
    forall c, j | IsSlot(c, j) ensures !Names(s, c, j, f) {}
  }

  /** One operation: when it can, memory moves as the eager machine says, else nothing is seen. */
  lemma StepRefines(s: Mem, op: Op)
    requires Inv(s) && Enabled(s, op)
    ensures SpaceOf(Step(s, op)) == if Can(s, op) then Eager(SpaceOf(s), op) else SpaceOf(s)
  {
    hide TablesOk, RolesOk, SharingOk, CountsOk, Fork, FreeDirs, Store, Verify, GetEmptyPage, TryToShare, PutPage;
    hide Alloc, Unhold, MayCopy, Entry, Tables, Free, Sole, Clean;
    match op
    case Forks(p, c, n) =>
      ForkIff(s, p, c, n);
      if Can(s, op) { ForkRefines(s, p, c, n); } else { FailedForkInvisible(s, p, c, n); }
    case Exits(c, n) => ExitRefines(s, c, n);
    case Stores(d, i, at, b) =>
      StoreIff(s, d, i, at, b);
      if Can(s, op) { SpaceBut(s, Step(s, op), d, i); }
    case Verifies(d, i) =>
      VerifyViews(s, d, i);
      SameSpace(s, Step(s, op));
    case Touches(d, i) =>
      GetEmptyPageIff(s, d, i);
      GetEmptyPageDoes(s, d, i);
      if Can(s, op) { SpaceBut(s, Step(s, op), d, i); } else { SameSpace(s, Step(s, op)); }
    case Shares(d, e, i) =>
      TryToShareIff(s, d, e, i);
      if Can(s, op) { SpaceBut(s, Step(s, op), e, i); } else { SameSpace(s, Step(s, op)); }
    case Places(f, bytes, d, i) =>
      PutPageIff(s, f, d, i);
      if Can(s, op) { SpaceBut(s, Step(s, op), d, i); } else { ViewsAreViews(s); SameSpace(s, Step(s, op)); }
    case KernelGets =>
      ViewsAreViews(s);
      SameSpace(s, Step(s, op));
    case KernelFrees(f) =>
      UnholdKeeps(s, f);
      SameSpace(s, Step(s, op));
    case KernelFills(f, bytes) =>
      FillIsInvisible(s, f, bytes);
      SameSpace(s, Step(s, op));
  }

  // ---------------------------------------------------------------- runs

  ghost predicate Runnable(s: Mem, ops: seq<Op>)
    requires Inv(s)
    decreases |ops|
  {
    ops == [] || (Enabled(s, ops[0]) && Runnable(Step(s, ops[0]), ops[1..]))
  }

  ghost function Run(s: Mem, ops: seq<Op>): (r: Mem)
    requires Inv(s) && Runnable(s, ops)
    ensures Inv(r)
    decreases |ops|
  {
    if ops == [] then s else Run(Step(s, ops[0]), ops[1..])
  }

  /** The operations of the run that take effect. */
  ghost function Effective(s: Mem, ops: seq<Op>): (r: seq<Op>)
    requires Inv(s) && Runnable(s, ops)
    ensures forall op :: op in r ==> WellFormed(op)
    decreases |ops|
  {
    hide Inv, Step;
    if ops == [] then []
    else (if Can(s, ops[0]) then [ops[0]] else []) + Effective(Step(s, ops[0]), ops[1..])
  }

  ghost function EagerRun(a: Space, ops: seq<Op>): (r: Space)
    requires IsSpace(a) && forall op :: op in ops ==> WellFormed(op)
    ensures IsSpace(r)
    decreases |ops|
  {
    if ops == [] then a else EagerRun(Eager(a, ops[0]), ops[1..])
  }

  /** Copy-on-write refines eager copy: over any run, the user tasks' memory is what the effective
      operations make of it when every fork copies every page at once. */
  lemma {:induction false} RunRefines(s: Mem, ops: seq<Op>)
    requires Inv(s) && Runnable(s, ops)
    ensures SpaceOf(Run(s, ops)) == EagerRun(SpaceOf(s), Effective(s, ops))
    decreases |ops|
  {
    hide Inv, Step, Enabled, Can, Eager, SpaceOf;
    if ops != [] {
      var s1 := Step(s, ops[0]);
      StepRefines(s, ops[0]);
      RunRefines(s1, ops[1..]);
      var rest := Effective(s1, ops[1..]);
      if Can(s, ops[0]) {
        assert Effective(s, ops) == [ops[0]] + rest;
        assert ([ops[0]] + rest)[1..] == rest;
      } else {
        assert Effective(s, ops) == rest;
      }
    }
  }
}
