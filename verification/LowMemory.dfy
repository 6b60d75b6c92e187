/**
 The pages below LOW_MEM that the first fork shares without protecting the parent: which
 entries every operation leaves alone, and how long task 0's writes show in a child.
 */
module LowMemory {
  import opened PageFrames
  import opened CopyOnWrite
  import opened PageFaults
  import opened FrameSupply
  import opened EagerCopy

  // ---------------------------------------------------------------- entries an operation leaves alone

  /** Every entry of region c is the same. */
  ghost predicate SameIn(s: Mem, r: Mem, c: int)
    requires Shape(s) && Shape(r) && 0 <= c < ENTRIES
  {
    forall j :: 0 <= j < ENTRIES ==> Entry(r, c, j) == Entry(s, c, j)
  }

  lemma {:induction false} CopyEntriesLeave(s: Mem, d: int, e: int, n: nat, c: int)
    requires Inv(s) && n <= ENTRIES && MayCopy(s, d, e, n) && s.dir[e].Table? && Blank(s, e, 0)
    requires 0 <= c < ENTRIES && c != e && (c != d || d < SPAN)
    ensures SameIn(s, CopyEntries(s, d, e, n), c)
  {
    hide TablesOk, RolesOk, SharingOk, CountsOk, CopyEntry;
    if n > 0 {
      CopyEntriesLeave(s, d, e, n - 1, c);
      var m := CopyEntries(s, d, e, n - 1);
      var r := CopyEntry(m, d, e, n - 1);
      assert forall j :: 0 <= j < ENTRIES ==> Entry(r, c, j) == Entry(m, c, j);
    }
  }

  lemma CopyDirLeaves(s: Mem, d: int, e: int, nr: nat, c: int)
    requires Inv(s) && nr <= ENTRIES && MayCopy(s, d, e, nr) && 0 <= c < ENTRIES && c != e && (c != d || d < SPAN)
    ensures SameIn(s, CopyDir(s, d, e, nr).mem, c)
  {
    hide TablesOk, RolesOk, SharingOk, CountsOk, CopyEntries;
    if s.dir[e].NoTable? && s.dir[d].Table? && !OutOfFrames(s) { CopyEntriesLeave(NewTable(s, e), d, e, nr, c); }
  }

  /** fork leaves every region alone but the child's, and the parent's when that is not task 0's. */
  lemma {:induction false} CopyDirsLeave(s: Mem, p: int, c: int, n: nat, k: int)
    requires Inv(s) && MayFork(s, p, c, n) && 0 <= k < ENTRIES && !(SPAN * c <= k < SPAN * c + n)
    requires k < SPAN || !(SPAN * p <= k < SPAN * p + n)
    ensures SameIn(s, CopyDirs(s, p, c, n).mem, k)
  {
    hide TablesOk, RolesOk, SharingOk, CountsOk, CopyDir, CopyDirs, MayCopy, Entry;
    if n == 0 {
      CopyNoDirs(s, p, c);
    } else {
      CopyDirsLeave(s, p, c, n - 1, k);
      CopyDirsLast(s, p, c, n);
      var m := CopyDirs(s, p, c, n - 1);
      if m.Ok? {
        CopyDirLeaves(m.mem, SPAN * p + (n - 1), SPAN * c + (n - 1), PagesOf(p), k);
        SameTwice(s, m.mem, CopyDirs(s, p, c, n).mem, k);
      }
    }
  }

  lemma SameTwice(s: Mem, m: Mem, r: Mem, c: int)
    requires Shape(s) && Shape(m) && Shape(r) && 0 <= c < ENTRIES && SameIn(s, m, c) && SameIn(m, r, c)
    ensures SameIn(s, r, c)
  {
    hide Entry;
  }

  lemma {:induction false} FreeDirsLeave(s: Mem, d: int, n: nat, k: int)
    requires Inv(s) && SPAN <= d && d + n <= ENTRIES && 0 <= k < ENTRIES && !(d <= k < d + n)
    ensures SameIn(s, FreeDirs(s, d, n), k)
  {
    hide TablesOk, RolesOk, SharingOk, CountsOk, FreeDir, Entry;
    if n > 0 {
      FreeDirsLeave(s, d, n - 1, k);
      var m := FreeDirs(s, d, n - 1);
      ClearedLeaves(m, FreeDir(m, d + (n - 1)), d + (n - 1), k);
      SameTwice(s, m, FreeDir(m, d + (n - 1)), k);
    }
  }

  lemma ClearedLeaves(s: Mem, r: Mem, d: int, k: int)
    requires Shape(s) && Shape(r) && Cleared(s, r, d, ENTRIES) && 0 <= k < ENTRIES && k != d
    ensures SameIn(s, r, k)
  {
  }

  lemma UnWpPageLeaves(s: Mem, d: int, i: int)
    requires Inv(s) && IsSlot(d, i) && Entry(s, d, i).Page?
    ensures SameEntriesBut(s, UnWpPage(s, d, i).mem, d, i)
  {
    hide TablesOk, RolesOk, SharingOk, CountsOk, CopyPage;
    MappedIsNoTable(s, d, i);
    var f := Entry(s, d, i).frame;
    if LOW <= f && s.memMap[f - LOW] == 1 {
      SetEntryLocal(s, d, i, Entry(s, d, i).(write := true));
    } else if !OutOfFrames(s) {
      CopyPageLeaves(s, d, i);
    }
  }

  lemma CopyPageLeaves(s: Mem, d: int, i: int)
    requires Inv(s) && !OutOfFrames(s) && IsSlot(d, i) && Entry(s, d, i).Page?
    ensures SameEntriesBut(s, CopyPage(s, d, i), d, i)
  {
    hide TablesOk, SharingOk, CountsOk;
    var f, g := Entry(s, d, i).frame, FreeFrame(s);
    AllocKeeps(s, g);
    var s1 := Alloc(s, g);
    UnmapKeeps(s1, d, i);
    var s2 := Unmap(s1, d, i);
    MapHeldKeeps(s2, d, i, g);
  }

  lemma WriteByteLeaves(s: Mem, d: int, i: int, at: nat, b: bv8)
    requires Inv(s) && IsSlot(d, i) && Entry(s, d, i).Page? && Entry(s, d, i).write && at < PAGE_SIZE
    ensures SameEntriesBut(s, WriteByte(s, d, i, at, b), d, i)
    ensures Entry(WriteByte(s, d, i, at, b), d, i) == Entry(s, d, i).(dirty := true)
  {
    hide RolesOk, SharingOk, CountsOk;
    SetEntryLocal(s, d, i, Entry(s, d, i).(dirty := true));
  }

  lemma ButTwice(s: Mem, m: Mem, r: Mem, d: int, i: int)
    requires Shape(s) && Shape(m) && Shape(r) && SameEntriesBut(s, m, d, i) && SameEntriesBut(m, r, d, i)
    ensures SameEntriesBut(s, r, d, i)
  {
  }

  lemma StoreLeaves(s: Mem, d: int, i: int, at: nat, b: bv8)
    requires Inv(s) && IsSlot(d, i) && at < PAGE_SIZE
    ensures SameEntriesBut(s, Store(s, d, i, at, b).mem, d, i)
  {
    hide TablesOk, RolesOk, SharingOk, CountsOk, UnWpPage, WriteByte, SameViewsBut;
    var e := Entry(s, d, i);
    if e.Page? {
      if e.write {
        WriteByteLeaves(s, d, i, at, b);
      } else {
        UnWpPageLeaves(s, d, i);
        var m := UnWpPage(s, d, i);
        if m.Ok? {
          WriteByteLeaves(m.mem, d, i, at, b);
          ButTwice(s, m.mem, WriteByte(m.mem, d, i, at, b), d, i);
        }
      }
    }
  }

  lemma PutPageLeaves(s: Mem, f: nat, d: int, i: int)
    requires Inv(s) && IsSlot(d, i) && LOW <= f < s.high && s.held[f] == 1
    ensures SameEntriesBut(s, PutPage(s, f, d, i).mem, d, i)
  {
    hide RolesOk, SharingOk, CountsOk;
    var m := WithTable(s, d);
    if m.Ok? { SetEntryLocal(m.mem, d, i, Page(f, true, false)); }
  }

  lemma GetEmptyPageLeaves(s: Mem, d: int, i: int)
    requires Inv(s) && IsSlot(d, i)
    ensures SameEntriesBut(s, GetEmptyPage(s, d, i).mem, d, i)
  {
    hide TablesOk, RolesOk, SharingOk, CountsOk, PutPage;
    if !OutOfFrames(s) {
      var f := FreeFrame(s);
      AllocKeeps(s, f);
      var s1 := Alloc(s, f);
      PutPageLeaves(s1, f, d, i);
      if PutPage(s1, f, d, i).NoMemory? { UnholdKeeps(s1, f); }
    }
  }

  /** try_to_share leaves every entry alone but the new one and the protection of the old. */
  lemma TryToShareLeaves(s: Mem, d: int, e: int, i: int)
    requires Inv(s) && Twins(d, e) && 0 <= i < ENTRIES
    ensures var r := TryToShare(s, d, e, i).mem;
            && (forall c, j :: 0 <= c < ENTRIES && 0 <= j < ENTRIES && (c != e || j != i) && (c != d || j != i) ==>
                  Entry(r, c, j) == Entry(s, c, j))
            && NameAt(r, d, i) == NameAt(s, d, i) && (Entry(s, e, i).Page? ==> NameAt(r, e, i) == NameAt(s, e, i))
  {
    hide TablesOk, SharingOk, CountsOk, WithTable, Share;
    var from := Entry(s, d, i);
    var m := WithTable(s, e);
    if !(from.Absent? || from.dirty || from.frame >= s.high || from.frame < LOW) && m.Ok? {
      assert Entry(m.mem, d, i) == from && Entry(m.mem, e, i) == Entry(s, e, i);
      if Entry(m.mem, e, i).Absent? {
        TwinsShareable(m.mem, d, e, i);
        ShareLeaves(m.mem, d, e, i);
      }
    }
  }

  /** Regions below SPAN, task 0's, are left alone by every operation of a user task. */
  lemma StepLeavesTaskZero(s: Mem, op: Op, k: int)
    requires Inv(s) && Enabled(s, op) && 0 <= k < SPAN
    ensures SameIn(s, Step(s, op), k)
  {
    hide TablesOk, RolesOk, SharingOk, CountsOk, Entry, CopyDirs, FreeDirs, Store, Verify, GetEmptyPage, TryToShare,
        PutPage, MayCopy;
    match op
    case Forks(p, c, n) => ForkLeaves(s, p, c, n, k);
    case Exits(c, n) => FreeDirsLeave(s, SPAN * c, n, k);
    case Stores(d, i, at, b) => StoreLeaves(s, d, i, at, b);
    case Verifies(d, i) => VerifyLeaves(s, d, i);
    case Touches(d, i) => GetEmptyPageLeaves(s, d, i);
    case Shares(d, e, i) => TryToShareLeaves(s, d, e, i);
    case Places(f, bytes, d, i) => PutPageLeaves(s, f, d, i);
    case KernelGets =>
    case KernelFrees(f) => UnholdKeeps(s, f);
    case KernelFills(f, bytes) => PageKeeps(s, f, bytes);
  }

  lemma VerifyLeaves(s: Mem, d: int, i: int)
    requires Inv(s) && IsSlot(d, i)
    ensures SameEntriesBut(s, Verify(s, d, i).mem, d, i)
  {
    hide TablesOk, RolesOk, SharingOk, CountsOk, UnWpPage;
    if Entry(s, d, i).Page? && !Entry(s, d, i).write { UnWpPageLeaves(s, d, i); }
  }

  lemma ForkLeaves(s: Mem, p: int, c: int, n: nat, k: int)
    requires Inv(s) && MayFork(s, p, c, n) && 0 <= k < ENTRIES && !(SPAN * c <= k < SPAN * c + n)
    requires k < SPAN || !(SPAN * p <= k < SPAN * p + n)
    ensures SameIn(s, Fork(s, p, c, n).mem, k)
  {
    hide TablesOk, RolesOk, SharingOk, CountsOk, Entry, CopyDirs, FreeDirs, MayCopy;
    CopyDirsLeave(s, p, c, n, k);
    var m := CopyDirs(s, p, c, n);
    if m.NoMemory? {
      FreeDirsLeave(m.mem, SPAN * c, n, k);
      SameTwice(s, m.mem, FreeDirs(m.mem, SPAN * c, n), k);
    }
  }

  // ---------------------------------------------------------------- pages shared with task 0

  /** The entry of a page the task has not copied yet names a frame below LOW; its own copy lies above. */
  ghost predicate Low(s: Mem, d: int, i: int)
    requires Shape(s) && IsSlot(d, i)
  {
    Entry(s, d, i).Page? && Entry(s, d, i).frame < LOW
  }

  /** The operation makes the page at (d, i) private: a store there or a write_verify, with a frame to be had. */
  ghost predicate Privatizes(s: Mem, op: Op, d: int, i: int)
    requires Inv(s) && Enabled(s, op)
  {
    ((op.Stores? && op.d == d && op.i == i) || (op.Verifies? && op.d == d && op.i == i)) && Can(s, op)
  }

  /** un_wp_page of a page below LOW replaces it by a copy above. */
  lemma UnWpPageFrame(s: Mem, d: int, i: int)
    requires Inv(s) && IsSlot(d, i) && Entry(s, d, i).Page? && UnWpPage(s, d, i).Ok?
    ensures var e := Entry(UnWpPage(s, d, i).mem, d, i); e.Page? && LOW <= e.frame && e.write
  {
    hide TablesOk, SharingOk, CountsOk, CopyPage;
    var f := Entry(s, d, i).frame;
    assert f < FRAMES;
    if LOW <= f && s.memMap[f - LOW] == 1 { SetWriteKeeps(s, d, i); }
  }

  /** A store leaves the entry's frame alone, unless it makes the page private. */
  lemma StoreFrame(s: Mem, d: int, i: int, at: nat, b: bv8)
    requires Inv(s) && IsSlot(d, i) && at < PAGE_SIZE && Entry(s, d, i).Page?
    ensures var r, e := Store(s, d, i, at, b), Entry(Store(s, d, i, at, b).mem, d, i);
            if r.Stored? then e.Page? && LOW <= e.frame else e == Entry(s, d, i)
  {
    hide TablesOk, RolesOk, CountsOk, UnWpPage, WriteByte, SameViewsBut;
    var e := Entry(s, d, i);
    if e.write {
      WriteByteLeaves(s, d, i, at, b);
    } else if UnWpPage(s, d, i).Ok? {
      UnWpPageFrame(s, d, i);
      WriteByteLeaves(UnWpPage(s, d, i).mem, d, i, at, b);
    }
  }

  lemma VerifyFrame(s: Mem, d: int, i: int)
    requires Inv(s) && IsSlot(d, i) && Entry(s, d, i).Page?
    ensures var r, e := Verify(s, d, i), Entry(Verify(s, d, i).mem, d, i);
            if r.Ok? then e.Page? && LOW <= e.frame else e == Entry(s, d, i)
  {
    hide TablesOk, RolesOk, CountsOk, UnWpPage;
    if !Entry(s, d, i).write && UnWpPage(s, d, i).Ok? { UnWpPageFrame(s, d, i); }
  }

  /** fork names the same frames as before in every region but the child's. */
  lemma ForkFrames(s: Mem, p: int, c: int, n: nat, d: int, i: int)
    requires Inv(s) && Enabled(s, Forks(p, c, n)) && IsSlot(d, i) && Entry(s, d, i).Page?
    ensures NameAt(Fork(s, p, c, n).mem, d, i) == NameAt(s, d, i)
  {
    hide TablesOk, RolesOk, SharingOk, CountsOk, CopyDirs, FreeDirs, MayCopy, ViewAt;
    ForkNeverPanics(s, p, c, n);
    CopyDirsEffect(s, p, c, n);
    if CopyDirs(s, p, c, n).NoMemory? {
      ForkUndone(s, p, c, n);
      assert SameRegion(s, Fork(s, p, c, n).mem, d);
    } else {
      assert SameRegion(s, CopyDirs(s, p, c, n).mem, d);
    }
  }

  /**
   * One operation and the page at (d, i), which is present: unless the task exits, a page
   * below LOW stays where it is exactly when the operation does not make it private, and
   * a page of the task's own never goes below LOW.
   */
  lemma StepFrame(s: Mem, op: Op, d: int, i: int)
    requires Inv(s) && Enabled(s, op) && IsSlot(d, i) && Entry(s, d, i).Page?
    requires !(op.Exits? && SPAN * op.c <= d < SPAN * op.c + op.n)
    ensures Entry(Step(s, op), d, i).Page?
    ensures Low(s, d, i) && !Privatizes(s, op, d, i) ==> NameAt(Step(s, op), d, i) == NameAt(s, d, i)
    ensures !Low(s, d, i) || Privatizes(s, op, d, i) ==> !Low(Step(s, op), d, i)
  {
    var r := Step(s, op);
    if op.Stores? && op.d == d && op.i == i {
      StoreStep(s, op);
    } else if op.Verifies? && op.d == d && op.i == i {
      VerifyStep(s, op);
    } else {
      OtherStep(s, op, d, i);
      hide Inv, Step, Enabled, Entry;
      SameNameSameLow(s, r, d, i);
    }
  }

  lemma SameNameSameLow(s: Mem, r: Mem, d: int, i: int)
    requires Shape(s) && Shape(r) && IsSlot(d, i) && Entry(s, d, i).Page? && NameAt(r, d, i) == NameAt(s, d, i)
    ensures Entry(r, d, i).Page? && Low(r, d, i) == Low(s, d, i)
  {
  }

  lemma StoreStep(s: Mem, op: Op)
    requires Inv(s) && Enabled(s, op) && op.Stores? && Entry(s, op.d, op.i).Page?
    ensures if Can(s, op) then Entry(Step(s, op), op.d, op.i).Page? && !Low(Step(s, op), op.d, op.i)
            else Entry(Step(s, op), op.d, op.i) == Entry(s, op.d, op.i)
  {
    hide TablesOk, RolesOk, SharingOk, CountsOk, Store, Free, Sole;
    StoreIff(s, op.d, op.i, op.at, op.b);
    StoreFrame(s, op.d, op.i, op.at, op.b);
  }

  lemma VerifyStep(s: Mem, op: Op)
    requires Inv(s) && Enabled(s, op) && op.Verifies? && Entry(s, op.d, op.i).Page?
    ensures if Can(s, op) then Entry(Step(s, op), op.d, op.i).Page? && !Low(Step(s, op), op.d, op.i)
            else Entry(Step(s, op), op.d, op.i) == Entry(s, op.d, op.i)
  {
    hide TablesOk, RolesOk, SharingOk, CountsOk, Verify, Free, Sole;
    VerifyIff(s, op.d, op.i);
    VerifyFrame(s, op.d, op.i);
  }

  lemma OtherStep(s: Mem, op: Op, d: int, i: int)
    requires Inv(s) && Enabled(s, op) && IsSlot(d, i) && Entry(s, d, i).Page?
    requires !(op.Exits? && SPAN * op.c <= d < SPAN * op.c + op.n)
    requires !(op.Stores? && op.d == d && op.i == i) && !(op.Verifies? && op.d == d && op.i == i)
    ensures NameAt(Step(s, op), d, i) == NameAt(s, d, i)
  {
    hide TablesOk, RolesOk, SharingOk, CountsOk, Fork, FreeDirs, Store, Verify, GetEmptyPage, TryToShare, PutPage,
        MayCopy;
    match op
    case Forks(p, c, n) => ForkFrames(s, p, c, n, d, i);
    case Exits(c, n) => FreeDirsLeave(s, SPAN * c, n, d);
    case Stores(e, j, at, b) => StoreLeaves(s, e, j, at, b);
    case Verifies(e, j) => VerifyLeaves(s, e, j);
    case Touches(e, j) => GetEmptyPageLeaves(s, e, j);
    case Shares(e, f, j) => TryToShareLeaves(s, e, f, j);
    case Places(f, bytes, e, j) => PutPageLeaves(s, f, e, j);
    case KernelGets =>
    case KernelFrees(f) => UnholdKeeps(s, f);
    case KernelFills(f, bytes) => PageKeeps(s, f, bytes);
  }

  /** Some operation of the run makes the page at (d, i) private. */
  ghost predicate Privatized(s: Mem, ops: seq<Op>, d: int, i: int)
    requires Inv(s) && Runnable(s, ops)
    decreases |ops|
  {
    ops != [] && (Privatizes(s, ops[0], d, i) || Privatized(Step(s, ops[0]), ops[1..], d, i))
  }

  /** Task c does not exit during the run. */
  predicate Lives(ops: seq<Op>, c: int) {
    forall k :: 0 <= k < |ops| ==> !(ops[k].Exits? && ops[k].c == c)
  }

  /** A page below LOW is still the one named at the start of a run exactly when no operation made it private. */
  lemma {:induction false} RunFrame(s: Mem, ops: seq<Op>, d: int, i: int)
    requires Inv(s) && Runnable(s, ops) && Lives(ops, d / SPAN) && IsSlot(d, i) && Entry(s, d, i).Page?
    ensures var r := Run(s, ops);
            && Entry(r, d, i).Page? && (Low(r, d, i) <==> Low(s, d, i) && !Privatized(s, ops, d, i))
            && (Low(r, d, i) ==> NameAt(r, d, i) == NameAt(s, d, i))
    decreases |ops|
  {
    hide Inv, Step, Enabled, Can, Entry, Privatizes;
    InvShape(s);
    if ops != [] {
      NotItsExit(s, ops[0], d);
      StepFrame(s, ops[0], d, i);
      InvShape(Step(s, ops[0]));
      RunFrame(Step(s, ops[0]), ops[1..], d, i);
    }
  }

  lemma NotItsExit(s: Mem, op: Op, d: int)
    requires Inv(s) && Enabled(s, op) && 0 <= d < ENTRIES && !(op.Exits? && op.c == d / SPAN)
    ensures !(op.Exits? && SPAN * op.c <= d < SPAN * op.c + op.n)
  {
    hide TablesOk, RolesOk, SharingOk, CountsOk, MayCopy;
  }

  /** Task 0's entries stay as they are over every run of the others. */
  lemma {:induction false} RunLeavesTaskZero(s: Mem, ops: seq<Op>, i: int)
    requires Inv(s) && Runnable(s, ops) && 0 <= i < ENTRIES
    ensures Entry(Run(s, ops), 0, i) == Entry(s, 0, i)
    decreases |ops|
  {
    hide TablesOk, RolesOk, SharingOk, CountsOk, Step, Enabled, Entry;
    if ops != [] {
      StepLeavesTaskZero(s, ops[0], 0);
      RunLeavesTaskZero(Step(s, ops[0]), ops[1..], i);
    }
  }

  /** A store by task 0 or the kernel, through an entry of task 0's first region. */
  ghost function ZeroWrites(s: Mem, i: int, bytes: seq<bv8>): Mem
    requires Shape(s) && 0 <= i < ENTRIES && Entry(s, 0, i).Page? && Entry(s, 0, i).frame < FRAMES
             && |bytes| == PAGE_SIZE
  {
    s.(page := s.page[Entry(s, 0, i).frame := bytes])
  }

  /** It shows in exactly the entries that name the frame. */
  lemma ZeroWriteShows(s: Mem, i: int, bytes: seq<bv8>, d: int, j: int)
    requires Inv(s) && 0 <= i < ENTRIES && Entry(s, 0, i).Page? && Entry(s, 0, i).frame < LOW && |bytes| == PAGE_SIZE
    requires s.page[Entry(s, 0, i).frame] != bytes && IsSlot(d, j)
    ensures Inv(ZeroWrites(s, i, bytes))
    ensures ViewAt(ZeroWrites(s, i, bytes), d, j) != ViewAt(s, d, j) <==> Names(s, d, j, Entry(s, 0, i).frame)
  {
    PageKeeps(s, Entry(s, 0, i).frame, bytes);
  }

  /** What the first fork does with one of the 160 pages: the child gets it read-only, and task 0 keeps it as it was. */
  lemma FirstForkShares(s: Mem, c: int, i: int)
    requires Inv(s) && MayFork(s, 0, c, 1) && NoChild(s, c, 1) && Fork(s, 0, c, 1).Ok? && 0 <= i < 160
             && Entry(s, 0, i).Page?
    ensures var r := Fork(s, 0, c, 1).mem;
            && Entry(r, 0, i) == Entry(s, 0, i) && Entry(s, 0, i).frame < LOW
            && Names(r, SPAN * c, i, Entry(s, 0, i).frame) && !Entry(r, SPAN * c, i).write
  {
    hide TablesOk, RolesOk, CountsOk, CopyDirs, FreeDirs;
    var r := Fork(s, 0, c, 1).mem;
    ForkLeaves(s, 0, c, 1, 0);
    CopyDirsEffect(s, 0, c, 1);
    assert Copied(s, 0, CopyDirs(s, 0, c, 1).mem, c, 0);
    assert NameAt(r, SPAN * c, i) == NameAt(s, 0, i);
    assert IsSlot(SPAN * c, i);
  }

  /**
   * fork by task 0 is no copy: after it, and after any run of the user tasks in which the
   * child does not exit, a write by task 0 into one of the 160 pages changes what the child
   * sees there exactly when nothing has made that page of the child private.
   */
  lemma FirstForkIsNoCopy(s: Mem, c: int, i: int, ops: seq<Op>, bytes: seq<bv8>)
    requires Inv(s) && MayFork(s, 0, c, 1) && NoChild(s, c, 1) && Fork(s, 0, c, 1).Ok? && 0 <= i < 160
    requires Entry(s, 0, i).Page? && Entry(s, 0, i).write && |bytes| == PAGE_SIZE
    requires Runnable(Fork(s, 0, c, 1).mem, ops) && Lives(ops, c)
    requires var m := Run(Fork(s, 0, c, 1).mem, ops); m.page[Entry(s, 0, i).frame] != bytes
    ensures var r := Fork(s, 0, c, 1).mem; var m := Run(r, ops);
            && Entry(m, 0, i) == Entry(s, 0, i) && Inv(ZeroWrites(m, i, bytes))
            && (ViewAt(ZeroWrites(m, i, bytes), SPAN * c, i) != ViewAt(m, SPAN * c, i) <==>
               !Privatized(r, ops, SPAN * c, i))
  {
    FirstForkShares(s, c, i);
    var r, f := Fork(s, 0, c, 1).mem, Entry(s, 0, i).frame;
    assert SPAN * c / SPAN == c;
    hide TablesOk, RolesOk, SharingOk, CountsOk, Fork, Run, Runnable, Privatized, MayCopy;
    RunLeavesTaskZero(r, ops, i);
    RunFrame(r, ops, SPAN * c, i);
    var m := Run(r, ops);
    ZeroWriteShows(m, i, bytes, SPAN * c, i);
  }

  /** Task 0 forks task 1, then writes bytes into its page i, and task 1 sees them. */
  ghost predicate ShowsAfterFork(s: Mem, i: int, bytes: seq<bv8>)
    requires 0 <= i < 160 && |bytes| == PAGE_SIZE
  {
    && Inv(s) && MayFork(s, 0, 1, 1) && Fork(s, 0, 1, 1).Ok? && var r := Fork(s, 0, 1, 1).mem;
    && Entry(r, 0, i).Page? && Entry(r, 0, i).frame < LOW && Entry(r, 0, i).write && Shape(ZeroWrites(r, i, bytes))
    && ViewAt(r, SPAN, i) != Bytes(bytes) && ViewAt(ZeroWrites(r, i, bytes), SPAN, i) == Bytes(bytes)
  }

  /** So it is with page 100 right after boot, whatever memory holds. */
  lemma FirstForkIsNoCopyAt(start: nat, end: nat, page: seq<seq<bv8>>, bytes: seq<bv8>)
    requires LOW <= start < end <= FRAMES && |page| == FRAMES
             && (forall f :: 0 <= f < FRAMES ==> |page[f]| == PAGE_SIZE)
    requires |bytes| == PAGE_SIZE && page[100] != bytes
    ensures ShowsAfterFork(Booted(start, end, page), 100, bytes)
  {
    var s := Booted(start, end, page);
    BootedIsFine(start, end, page);
    BootForks(s, start, page);
    hide Booted;
    AfterBoot(s, page[100], bytes);
  }

  lemma AfterBoot(s: Mem, was: seq<bv8>, bytes: seq<bv8>)
    requires Inv(s) && MayFork(s, 0, 1, 1) && NoChild(s, 1, 1) && Fork(s, 0, 1, 1).Ok?
             && Fork(s, 0, 1, 1).mem.page[100] == was != bytes
    requires |bytes| == PAGE_SIZE && Entry(s, 0, 100) == Page(100, true, false)
    ensures ShowsAfterFork(s, 100, bytes)
  {
    hide TablesOk, RolesOk, SharingOk, CountsOk, Fork, MayCopy;
    FirstForkShares(s, 1, 100);
    ZeroWriteShows(Fork(s, 0, 1, 1).mem, 100, bytes, SPAN, 100);
  }

  /** There is a frame for the child's table, and memory below LOW is as it was. */
  lemma BootForks(s: Mem, start: nat, page: seq<seq<bv8>>)
    requires Inv(s) && LOW <= start < FRAMES && s.memMap[start - LOW] == 0 && s.page == page
    requires (forall d :: SPAN <= d < ENTRIES ==> s.dir[d] == NoTable)
    requires forall i :: 0 <= i < ENTRIES ==> Entry(s, 0, i) == Page(i, true, false)
    ensures MayFork(s, 0, 1, 1) && NoChild(s, 1, 1) && Fork(s, 0, 1, 1).Ok?
            && Fork(s, 0, 1, 1).mem.page[100] == page[100]
  {
    hide TablesOk, RolesOk, SharingOk, CountsOk, CopyEntries;
    assert IsFree(s, start) && start in Free(s);
    assert Tables(s, 0, 1) <= 1 by { assert Tables(s, 0, 0) == 0; }
    assert |Free(s)| >= 1;
    ForkIff(s, 0, 1, 1);
    CopyNoDirs(s, 0, 1);
    CopyDirsLast(s, 0, 1, 1);
    assert CopyDirs(s, 0, 1, 1).mem.page[100] == s.page[100];
  }
}
