/**
 The dirty bit of page table entries: what write-protecting leaves of an entry, and why a page
 that a task has written is never shared with another that runs the same program.
 */
module DirtyPages {
  import opened PageFrames
  import opened CopyOnWrite
  import opened PageFaults
  import opened FrameSupply
  import opened EagerCopy
  import opened LowMemory

  // ---------------------------------------------------------------- protecting an entry

  /** Both entries are absent, or they name the same frame and are both dirty or both clean. */
  predicate Alike(p: Pte, q: Pte) {
    if p.Absent? then q.Absent? else q.Page? && q.frame == p.frame && q.dirty == p.dirty
  }

  predicate Writable(p: Pte) { p.Page? && p.write }

  predicate Counted(p: Pte) { p.Page? && LOW <= p.frame }

  predicate Dirty(p: Pte) { p.Page? && p.dirty }

  /**
   * Sharing gives the new entry frame and dirty bit of the old one; neither is writable, but below
   * LOW the old stays.
   */
  lemma ShareMarks(s: Mem, d: int, e: int, i: int)
    requires Inv(s) && Shareable(s, d, e, i)
    ensures var r, p := Share(s, d, e, i), Entry(s, d, i);
            && Shape(r) && Alike(p, Entry(r, e, i)) && !Writable(Entry(r, e, i)) && Alike(p, Entry(r, d, i))
            && (if Counted(p) then !Writable(Entry(r, d, i)) else Entry(r, d, i) == p)
  {
    hide RolesOk, SharingOk, CountsOk;
    var p := ReadOnly(Entry(s, d, i));
    SetEntryLocal(s, e, i, p);
    if LOW <= p.frame { SetEntryLocal(SetEntry(s, e, i, p), d, i, p); }
  }

  lemma CopyEntryMarks(s: Mem, d: int, e: int, i: nat)
    requires Inv(s) && i < ENTRIES && MayCopy(s, d, e, i + 1) && s.dir[e].Table? && Entry(s, e, i) == Absent
    ensures var r, p := CopyEntry(s, d, e, i), Entry(s, d, i);
            && Alike(p, Entry(r, e, i)) && !Writable(Entry(r, e, i)) && Alike(p, Entry(r, d, i))
            && (Counted(p) ==> !Writable(Entry(r, d, i)))
  {
    hide TablesOk, SharingOk, Share;
    if Entry(s, d, i).Page? { ShareMarks(s, d, e, i); }
  }

  /**
   * Region e of r has the first n entries of region d of s, protected, and those of them that
   * are counted are protected in region d as well; frames and dirty bits are as in s elsewhere.
   */
  ghost predicate Protected(s: Mem, r: Mem, d: int, e: int, n: int)
    requires Shape(s) && Shape(r) && 0 <= d < ENTRIES && 0 <= e < ENTRIES && n <= ENTRIES
  {
    && (forall c, j :: 0 <= c < ENTRIES && 0 <= j < ENTRIES && c != e ==> Alike(Entry(s, c, j), Entry(r, c, j)))
    && (forall j :: 0 <= j < n ==> Alike(Entry(s, d, j), Entry(r, e, j)) && !Writable(Entry(r, e, j)))
    && (forall j :: 0 <= j < n && Counted(Entry(s, d, j)) ==> !Writable(Entry(r, d, j)))
  }

  lemma {:induction false} CopyEntriesMarks(s: Mem, d: int, e: int, n: nat)
    requires Inv(s) && n <= ENTRIES && MayCopy(s, d, e, n) && s.dir[e].Table? && Blank(s, e, 0)
    ensures Protected(s, CopyEntries(s, d, e, n), d, e, n)
  {
    hide TablesOk, RolesOk, SharingOk, CountsOk, CopyEntry;
    if n > 0 {
      CopyEntriesMarks(s, d, e, n - 1);
      var m := CopyEntries(s, d, e, n - 1);
      var r := CopyEntry(m, d, e, n - 1);
      CopyEntryMarks(m, d, e, n - 1);
      OneMore(s, m, r, d, e, n - 1);
    }
  }

  lemma OneMore(s: Mem, m: Mem, r: Mem, d: int, e: int, i: nat)
    requires Shape(s) && Shape(m) && Shape(r) && 0 <= d < ENTRIES && 0 <= e < ENTRIES && d != e && i < ENTRIES
    requires Protected(s, m, d, e, i)
    requires forall c, j :: 0 <= c < ENTRIES && 0 <= j < ENTRIES && (c != e || j != i) && (c != d || j != i) ==>
               Entry(r, c, j) == Entry(m, c, j)
    requires var p := Entry(m, d, i);
             && Alike(p, Entry(r, e, i)) && !Writable(Entry(r, e, i)) && Alike(p, Entry(r, d, i))
             && (Counted(p) ==> !Writable(Entry(r, d, i)))
    ensures Protected(s, r, d, e, i + 1)
  {
    hide Entry, Shape;
    assert Alike(Entry(s, d, i), Entry(m, d, i));
  }

  /** Frames and dirty bits of region c are the same. */
  ghost predicate AlikeIn(s: Mem, r: Mem, c: int)
    requires Shape(s) && Shape(r) && 0 <= c < ENTRIES
  {
    forall j :: 0 <= j < ENTRIES ==> Alike(Entry(s, c, j), Entry(r, c, j))
  }

  /** The first nr entries of region d of s are those of region e of r, and writable in neither, if counted. */
  ghost predicate ProtectedIn(s: Mem, r: Mem, d: int, e: int, nr: int)
    requires Shape(s) && Shape(r) && 0 <= d < ENTRIES && 0 <= e < ENTRIES && nr <= ENTRIES
  {
    forall j :: 0 <= j < nr ==>
      && Alike(Entry(s, d, j), Entry(r, e, j)) && !Writable(Entry(r, e, j))
      && (Counted(Entry(s, d, j)) ==> !Writable(Entry(r, d, j)))
  }

  lemma CopyDirMarks(s: Mem, d: int, e: int, nr: nat)
    requires Inv(s) && nr <= ENTRIES && MayCopy(s, d, e, nr)
    ensures var r := CopyDir(s, d, e, nr);
            && (forall c :: 0 <= c < ENTRIES && c != e ==> AlikeIn(s, r.mem, c))
            && (r.Ok? ==> ProtectedIn(s, r.mem, d, e, nr))
  {
    hide TablesOk, RolesOk, SharingOk, CountsOk, CopyEntries, NewTable;
    if s.dir[e].NoTable? && s.dir[d].Table? && !OutOfFrames(s) {
      var m := NewTable(s, e);
      CopyEntriesMarks(m, d, e, nr);
      var r := CopyEntries(m, d, e, nr);
      assert Protected(m, r, d, e, nr);
      forall c | 0 <= c < ENTRIES && c != e ensures AlikeIn(s, r, c) {
        forall j | 0 <= j < ENTRIES ensures Alike(Entry(s, c, j), Entry(r, c, j)) {
          assert Entry(m, c, j) == Entry(s, c, j);
        }
      }
      forall j | 0 <= j < nr
        ensures Alike(Entry(s, d, j), Entry(r, e, j)) && !Writable(Entry(r, e, j))
            && (Counted(Entry(s, d, j)) ==> !Writable(Entry(r, d, j)))
      {
        assert Entry(m, d, j) == Entry(s, d, j);
      }
    }
  }

  lemma AlikeTwice(s: Mem, m: Mem, r: Mem, c: int)
    requires Shape(s) && Shape(m) && Shape(r) && 0 <= c < ENTRIES && AlikeIn(s, m, c) && AlikeIn(m, r, c)
    ensures AlikeIn(s, r, c)
  {
    hide Entry, Shape;
  }

  lemma ProtectedLater(s: Mem, m: Mem, r: Mem, d: int, e: int, nr: int)
    requires Shape(s) && Shape(m) && Shape(r) && 0 <= d < ENTRIES && 0 <= e < ENTRIES && nr <= ENTRIES
    requires ProtectedIn(s, m, d, e, nr) && SameIn(m, r, d) && SameIn(m, r, e)
    ensures ProtectedIn(s, r, d, e, nr)
  {
    hide Entry, Shape;
  }

  lemma ProtectedSince(s: Mem, m: Mem, r: Mem, d: int, e: int, nr: int)
    requires Shape(s) && Shape(m) && Shape(r) && 0 <= d < ENTRIES && 0 <= e < ENTRIES && nr <= ENTRIES
    requires AlikeIn(s, m, d) && ProtectedIn(m, r, d, e, nr)
    ensures ProtectedIn(s, r, d, e, nr)
  {
    hide Entry, Shape;
  }

  /** Region k of the child is that of the parent, protected, as is the parent's where it is counted. */
  ghost predicate Inherits(s: Mem, r: Mem, p: int, c: int, k: int)
    requires Shape(s) && Shape(r) && 0 <= p < TASKS && 0 <= c < TASKS && 0 <= k < SPAN
  {
    ProtectedIn(s, r, SPAN * p + k, SPAN * c + k, PagesOf(p))
  }

  /** copy_page_tables keeps frame and dirty bit of every entry outside the child, and hands both on to the child. */
  lemma {:induction false} CopyDirsMarks(s: Mem, p: int, c: int, n: nat)
    requires Inv(s) && MayFork(s, p, c, n)
    ensures var r := CopyDirs(s, p, c, n);
            && (forall k :: 0 <= k < ENTRIES && !(SPAN * c <= k < SPAN * c + n) ==> AlikeIn(s, r.mem, k))
            && (r.Ok? ==> forall k :: 0 <= k < n ==> Inherits(s, r.mem, p, c, k))
  {
    hide TablesOk, RolesOk, SharingOk, CountsOk, CopyDir, CopyDirs, MayCopy, Entry;
    if n == 0 {
      CopyNoDirs(s, p, c);
    } else {
      CopyDirsMarks(s, p, c, n - 1);
      CopyDirsLast(s, p, c, n);
      var m := CopyDirs(s, p, c, n - 1);
      if m.Ok? { OneDirMore(s, m.mem, p, c, n); }
    }
  }

  lemma OneDirMore(s: Mem, m: Mem, p: int, c: int, n: nat)
    requires Inv(s) && Inv(m) && MayFork(s, p, c, n) && n > 0
    requires forall k :: 0 <= k < ENTRIES && !(SPAN * c <= k < SPAN * c + n - 1) ==> AlikeIn(s, m, k)
    requires forall k :: 0 <= k < n - 1 ==> Inherits(s, m, p, c, k)
    requires MayCopy(m, SPAN * p + (n - 1), SPAN * c + (n - 1), PagesOf(p))
    ensures var r := CopyDir(m, SPAN * p + (n - 1), SPAN * c + (n - 1), PagesOf(p));
            && (forall k :: 0 <= k < ENTRIES && !(SPAN * c <= k < SPAN * c + n) ==> AlikeIn(s, r.mem, k))
            && (r.Ok? ==> forall k :: 0 <= k < n ==> Inherits(s, r.mem, p, c, k))
  {
    hide TablesOk, RolesOk, SharingOk, CountsOk, CopyDir, MayCopy, Entry, AlikeIn, ProtectedIn;
    var d, e := SPAN * p + (n - 1), SPAN * c + (n - 1);
    var r := CopyDir(m, d, e, PagesOf(p));
    CopyDirMarks(m, d, e, PagesOf(p));
    forall k | 0 <= k < ENTRIES && !(SPAN * c <= k < SPAN * c + n) ensures AlikeIn(s, r.mem, k) {
      AlikeTwice(s, m, r.mem, k);
    }
    if r.Ok? {
      forall k | 0 <= k < n ensures Inherits(s, r.mem, p, c, k) {
        if k < n - 1 {
          assert Inherits(s, m, p, c, k);
          CopyDirLeaves(m, d, e, PagesOf(p), SPAN * p + k);
          CopyDirLeaves(m, d, e, PagesOf(p), SPAN * c + k);
          ProtectedLater(s, m, r.mem, SPAN * p + k, SPAN * c + k, PagesOf(p));
        } else {
          ProtectedSince(s, m, r.mem, d, e, PagesOf(p));
        }
      }
    }
  }

  /** fork, whether it succeeds or not. */
  lemma ForkMarks(s: Mem, p: int, c: int, n: nat)
    requires Inv(s) && MayFork(s, p, c, n)
    ensures var r := Fork(s, p, c, n);
            && (forall k :: 0 <= k < ENTRIES && !(SPAN * c <= k < SPAN * c + n) ==> AlikeIn(s, r.mem, k))
            && (r.Ok? ==> forall k :: 0 <= k < n ==> Inherits(s, r.mem, p, c, k))
  {
    hide TablesOk, RolesOk, SharingOk, CountsOk, CopyDirs, FreeDirs, MayCopy, Entry, AlikeIn, Inherits, SameIn;
    CopyDirsMarks(s, p, c, n);
    var m := CopyDirs(s, p, c, n);
    if m.NoMemory? {
      var r := FreeDirs(m.mem, SPAN * c, n);
      forall k | 0 <= k < ENTRIES && !(SPAN * c <= k < SPAN * c + n) ensures AlikeIn(s, r, k) {
        FreeDirsLeave(m.mem, SPAN * c, n, k);
        SameAlike(m.mem, r, k);
        AlikeTwice(s, m.mem, r, k);
      }
    }
  }

  lemma SameAlike(s: Mem, r: Mem, c: int)
    requires Shape(s) && Shape(r) && 0 <= c < ENTRIES && SameIn(s, r, c)
    ensures AlikeIn(s, r, c)
  {
    hide Entry, Shape;
  }

  // ---------------------------------------------------------------- the other operations

  lemma ShareIntoMarks(s: Mem, d: int, e: int, i: int)
    requires Inv(s) && Twins(d, e) && 0 <= i < ENTRIES && HasTable(s, e)
    requires Entry(s, d, i).Page? && LOW <= Entry(s, d, i).frame
    ensures var r := ShareInto(s, d, e, i);
            && Alike(Entry(s, d, i), Entry(r.mem, d, i))
            && (forall c, j :: 0 <= c < ENTRIES && 0 <= j < ENTRIES && (c != e || j != i) && (c != d || j != i) ==>
                  Entry(r.mem, c, j) == Entry(s, c, j))
            && (if r.Shared? then Alike(Entry(s, d, i), Entry(r.mem, e, i)) && !Writable(Entry(r.mem, e, i))
                                  && !Writable(Entry(r.mem, d, i))
                else r.mem == s)
            && (r.Shared? <==> Entry(s, e, i).Absent?)
  {
    hide TablesOk, SharingOk, CountsOk, Share, SameViewsBut;
    if Entry(s, e, i).Absent? {
      TwinsShareable(s, d, e, i);
      ShareMarks(s, d, e, i);
      ShareLeaves(s, d, e, i);
    }
  }

  /** try_to_share: the new entry is like the old one, neither is writable, and all others stay. */
  lemma TryToShareMarks(s: Mem, d: int, e: int, i: int, c: int, j: int)
    requires Inv(s) && Twins(d, e) && 0 <= i < ENTRIES && IsSlot(c, j)
    ensures var r := TryToShare(s, d, e, i);
            && (Entry(s, c, j).Page? ==> Alike(Entry(s, c, j), Entry(r.mem, c, j)))
            && (r.Shared? ==>
                  Alike(Entry(s, d, i), Entry(r.mem, e, i)) && !Writable(Entry(r.mem, e, i))
                  && !Writable(Entry(r.mem, d, i)))
  {
    hide TablesOk, SharingOk, CountsOk, WithTable, ShareInto;
    var from := Entry(s, d, i);
    var m := WithTable(s, e);
    if !(from.Absent? || from.dirty || from.frame >= s.high || from.frame < LOW) && m.Ok? {
      assert Entry(m.mem, d, i) == from && Entry(m.mem, e, i) == Entry(s, e, i) && Entry(m.mem, c, j) == Entry(s, c, j);
      ShareIntoMarks(m.mem, d, e, i);
    }
  }

  /** un_wp_page keeps the dirty bit of a page that is the task's own; a copy is clean. */
  lemma UnWpPageMarks(s: Mem, d: int, i: int)
    requires Inv(s) && IsSlot(d, i) && Entry(s, d, i).Page? && UnWpPage(s, d, i).Ok?
    ensures var q := Entry(UnWpPage(s, d, i).mem, d, i);
            q.Page? && q.write && (if Sole(s, d, i) then Alike(Entry(s, d, i), q) else !q.dirty)
  {
    hide TablesOk, SharingOk, CountsOk, CopyPage;
    var f := Entry(s, d, i).frame;
    assert f < FRAMES;
    if LOW <= f { CountOneIsSole(s, d, i); }
    if LOW <= f && s.memMap[f - LOW] == 1 { SetWriteKeeps(s, d, i); }
  }

  /** Something has been stored at (d, i). */
  ghost predicate Soils(s: Mem, op: Op, d: int, i: int)
    requires Inv(s) && Enabled(s, op)
  {
    op.Stores? && op.d == d && op.i == i && Can(s, op)
  }

  /** write_verify replaces the page at (d, i), which is shared or below LOW, by a copy of the task's own. */
  ghost predicate Renews(s: Mem, op: Op, d: int, i: int)
    requires Inv(s) && Enabled(s, op) && IsSlot(d, i) && Entry(s, d, i).Page?
  {
    op.Verifies? && op.d == d && op.i == i && !Entry(s, d, i).write && !Sole(s, d, i) && Free(s) != {}
  }

  lemma StoreMarks(s: Mem, op: Op)
    requires Inv(s) && Enabled(s, op) && op.Stores? && Entry(s, op.d, op.i).Page?
    ensures var q := Entry(Step(s, op), op.d, op.i);
            if Can(s, op) then Dirty(q) && Writable(q) else q == Entry(s, op.d, op.i)
  {
    hide TablesOk, RolesOk, SharingOk, CountsOk, UnWpPage, WriteByte, Free, Sole, SameViewsBut;
    var d, i := op.d, op.i;
    StoreIff(s, d, i, op.at, op.b);
    if Entry(s, d, i).write {
      WriteByteLeaves(s, d, i, op.at, op.b);
    } else if UnWpPage(s, d, i).Ok? {
      WriteByteLeaves(UnWpPage(s, d, i).mem, d, i, op.at, op.b);
    }
  }

  lemma VerifyMarks(s: Mem, op: Op)
    requires Inv(s) && Enabled(s, op) && op.Verifies? && Entry(s, op.d, op.i).Page?
    ensures var p, q := Entry(s, op.d, op.i), Entry(Step(s, op), op.d, op.i);
            if Renews(s, op, op.d, op.i) then q.Page? && !q.dirty else Alike(p, q)
  {
    hide TablesOk, RolesOk, SharingOk, CountsOk, UnWpPage, Free, Sole;
    UnWpPageIff(s, op.d, op.i);
    if !Entry(s, op.d, op.i).write && UnWpPage(s, op.d, op.i).Ok? { UnWpPageMarks(s, op.d, op.i); }
  }

  /** Every other operation leaves a present entry its frame and its dirty bit. */
  lemma OtherMarks(s: Mem, op: Op, d: int, i: int)
    requires Inv(s) && Enabled(s, op) && IsSlot(d, i) && Entry(s, d, i).Page?
    requires !(op.Exits? && SPAN * op.c <= d < SPAN * op.c + op.n)
    requires !(op.Stores? && op.d == d && op.i == i) && !(op.Verifies? && op.d == d && op.i == i)
    ensures Alike(Entry(s, d, i), Entry(Step(s, op), d, i))
  {
    hide TablesOk, RolesOk, SharingOk, CountsOk, Fork, FreeDirs, Store, Verify, GetEmptyPage, TryToShare, PutPage,
        MayCopy;
    match op
    case Forks(p, c, n) => NotTheChild(s, c, n, d, i); ForkMarks(s, p, c, n); assert AlikeIn(s, Step(s, op), d);
    case Exits(c, n) => FreeDirsLeave(s, SPAN * c, n, d);
    case Stores(e, j, at, b) => StoreLeaves(s, e, j, at, b);
    case Verifies(e, j) => VerifyLeaves(s, e, j);
    case Touches(e, j) => GetEmptyPageLeaves(s, e, j);
    case Shares(e, f, j) => TryToShareMarks(s, e, f, j, d, i);
    case Places(f, bytes, e, j) => PutPageLeaves(s, f, e, j);
    case KernelGets =>
    case KernelFrees(f) => UnholdKeeps(s, f);
    case KernelFills(f, bytes) => PageKeeps(s, f, bytes);
  }

  lemma NotTheChild(s: Mem, c: int, n: nat, d: int, i: int)
    requires Shape(s) && 1 <= c < TASKS && n <= SPAN && NoChild(s, c, n) && IsSlot(d, i) && Entry(s, d, i).Page?
    ensures !(SPAN * c <= d < SPAN * c + n)
  {
  }

  // ---------------------------------------------------------------- whole runs

  /**
   * One operation and a present page of a task that does not exit: it is dirty afterwards exactly
   * when something was stored there, or it was dirty and write_verify did not replace it.
   */
  lemma StepMarks(s: Mem, op: Op, d: int, i: int)
    requires Inv(s) && Enabled(s, op) && IsSlot(d, i) && Entry(s, d, i).Page?
    requires !(op.Exits? && SPAN * op.c <= d < SPAN * op.c + op.n)
    ensures var q := Entry(Step(s, op), d, i);
            q.Page? && (q.dirty <==> Soils(s, op, d, i) || (Entry(s, d, i).dirty && !Renews(s, op, d, i)))
  {
    hide TablesOk, RolesOk, SharingOk, CountsOk, Step, Can, Free, Sole;
    if op.Stores? && op.d == d && op.i == i { StoreMarks(s, op); }
    else if op.Verifies? && op.d == d && op.i == i { VerifyMarks(s, op); }
    else { OtherMarks(s, op, d, i); }
  }

  /** Something was stored at (d, i) and write_verify has not replaced the page since. */
  ghost predicate Written(s: Mem, ops: seq<Op>, d: int, i: int, was: bool)
    requires Inv(s) && Runnable(s, ops) && Lives(ops, d / SPAN) && IsSlot(d, i) && Entry(s, d, i).Page?
    decreases |ops|
  {
    hide Inv, Step, Enabled, Can, Soils, Renews;
    if ops == [] then was
    else
      StaysPresent(s, ops[0], d, i);
      var now := Soils(s, ops[0], d, i) || (was && !Renews(s, ops[0], d, i));
      Written(Step(s, ops[0]), ops[1..], d, i, now)
  }

  lemma StaysPresent(s: Mem, op: Op, d: int, i: int)
    requires Inv(s) && Enabled(s, op) && IsSlot(d, i) && Entry(s, d, i).Page? && !(op.Exits? && op.c == d / SPAN)
    ensures Entry(Step(s, op), d, i).Page?
  {
    hide Step, Enabled, Soils, Renews, TablesOk, RolesOk, SharingOk, CountsOk;
    NotItsExit(s, op, d);
    StepMarks(s, op, d, i);
  }

  /** Over every run in which the task lives on, a page is dirty exactly when it has been written to. */
  lemma {:induction false} RunMarks(s: Mem, ops: seq<Op>, d: int, i: int)
    requires Inv(s) && Runnable(s, ops) && Lives(ops, d / SPAN) && IsSlot(d, i) && Entry(s, d, i).Page?
    ensures var q := Entry(Run(s, ops), d, i); q.Page? && (q.dirty <==> Written(s, ops, d, i, Entry(s, d, i).dirty))
    decreases |ops|
  {
    hide Step, Enabled, Can, Soils, Renews, TablesOk, RolesOk, SharingOk, CountsOk;
    if ops != [] {
      NotItsExit(s, ops[0], d);
      StepMarks(s, ops[0], d, i);
      StaysPresent(s, ops[0], d, i);
      hide Inv, Entry;
      RunMarks(Step(s, ops[0]), ops[1..], d, i);
    }
  }

  /** Some write_verify of the run replaces the page at (d, i). */
  ghost predicate Renewed(s: Mem, ops: seq<Op>, d: int, i: int)
    requires Inv(s) && Runnable(s, ops) && Lives(ops, d / SPAN) && IsSlot(d, i) && Entry(s, d, i).Page?
    decreases |ops|
  {
    hide Inv, Step, Enabled, Can, Renews;
    if ops == [] then false
    else
      StaysPresent(s, ops[0], d, i);
      Renews(s, ops[0], d, i) || Renewed(Step(s, ops[0]), ops[1..], d, i)
  }

  lemma {:induction false} DirtyStays(s: Mem, ops: seq<Op>, d: int, i: int)
    requires Inv(s) && Runnable(s, ops) && Lives(ops, d / SPAN) && IsSlot(d, i) && Entry(s, d, i).Page?
    requires Entry(s, d, i).dirty && !Renewed(s, ops, d, i)
    ensures Dirty(Entry(Run(s, ops), d, i))
    decreases |ops|
  {
    hide Step, Enabled, Can, Soils, Renews, TablesOk, RolesOk, SharingOk, CountsOk;
    if ops != [] {
      NotItsExit(s, ops[0], d);
      StepMarks(s, ops[0], d, i);
      StaysPresent(s, ops[0], d, i);
      hide Inv, Entry;
      DirtyStays(Step(s, ops[0]), ops[1..], d, i);
    }
  }

  /**
   * Once a task has stored into a page, no other gets it from try_to_share: not after any run
   * of forks, faults, sharings and exits of others, unless write_verify has replaced the page.
   */
  lemma WrittenIsNeverShared(s: Mem, d: int, i: int, at: nat, b: bv8, ops: seq<Op>, e: int)
    requires Inv(s) && Enabled(s, Stores(d, i, at, b)) && Can(s, Stores(d, i, at, b)) && Twins(d, e)
    requires var s1 := Step(s, Stores(d, i, at, b));
             && Entry(s1, d, i).Page? && Runnable(s1, ops) && Lives(ops, d / SPAN) && !Renewed(s1, ops, d, i)
    ensures var r := Run(Step(s, Stores(d, i, at, b)), ops); TryToShare(r, d, e, i) == Refused(r)
  {
    hide TablesOk, RolesOk, SharingOk, CountsOk, Step, Renewed, Free, Sole, Run, Runnable;
    StoreMarks(s, Stores(d, i, at, b));
    DirtyStays(Step(s, Stores(d, i, at, b)), ops, d, i);
  }

  // ---------------------------------------------------------------- a copy made by write_verify is clean

  /** Page 0 of task 1, or of its child, is there with b in its first byte; n frames are free; task 3 has no page 0. */
  ghost predicate Ready(s: Mem, d: int, b: bv8, n: nat)
    requires d == SPAN || d == 2 * SPAN
  {
    && Inv(s) && Counted(Entry(s, d, 0)) && Shows(ViewAt(s, d, 0), b) && |Free(s)| >= n
    && Entry(s, 3 * SPAN, 0) == Absent
  }

  predicate Shows(v: View, b: bv8) { v.Bytes? && v.bytes != [] && v.bytes[0] == b }

  /** get_empty_page for page 0 of task 1, right after boot. */
  lemma FirstTouch(s: Mem)
    requires Inv(s) && |Free(s)| >= 5 && forall d :: SPAN <= d < ENTRIES ==> s.dir[d] == NoTable
    ensures Enabled(s, Touches(SPAN, 0)) && var r := Step(s, Touches(SPAN, 0));
            Ready(r, SPAN, 0, 3) && Writable(Entry(r, SPAN, 0)) && r.dir[2 * SPAN] == NoTable && r.dir[SPAN].Table?
  {
    hide TablesOk, RolesOk, SharingOk, CountsOk, GetEmptyPage, Free, Occupied;
    assert Entry(s, SPAN, 0) == Absent && Entry(s, 3 * SPAN, 0) == Absent;
    assert !Occupied(s, SPAN, 0) by { OccupiedIs(s, SPAN, 0); }
    GetEmptyPageIff(s, SPAN, 0);
    GetEmptyPageDoes(s, SPAN, 0);
    GetEmptyPageTakes(s, SPAN, 0);
    GetEmptyPageLeaves(s, SPAN, 0);
    EmptyPageIsOwn(s, SPAN, 0);
    OccupiedIs(GetEmptyPage(s, SPAN, 0).mem, SPAN, 0);
    assert ZeroPage()[0] == 0;
  }

  lemma OccupiedIs(s: Mem, d: int, i: int)
    requires Shape(s) && IsSlot(d, i)
    ensures Occupied(s, d, i) <==> Counted(Entry(s, d, i))
  {
  }

  lemma EmptyPageIsOwn(s: Mem, d: int, i: int)
    requires Inv(s) && IsSlot(d, i) && GetEmptyPage(s, d, i).Ok? && Entry(s, d, i).Absent?
    ensures var r := GetEmptyPage(s, d, i).mem;
            Writable(Entry(r, d, i)) && r.dir == s.dir[d := r.dir[d]] && r.dir[d].Table?
  {
    hide RolesOk, SharingOk, CountsOk, NewTable;
    var f := FreeFrame(s);
    var s1 := Alloc(s, f);
    var m := WithTable(s1, d).mem;
    SetEntryLocal(m, d, i, Page(f, true, false));
  }

  /** A store into it. */
  lemma FirstStore(s: Mem, b: bv8)
    requires Ready(s, SPAN, 0, 3) && Writable(Entry(s, SPAN, 0)) && s.dir[2 * SPAN] == NoTable && s.dir[SPAN].Table?
    ensures var op := Stores(SPAN, 0, 0, b); Enabled(s, op) && Can(s, op) && var r := Step(s, op);
            Ready(r, SPAN, b, 3) && Dirty(Entry(r, SPAN, 0)) && r.dir == s.dir
  {
    hide TablesOk, RolesOk, SharingOk, CountsOk, Sole;
    var op := Stores(SPAN, 0, 0, b);
    StoreIff(s, SPAN, 0, 0, b);
    WriteByteLeaves(s, SPAN, 0, 0, b);
    var r := WriteByte(s, SPAN, 0, 0, b);
    assert r.memMap == s.memMap && r.dir == s.dir;
    forall f | LOW <= f < FRAMES ensures IsFree(r, f) <==> IsFree(s, f) {}
    assert Free(r) == Free(s);
  }

  /** A fork of task 1 into task 2. */
  lemma FirstFork(s: Mem, b: bv8)
    requires Ready(s, SPAN, b, 3) && Dirty(Entry(s, SPAN, 0)) && s.dir[2 * SPAN] == NoTable && s.dir[SPAN].Table?
    ensures Enabled(s, Forks(1, 2, 1)) && var r := Step(s, Forks(1, 2, 1));
            && Ready(r, 2 * SPAN, b, 2) && Dirty(Entry(r, 2 * SPAN, 0)) && !Writable(Entry(r, 2 * SPAN, 0))
            && !Sole(r, 2 * SPAN, 0)
  {
    hide TablesOk, RolesOk, SharingOk, CountsOk, CopyDirs, FreeDirs, Free, MayCopy;
    assert Tables(s, 1, 1) == 1 by { assert Tables(s, 1, 0) == 0; }
    assert NoChild(s, 2, 1);
    CopyDirsTakes(s, 1, 2, 1);
    ForkIff(s, 1, 2, 1);
    ForkMarks(s, 1, 2, 1);
    ForkLeaves(s, 1, 2, 1, 3 * SPAN);
    CopyDirsEffect(s, 1, 2, 1);
    var r := Fork(s, 1, 2, 1).mem;
    assert Inherits(s, r, 1, 2, 0) && Copied(s, 1, r, 2, 0);
    assert AlikeIn(s, r, SPAN) && Alike(Entry(s, SPAN, 0), Entry(r, SPAN, 0));
    TwoNames(r, SPAN, 2 * SPAN, 0);
  }

  lemma TwoNames(s: Mem, d: int, e: int, i: int)
    requires Shape(s) && IsSlot(d, i) && IsSlot(e, i) && d != e && Entry(s, d, i).Page? && Entry(s, e, i).Page?
    requires Entry(s, d, i).frame == Entry(s, e, i).frame
    ensures !Sole(s, e, i)
  {
    assert Names(s, d, i, Entry(s, e, i).frame) && (d, i) in PteRefs(s, Entry(s, e, i).frame);
  }

  /** write_verify of the child's page. */
  lemma FirstVerify(s: Mem, b: bv8)
    requires Ready(s, 2 * SPAN, b, 2) && Dirty(Entry(s, 2 * SPAN, 0)) && !Writable(Entry(s, 2 * SPAN, 0))
             && !Sole(s, 2 * SPAN, 0)
    ensures var op := Verifies(2 * SPAN, 0); Enabled(s, op) && Renews(s, op, 2 * SPAN, 0) && var r := Step(s, op);
            Ready(r, 2 * SPAN, b, 1) && !Dirty(Entry(r, 2 * SPAN, 0))
  {
    hide TablesOk, RolesOk, SharingOk, CountsOk, Verify, Sole, Free;
    var op := Verifies(2 * SPAN, 0);
    assert Free(s) != {};
    VerifyMarks(s, op);
    VerifyViews(s, 2 * SPAN, 0);
    VerifyLeaves(s, 2 * SPAN, 0);
    VerifyFrame(s, 2 * SPAN, 0);
    VerifyIff(s, 2 * SPAN, 0);
    VerifyTakes(s, 2 * SPAN, 0);
    assert IsSlot(2 * SPAN, 0);
  }

  lemma VerifyTakes(s: Mem, d: int, i: int)
    requires Inv(s) && IsSlot(d, i) && Entry(s, d, i).Page? && !Entry(s, d, i).write && !Sole(s, d, i) && Free(s) != {}
    ensures |Free(Verify(s, d, i).mem)| >= |Free(s)| - 1
  {
    hide TablesOk, RolesOk, SharingOk, CountsOk, CopyPage, Free;
    NoneFree(s);
    NotAlone(s, d, i);
    CopyPageTakes(s, d, i);
    assert Verify(s, d, i).mem == CopyPage(s, d, i);
    SubsetSize(Free(s) - {FreeFrame(s)}, Free(CopyPage(s, d, i)));
  }

  lemma NotAlone(s: Mem, d: int, i: int)
    requires Inv(s) && IsSlot(d, i) && Entry(s, d, i).Page? && !Sole(s, d, i)
    ensures var f := Entry(s, d, i).frame; f < FRAMES && (LOW <= f ==> s.memMap[f - LOW] > 1)
  {
    hide TablesOk, SharingOk;
    var f := Entry(s, d, i).frame;
    if LOW <= f {
      CountOneIsSole(s, d, i);
      CountIsSmall(s, f);
      assert Names(s, d, i, f) && s.memMap[f - LOW] == Count(s, f);
    }
  }

  lemma CopyPageTakes(s: Mem, d: int, i: int)
    requires Inv(s) && !OutOfFrames(s) && IsSlot(d, i) && Entry(s, d, i).Page?
    requires var f := Entry(s, d, i).frame; f < FRAMES && (LOW <= f ==> s.memMap[f - LOW] > 1)
    ensures Free(s) - {FreeFrame(s)} <= Free(CopyPage(s, d, i))
  {
    var r, g, f := CopyPage(s, d, i), FreeFrame(s), Entry(s, d, i).frame;
    CopyPageCounts(s, d, i);
    hide Inv, CopyPage, FreeFrame;
    forall x | x in Free(s) && x != g ensures x in Free(r) {
      assert IsFree(s, x);
      assert IsFree(r, x);
    }
  }

  /** Only the frame of the copy and that of the page copied are counted anew. */
  lemma CopyPageCounts(s: Mem, d: int, i: int)
    requires Inv(s) && !OutOfFrames(s) && IsSlot(d, i) && Entry(s, d, i).Page?
    ensures var f, g, r := Entry(s, d, i).frame, FreeFrame(s), CopyPage(s, d, i);
            forall x :: LOW <= x < FRAMES && x != f && x != g ==> IsFree(r, x) == IsFree(s, x)
  {
    hide TablesOk, SharingOk, CountsOk;
    var g := FreeFrame(s);
    AllocKeeps(s, g);
    assert Entry(Alloc(s, g), d, i) == Entry(s, d, i);
    UnmapKeeps(Alloc(s, g), d, i);
  }

  /** And try_to_share from it. */
  lemma ThenShared(s: Mem, b: bv8)
    requires Ready(s, 2 * SPAN, b, 1) && !Dirty(Entry(s, 2 * SPAN, 0))
    ensures var r := TryToShare(s, 2 * SPAN, 3 * SPAN, 0); r.Shared? && Shows(ViewAt(r.mem, 3 * SPAN, 0), b)
  {
    hide TablesOk, RolesOk, SharingOk, CountsOk, TryToShare, Free;
    assert Free(s) != {};
    TryToShareIff(s, 2 * SPAN, 3 * SPAN, 0);
  }

  /**
   * Task 1 gets a page, stores b into it and forks, and the kernel verifies that page of task 2.
   * It could not be shared before; now task 3 gets it and sees b.
   */
  ghost predicate SharesWhatWasWritten(s: Mem, b: bv8)
    requires Inv(s)
  {
    hide Inv, Enabled, Step, TryToShare, Entry, ViewAt;
    Enabled(s, Touches(SPAN, 0)) && var s1 := Step(s, Touches(SPAN, 0));
    Enabled(s1, Stores(SPAN, 0, 0, b)) && var s2 := Step(s1, Stores(SPAN, 0, 0, b));
    Enabled(s2, Forks(1, 2, 1)) && var s3 := Step(s2, Forks(1, 2, 1));
    Enabled(s3, Verifies(2 * SPAN, 0)) && var s4 := Step(s3, Verifies(2 * SPAN, 0));
    TryToShare(s3, 2 * SPAN, 3 * SPAN, 0) == Refused(s3) && TryToShare(s4, 2 * SPAN, 3 * SPAN, 0).Shared?
    && SeenBy(TryToShare(s4, 2 * SPAN, 3 * SPAN, 0).mem, 3 * SPAN, b)
  }

  ghost predicate SeenBy(s: Mem, d: int, b: bv8)
    requires 0 <= d < ENTRIES
  {
    Shape(s) && Shows(ViewAt(s, d, 0), b)
  }

  lemma FromReady(s: Mem, b: bv8)
    requires Inv(s) && |Free(s)| >= 5 && forall d :: SPAN <= d < ENTRIES ==> s.dir[d] == NoTable
    ensures SharesWhatWasWritten(s, b)
  {
    hide TablesOk, RolesOk, SharingOk, CountsOk, Enabled, Step, TryToShare, Entry, ViewAt, Free, Sole;
    FirstTouch(s);
    var s1 := Step(s, Touches(SPAN, 0));
    FirstStore(s1, b);
    var s2 := Step(s1, Stores(SPAN, 0, 0, b));
    FirstFork(s2, b);
    var s3 := Step(s2, Forks(1, 2, 1));
    FirstVerify(s3, b);
    DirtyIsRefused(s3, 2 * SPAN, 3 * SPAN, 0);
    ThenShared(Step(s3, Verifies(2 * SPAN, 0)), b);
  }

  /** So it is right after boot. */
  lemma VerifiedCopyIsShared(start: nat, end: nat, page: seq<seq<bv8>>, b: bv8)
    requires LOW <= start && start + 5 <= end <= FRAMES
    requires |page| == FRAMES && forall f :: 0 <= f < FRAMES ==> |page[f]| == PAGE_SIZE
    ensures Inv(Booted(start, end, page)) && SharesWhatWasWritten(Booted(start, end, page), b)
  {
    var s := Booted(start, end, page);
    BootedIsFine(start, end, page);
    var few := {start, start + 1, start + 2, start + 3, start + 4};
    assert forall f :: f in few ==> IsFree(s, f);
    hide *;
    SomeFree(s, few);
    FromReady(s, b);
  }

  lemma DirtyIsRefused(s: Mem, d: int, e: int, i: int)
    requires Inv(s) && Twins(d, e) && 0 <= i < ENTRIES && Dirty(Entry(s, d, i))
    ensures TryToShare(s, d, e, i) == Refused(s)
  {
    hide TablesOk, RolesOk, SharingOk, CountsOk;
  }
}
