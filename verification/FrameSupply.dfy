/**
 How many frames each operation needs: fork, write fault, demand page and sharing fail
 for want of memory exactly when the free frames are too few.
 */
module FrameSupply {
  import opened PageFrames
  import opened CopyOnWrite
  import opened PageFaults

  ghost predicate IsFree(s: Mem, f: int)
    requires Shape(s) && LOW <= f < FRAMES
  {
    s.memMap[f - LOW] == 0
  }

  /** The frames get_free_page can still hand out. */
  ghost function Free(s: Mem): set<int>
    requires Shape(s)
  {
    set f | LOW <= f < FRAMES && IsFree(s, f)
  }

  ghost predicate Unused(s: Mem, f: int)
    requires Shape(s) && 0 <= f < FRAMES
  {
    PteRefs(s, f) == {} && DirRefs(s, f) == {} && s.held[f] == 0
  }

  /** A frame is free exactly when no entry names it and the kernel does not hold it. */
  lemma FreeMeans(s: Mem, f: int)
    requires Inv(s) && LOW <= f < FRAMES
    ensures f in Free(s) <==> Unused(s, f)
  {
    assert s.memMap[f - LOW] == Count(s, f);
  }

  lemma NoneFree(s: Mem)
    requires Shape(s)
    ensures OutOfFrames(s) <==> Free(s) == {}
  {
    hide LastFree;
    var k := LastFree(s.memMap, PAGING_PAGES);
    if k >= 0 {
      assert IsFree(s, k + LOW) && k + LOW in Free(s);
    } else {
      forall f | LOW <= f < FRAMES ensures !IsFree(s, f) { assert s.memMap[f - LOW] != 0; }
    }
  }

  /** The same frames are free in two states with the same names, tables and holders. */
  lemma SameFree(s: Mem, r: Mem)
    requires Inv(s) && Inv(r) && forall f :: LOW <= f < FRAMES ==> (Unused(r, f) <==> Unused(s, f))
    ensures Free(r) == Free(s)
  {
    InvShape(s);
    InvShape(r);
    hide Inv, Unused;
    forall f | LOW <= f < FRAMES ensures f in Free(r) <==> f in Free(s) {
      FreeMeans(s, f);
      FreeMeans(r, f);
    }
  }

  lemma InvShape(s: Mem)
    requires Inv(s)
    ensures Shape(s)
  {
  }

  lemma AllocTakes(s: Mem, f: int)
    requires Inv(s) && LOW <= f < FRAMES && s.memMap[f - LOW] == 0
    ensures Shape(Alloc(s, f)) && f in Free(s) && Free(Alloc(s, f)) == Free(s) - {f}
  {
    assert IsFree(s, f);
    forall g | LOW <= g < FRAMES ensures IsFree(Alloc(s, f), g) <==> IsFree(s, g) && g != f {}
  }

  lemma NewTableTakes(s: Mem, e: int)
    requires Inv(s) && !OutOfFrames(s) && SPAN <= e < ENTRIES && s.dir[e].NoTable?
    ensures FreeFrame(s) in Free(s) && Free(NewTable(s, e)) == Free(s) - {FreeFrame(s)}
  {
    hide TablesOk, RolesOk, SharingOk, CountsOk;
    AllocTakes(s, FreeFrame(s));
  }

  /** Names of counted frames after CopyEntries are names before. */
  lemma CopyNames(m: Mem, d: int, e: int, n: nat, f: int)
    requires Inv(m) && n <= ENTRIES && MayCopy(m, d, e, n) && m.dir[e].Table? && Blank(m, e, 0) && LOW <= f < FRAMES
    ensures PteRefs(CopyEntries(m, d, e, n), f) == {} <==> PteRefs(m, f) == {}
  {
    hide TablesOk, RolesOk, SharingOk, CountsOk, CopyEntries;
    CopyEntriesNames(m, d, e, n);
    var r := CopyEntries(m, d, e, n);
    forall q | q in PteRefs(m, f) ensures q in PteRefs(r, f) {
      assert Names(m, q.0, q.1, f) && q.0 != e;
      assert NameAt(r, q.0, q.1) == NameAt(m, q.0, q.1);
    }
    forall q | q in PteRefs(r, f) ensures PteRefs(m, f) != {} {
      assert Names(r, q.0, q.1, f) && NameAt(r, q.0, q.1) == f;
      if q.0 != e {
        assert NameAt(m, q.0, q.1) == f && q in PteRefs(m, f);
      } else {
        assert q.1 < n && NameAt(m, d, q.1) == f;
        assert (d, q.1) in PteRefs(m, f);
      }
    }
  }

  lemma CopyEntriesFree(m: Mem, d: int, e: int, n: nat)
    requires Inv(m) && n <= ENTRIES && MayCopy(m, d, e, n) && m.dir[e].Table? && Blank(m, e, 0)
    ensures Free(CopyEntries(m, d, e, n)) == Free(m)
  {
    hide TablesOk, RolesOk, SharingOk, CountsOk, CopyEntries, PteRefs, MayCopy, Blank;
    var r := CopyEntries(m, d, e, n);
    forall f | LOW <= f < FRAMES ensures Unused(r, f) <==> Unused(m, f) {
      CopyNames(m, d, e, n, f);
      assert DirRefs(r, f) == DirRefs(m, f);
    }
    SameFree(m, r);
  }

  /** One region costs a frame exactly when the parent has a table there. */
  lemma CopyDirTakes(s: Mem, d: int, e: int, nr: nat)
    requires Inv(s) && nr <= ENTRIES && MayCopy(s, d, e, nr) && s.dir[e].NoTable?
    ensures CopyDir(s, d, e, nr).Ok? <==> s.dir[d].NoTable? || Free(s) != {}
    ensures var r := CopyDir(s, d, e, nr);
            r.Ok? ==> |Free(r.mem)| == |Free(s)| - if s.dir[d].Table? then 1 else 0
  {
    hide TablesOk, RolesOk, SharingOk, CountsOk, CopyEntries;
    NoneFree(s);
    if s.dir[d].Table? && !OutOfFrames(s) {
      NewTableTakes(s, e);
      CopyEntriesFree(NewTable(s, e), d, e, nr);
    }
  }

  /** The tables among the first n regions of task p. */
  ghost function Tables(s: Mem, p: int, n: nat): nat
    requires Shape(s) && 0 <= p < TASKS && n <= SPAN
  {
    if n == 0 then 0 else Tables(s, p, n - 1) + if s.dir[SPAN * p + (n - 1)].Table? then 1 else 0
  }

  lemma {:induction false} CopyDirsTakes(s: Mem, p: int, c: int, n: nat)
    requires Inv(s) && MayFork(s, p, c, n) && NoChild(s, c, n)
    ensures Supplied(s, p, n, CopyDirs(s, p, c, n))
  {
    hide TablesOk, RolesOk, SharingOk, CountsOk, CopyDir, CopyDirs, MayCopy, Free, Shape;
    if n == 0 {
      CopyNoDirs(s, p, c);
    } else {
      CopyDirsTakes(s, p, c, n - 1);
      CopyDirsFrame(s, p, c, n - 1);
      CopyDirsLast(s, p, c, n);
      var m := CopyDirs(s, p, c, n - 1);
      if m.Ok? { CopyDirsTakesMore(s, m.mem, p, c, n); }
    }
  }

  /** r has frames for n tables of task p, or there were not enough. */
  ghost predicate Supplied(s: Mem, p: int, n: nat, r: Outcome)
    requires Shape(s) && 0 <= p < TASKS && n <= SPAN
  {
    && (r.Ok? <==> Tables(s, p, n) <= |Free(s)|)
    && (r.Ok? ==> Shape(r.mem) && |Free(r.mem)| == |Free(s)| - Tables(s, p, n))
  }

  lemma CopyDirsTakesMore(s: Mem, m: Mem, p: int, c: int, n: nat)
    requires Inv(s) && Inv(m) && MayFork(s, p, c, n) && n > 0 && NoChild(s, c, n) && Supplied(s, p, n - 1, Ok(m))
    requires forall k :: 0 <= k < ENTRIES && !(SPAN * c <= k < SPAN * c + (n - 1)) ==> m.dir[k] == s.dir[k]
    requires MayCopy(m, SPAN * p + (n - 1), SPAN * c + (n - 1), PagesOf(p))
    ensures Supplied(s, p, n, CopyDir(m, SPAN * p + (n - 1), SPAN * c + (n - 1), PagesOf(p)))
  {
    hide TablesOk, RolesOk, SharingOk, CountsOk, CopyDir, MayCopy, Free;
    assert m.dir[SPAN * c + (n - 1)] == s.dir[SPAN * c + (n - 1)] == NoTable;
    assert m.dir[SPAN * p + (n - 1)] == s.dir[SPAN * p + (n - 1)];
    CopyDirTakes(m, SPAN * p + (n - 1), SPAN * c + (n - 1), PagesOf(p));
  }

  /** fork succeeds exactly when there is a free frame for each table of the parent. */
  lemma ForkIff(s: Mem, p: int, c: int, n: nat)
    requires Inv(s) && MayFork(s, p, c, n) && NoChild(s, c, n)
    ensures Fork(s, p, c, n).Ok? <==> Tables(s, p, n) <= |Free(s)|
  {
    hide TablesOk, RolesOk, SharingOk, CountsOk, CopyDirs, FreeDirs, MayCopy;
    CopyDirsTakes(s, p, c, n);
  }

  /** The entry is the only name of a frame that is counted. */
  ghost predicate Sole(s: Mem, d: int, i: int)
    requires Shape(s) && IsSlot(d, i) && Entry(s, d, i).Page?
  {
    LOW <= Entry(s, d, i).frame && PteRefs(s, Entry(s, d, i).frame) == {(d, i)}
  }

  /** un_wp_page needs a frame exactly when the page is shared or below LOW. */
  lemma UnWpPageIff(s: Mem, d: int, i: int)
    requires Inv(s) && IsSlot(d, i) && Entry(s, d, i).Page?
    ensures UnWpPage(s, d, i).Ok? <==> Sole(s, d, i) || Free(s) != {}
  {
    NoneFree(s);
    hide TablesOk, SharingOk, CountsOk, CopyPage, SetWrite, Free;
    assert Entry(s, d, i).frame < FRAMES;
    if LOW <= Entry(s, d, i).frame { CountOneIsSole(s, d, i); }
  }

  /** write_verify kills the task exactly when the page is present, protected, not its own, and no frame is free. */
  lemma VerifyIff(s: Mem, d: int, i: int)
    requires Inv(s) && IsSlot(d, i)
    ensures Verify(s, d, i).Ok? <==> !(Entry(s, d, i).Page? && !Entry(s, d, i).write && !Sole(s, d, i) && Free(s) == {})
  {
    hide TablesOk, RolesOk, SharingOk, CountsOk, UnWpPage, Free;
    if Entry(s, d, i).Page? { UnWpPageIff(s, d, i); }
  }

  /** A store kills the task exactly when its page is present, protected, not its own, and no frame is free. */
  lemma StoreIff(s: Mem, d: int, i: int, at: nat, b: bv8)
    requires Inv(s) && IsSlot(d, i) && at < PAGE_SIZE
    ensures var e, r := Entry(s, d, i), Store(s, d, i, at, b);
            && (r.NotPresent? <==> e.Absent?)
            && (r.Stored? <==> e.Page? && (e.write || Sole(s, d, i) || Free(s) != {}))
            && (r.Killed? <==> e.Page? && !e.write && !Sole(s, d, i) && Free(s) == {})
  {
    hide TablesOk, RolesOk, SharingOk, CountsOk, UnWpPage, WriteByte, Free;
    if Entry(s, d, i).Page? { UnWpPageIff(s, d, i); }
  }

  lemma WithTableIff(s: Mem, d: int)
    requires Inv(s) && SPAN <= d < ENTRIES
    ensures WithTable(s, d).Ok? <==> HasTable(s, d) || Free(s) != {}
  {
    NoneFree(s);
  }

  /** put_page of a held page fails exactly when it needs a table and no frame is free. */
  lemma PutPageIff(s: Mem, f: nat, d: int, i: int)
    requires Inv(s) && IsSlot(d, i) && LOW <= f < s.high && s.held[f] == 1
    ensures PutPage(s, f, d, i).Ok? <==> HasTable(s, d) || Free(s) != {}
  {
    hide TablesOk, RolesOk, SharingOk, CountsOk, WithTable, Free;
    WithTableIff(s, d);
  }

  /** get_empty_page needs one frame, and another where the region has no table. */
  lemma GetEmptyPageIff(s: Mem, d: int, i: int)
    requires Inv(s) && IsSlot(d, i)
    ensures GetEmptyPage(s, d, i).Ok? <==> (if HasTable(s, d) then 1 else 2) <= |Free(s)|
  {
    hide TablesOk, RolesOk, SharingOk, CountsOk, PutPage;
    NoneFree(s);
    if !OutOfFrames(s) {
      var f := FreeFrame(s);
      AllocTakes(s, f);
      var s1 := Alloc(s, f);
      assert Entry(s1, d, i) == Entry(s, d, i);
      PutPageIff(s1, f, d, i);
      assert |Free(s1)| == |Free(s)| - 1;
    }
  }

  /** The frames it takes, and the page it leaves at (d, i). */
  lemma GetEmptyPageTakes(s: Mem, d: int, i: int)
    requires Inv(s) && IsSlot(d, i) && GetEmptyPage(s, d, i).Ok?
    ensures var r := GetEmptyPage(s, d, i).mem;
            HasTable(r, d) && Occupied(r, d, i) && |Free(r)| == |Free(s)| - (if HasTable(s, d) then 1 else 2)
  {
    hide TablesOk, RolesOk, SharingOk, CountsOk, NewTable;
    var f := FreeFrame(s);
    AllocTakes(s, f);
    var s1 := Alloc(s, f);
    var m := WithTable(s1, d).mem;
    if !HasTable(s, d) { NewTableTakes(s1, d); }
    MapLeaves(m, d, i, f);
  }

  lemma MapLeaves(s: Mem, d: int, i: int, f: nat)
    requires Inv(s) && IsSlot(d, i) && HasTable(s, d) && LOW <= f < s.high && s.held[f] == 1
    ensures var r := MapHeld(s, d, i, f); Shape(r) && HasTable(r, d) && Occupied(r, d, i) && Free(r) == Free(s)
  {
    SetEntryLocal(s, d, i, Page(f, true, false));
    var r := MapHeld(s, d, i, f);
    forall g | LOW <= g < FRAMES ensures IsFree(r, g) <==> IsFree(s, g) {}
  }

  /** Right after boot, get_empty_page twice for one address: the first page is lost. */
  lemma TwiceAtOneAddress(start: nat, end: nat, page: seq<seq<bv8>>, d: int, i: int)
    requires LOW <= start && start + 3 <= end <= FRAMES && IsSlot(d, i)
    requires |page| == FRAMES && forall f :: 0 <= f < FRAMES ==> |page[f]| == PAGE_SIZE
    ensures var s := Booted(start, end, page); Inv(s) && var r := GetEmptyPage(s, d, i);
            r.Ok? && Inv(r.mem) && var r' := GetEmptyPage(r.mem, d, i); r'.Ok? && !Inv(r'.mem)
  {
    var s := Booted(start, end, page);
    BootedIsFine(start, end, page);
    assert Entry(s, d, i) == Absent && !HasTable(s, d);
    assert IsFree(s, start) && IsFree(s, start + 1) && IsFree(s, start + 2);
    hide *;
    SomeFree(s, {start, start + 1, start + 2});
    Twice(s, d, i);
  }

  lemma SomeFree(s: Mem, few: set<int>)
    requires Shape(s) && forall f :: f in few ==> LOW <= f < FRAMES && IsFree(s, f)
    ensures |few| <= |Free(s)|
  {
    SubsetSize(few, Free(s));
  }

  lemma Twice(s: Mem, d: int, i: int)
    requires Inv(s) && IsSlot(d, i) && !HasTable(s, d) && !Occupied(s, d, i) && |Free(s)| >= 3
    ensures var r := GetEmptyPage(s, d, i);
            r.Ok? && Inv(r.mem) && var r' := GetEmptyPage(r.mem, d, i); r'.Ok? && !Inv(r'.mem)
  {
    hide TablesOk, RolesOk, SharingOk, CountsOk, GetEmptyPage, Free, Occupied, HasTable;
    GetEmptyPageIff(s, d, i);
    GetEmptyPageDoes(s, d, i);
    GetEmptyPageTakes(s, d, i);
    var m := GetEmptyPage(s, d, i).mem;
    GetEmptyPageIff(m, d, i);
    GetEmptyPageDoes(m, d, i);
  }

  /** The twin's page is there, clean and counted. */
  ghost predicate Clean(s: Mem, d: int, i: int)
    requires Shape(s) && IsSlot(d, i)
  {
    Entry(s, d, i).Page? && !Entry(s, d, i).dirty && LOW <= Entry(s, d, i).frame
  }

  /**
   * try_to_share shares exactly a clean counted page, where nothing is mapped yet and a table is
   * there or can be had.
   */
  lemma TryToShareIff(s: Mem, d: int, e: int, i: int)
    requires Inv(s) && Twins(d, e) && 0 <= i < ENTRIES
    ensures var r := TryToShare(s, d, e, i);
            && (r.Refused? <==> !Clean(s, d, i))
            && (r.ShareNoMemory? <==> Clean(s, d, i) && !HasTable(s, e) && Free(s) == {})
            && (r.SharePanic? <==> Clean(s, d, i) && Entry(s, e, i).Page?)
            && (r.Shared? <==> Clean(s, d, i) && Entry(s, e, i).Absent? && (HasTable(s, e) || Free(s) != {}))
  {
    hide TablesOk, SharingOk, CountsOk, WithTable, ShareInto, Free;
    WithTableIff(s, e);
    assert Entry(s, d, i).Page? ==> Entry(s, d, i).frame < s.high;
    hide RolesOk;
    var m := WithTable(s, e);
    if Clean(s, d, i) && m.Ok? {
      assert Entry(m.mem, d, i) == Entry(s, d, i) && Entry(m.mem, e, i) == Entry(s, e, i);
      ShareIntoIff(m.mem, d, e, i);
    }
  }

  lemma ShareIntoIff(s: Mem, d: int, e: int, i: int)
    requires Inv(s) && Twins(d, e) && 0 <= i < ENTRIES && HasTable(s, e)
    requires Entry(s, d, i).Page? && LOW <= Entry(s, d, i).frame
    ensures var r := ShareInto(s, d, e, i); if Entry(s, e, i).Page? then r.SharePanic? else r.Shared?
  {
    hide TablesOk, SharingOk, CountsOk, Share;
  }
}
