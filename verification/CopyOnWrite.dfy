/**
 fork, exit and the write fault of mm/memory.c on the frames of module PageFrames.
 */
module CopyOnWrite {
  import opened PageFrames

  datatype Outcome = Ok(mem: Mem) | NoMemory(mem: Mem) | Panic(mem: Mem)

  /** The last free index below n, or -1: the backwards scan of get_free_page. */
  function LastFree(m: seq<int>, n: nat): (k: int)
    requires n <= |m|
    ensures -1 <= k < n
    ensures k >= 0 ==> m[k] == 0
    ensures forall j :: k < j < n ==> m[j] != 0
  {
    if n == 0 then -1 else if m[n - 1] == 0 then n - 1 else LastFree(m, n - 1)
  }

  predicate OutOfFrames(s: Mem)
    requires |s.memMap| == PAGING_PAGES
  {
    LastFree(s.memMap, PAGING_PAGES) < 0
  }

  ghost function FreeFrame(s: Mem): (f: nat)
    requires Inv(s) && !OutOfFrames(s)
    ensures LOW <= f < s.high && s.memMap[f - LOW] == 0
    ensures Inv(Alloc(s, f)) && SameEntries(s, Alloc(s, f)) && SameViews(s, Alloc(s, f))
  {
    var f := LastFree(s.memMap, PAGING_PAGES) + LOW;
    AllocKeeps(s, f);
    f
  }

  // ---------------------------------------------------------------- copy_page_tables

  /** The frame an entry names, or -1. */
  ghost function NameAt(s: Mem, c: int, j: int): int
    requires Shape(s) && 0 <= c < ENTRIES && 0 <= j < ENTRIES
  {
    if Entry(s, c, j).Absent? then -1 else Entry(s, c, j).frame
  }

  /** Region d may be copied into region e: two user regions at the same offset of their tasks, or
      task 0's region, whose first nr pages lie below LOW. */
  ghost predicate MayCopy(s: Mem, d: int, e: int, nr: int)
    requires Shape(s)
  {
    && 0 <= d < ENTRIES && SPAN <= e < ENTRIES && d != e && 0 <= nr <= ENTRIES
    && if d < SPAN then (forall i :: 0 <= i < nr && Entry(s, d, i).Page? ==> Entry(s, d, i).frame < LOW)
       else d % SPAN == e % SPAN
  }

  ghost predicate Blank(s: Mem, e: int, n: int)
    requires Shape(s) && 0 <= e < ENTRIES && 0 <= n
  {
    forall i :: n <= i < ENTRIES ==> Entry(s, e, i) == Absent
  }

  ghost function CopyEntry(s: Mem, d: int, e: int, i: nat): (r: Mem)
    requires Inv(s) && i < ENTRIES && MayCopy(s, d, e, i + 1) && s.dir[e].Table? && Entry(s, e, i) == Absent
    ensures Inv(r) && r.dir == s.dir && r.held == s.held && r.high == s.high && r.page == s.page
    ensures forall c, j :: 0 <= c < ENTRIES && 0 <= j < ENTRIES && (c != e || j != i) && (c != d || j != i) ==>
              Entry(r, c, j) == Entry(s, c, j)
    ensures d < SPAN ==> Entry(r, d, i) == Entry(s, d, i)
    ensures NameAt(r, e, i) == NameAt(r, d, i) == NameAt(s, d, i)
  {
    if Entry(s, d, i).Absent? then s
    else
      ShareViews(s, d, e, i);
      ShareLeaves(s, d, e, i);
      Share(s, d, e, i)
  }

  ghost function CopyEntries(s: Mem, d: int, e: int, n: nat): (r: Mem)
    requires Inv(s) && n <= ENTRIES && MayCopy(s, d, e, n) && s.dir[e].Table? && Blank(s, e, 0)
    ensures Inv(r) && Blank(r, e, n) && r.dir == s.dir && r.held == s.held && r.high == s.high && r.page == s.page
    ensures d < SPAN ==> forall j :: 0 <= j < ENTRIES ==> Entry(r, d, j) == Entry(s, d, j)
  {
    if n == 0 then s else CopyEntry(CopyEntries(s, d, e, n - 1), d, e, n - 1)
  }

  lemma ShareLeaves(s: Mem, d: int, e: int, i: int)
    requires Inv(s) && Shareable(s, d, e, i)
    ensures var r := Share(s, d, e, i);
            r.dir == s.dir && r.held == s.held && r.high == s.high && r.page == s.page && Shape(r)
            && (forall c, j :: 0 <= c < ENTRIES && 0 <= j < ENTRIES && (c != e || j != i) && (c != d || j != i) ==>
                  Entry(r, c, j) == Entry(s, c, j))
            && (d < SPAN ==> Entry(r, d, i) == Entry(s, d, i))
            && NameAt(r, e, i) == NameAt(r, d, i) == NameAt(s, d, i)
  {
    var p := ReadOnly(Entry(s, d, i));
    SetEntryLocal(s, e, i, p);
    if LOW <= p.frame { SetEntryLocal(SetEntry(s, e, i, p), d, i, p); }
  }

  /** Region c translates to the same frames with the same contents. */
  ghost predicate SameRegion(s: Mem, s': Mem, c: int)
    requires Shape(s) && Shape(s') && 0 <= c < ENTRIES
  {
    forall j :: 0 <= j < ENTRIES ==> NameAt(s', c, j) == NameAt(s, c, j) && ViewAt(s', c, j) == ViewAt(s, c, j)
  }

  /** Region e of s' reads as region d of s in its first nr pages and is empty beyond. */
  ghost predicate CopiedRegion(s: Mem, d: int, s': Mem, e: int, nr: int)
    requires Shape(s) && Shape(s') && 0 <= d < ENTRIES && 0 <= e < ENTRIES
  {
    forall j :: 0 <= j < ENTRIES ==>
      && NameAt(s', e, j) == (if j < nr then NameAt(s, d, j) else -1)
      && ViewAt(s', e, j) == (if j < nr then ViewAt(s, d, j) else Nothing)
  }

  /** Outside region e no translation names another frame; the first n entries of e name those of d. */
  ghost predicate NamesCopied(s: Mem, r: Mem, d: int, e: int, n: int)
    requires Shape(s) && Shape(r) && 0 <= d < ENTRIES && 0 <= e < ENTRIES && n <= ENTRIES
  {
    && (forall c, j :: 0 <= c < ENTRIES && 0 <= j < ENTRIES && c != e ==> NameAt(r, c, j) == NameAt(s, c, j))
    && (forall j :: 0 <= j < n ==> NameAt(r, e, j) == NameAt(s, d, j))
  }

  lemma {:induction false} CopyEntriesNames(s: Mem, d: int, e: int, n: nat)
    requires Inv(s) && n <= ENTRIES && MayCopy(s, d, e, n) && s.dir[e].Table? && Blank(s, e, 0)
    ensures NamesCopied(s, CopyEntries(s, d, e, n), d, e, n)
  {
    hide TablesOk, RolesOk, SharingOk, CountsOk, CopyEntry;
    if n > 0 {
      CopyEntriesNames(s, d, e, n - 1);
      var m := CopyEntries(s, d, e, n - 1);
      var r := CopyEntry(m, d, e, n - 1);
      assert NamesCopied(s, m, d, e, n - 1) && NameAt(r, e, n - 1) == NameAt(m, d, n - 1);
      assert NamesCopied(s, r, d, e, n);
    }
  }

  /** get_free_page for a page table, installed in an empty directory entry. */
  ghost function NewTable(s: Mem, e: int): (r: Mem)
    requires Inv(s) && !OutOfFrames(s) && SPAN <= e < ENTRIES && s.dir[e].NoTable?
    ensures Inv(r) && SameEntries(s, r) && SameViews(s, r) && r.held == s.held && r.high == s.high
    ensures r.dir == s.dir[e := Table(FreeFrame(s))] && r.page == s.page[FreeFrame(s) := ZeroPage()]
  {
    var f := FreeFrame(s);
    AllocKeeps(s, f);
    var s1 := Alloc(s, f);
    InstallTableKeeps(s1, e, f);
    var r := InstallTable(s1, e, f);
    assert r.held == s.held;
    r
  }

  ghost function CopyDir(s: Mem, d: int, e: int, nr: nat): (r: Outcome)
    requires Inv(s) && nr <= ENTRIES && MayCopy(s, d, e, nr)
    ensures Inv(r.mem) && r.mem.held == s.held && r.mem.high == s.high
    ensures r.Ok? ==> r.mem.dir == s.dir[e := r.mem.dir[e]]
    ensures !r.Ok? ==> r.mem == s
    ensures r.Panic? <==> s.dir[e].Table?
  {
    if s.dir[e].Table? then Panic(s)
    else if s.dir[d].NoTable? then Ok(s)
    else if OutOfFrames(s) then NoMemory(s)
    else Ok(CopyEntries(NewTable(s, e), d, e, nr))
  }

  lemma CopyDirEffect(s: Mem, d: int, e: int, nr: nat)
    requires Inv(s) && nr <= ENTRIES && MayCopy(s, d, e, nr) && CopyDir(s, d, e, nr).Ok?
    ensures var r := CopyDir(s, d, e, nr).mem;
            CopiedRegion(s, d, r, e, nr) && forall c :: SPAN <= c < ENTRIES && c != e ==> SameRegion(s, r, c)
  {
    hide TablesOk, RolesOk, SharingOk, CountsOk;
    if s.dir[d].Table? {
      var m := NewTable(s, e);
      var r := CopyEntries(m, d, e, nr);
      CopyEntriesNames(m, d, e, nr);
      forall c | SPAN <= c < ENTRIES && c != e ensures SameRegion(s, r, c) {
        SameNamesSameRegion(s, m, r, c);
      }
      forall j | 0 <= j < nr
        ensures NameAt(r, e, j) == NameAt(s, d, j) && ViewAt(r, e, j) == ViewAt(s, d, j)
      {
        assert NameAt(r, e, j) == NameAt(m, d, j);
        assert Entry(m, d, j) == Entry(s, d, j);
        if d >= SPAN {
          assert ViewAt(m, d, j) == ViewAt(s, d, j);
        }
      }
    }
  }

  lemma SameNamesSameRegion(s: Mem, m: Mem, r: Mem, c: int)
    requires Shape(s) && Shape(m) && Shape(r) && SPAN <= c < ENTRIES && SameEntries(s, m) && SameViews(s, m)
    requires r.page == m.page && forall j :: 0 <= j < ENTRIES ==> NameAt(r, c, j) == NameAt(m, c, j)
    ensures SameRegion(s, r, c)
  {
    forall j | 0 <= j < ENTRIES
      ensures NameAt(r, c, j) == NameAt(s, c, j) && ViewAt(r, c, j) == ViewAt(s, c, j)
    {
      assert NameAt(r, c, j) == NameAt(m, c, j) && Entry(m, c, j) == Entry(s, c, j);
      assert IsSlot(c, j) && ViewAt(m, c, j) == ViewAt(s, c, j);
    }
  }

  /** copy_page_tables from task p to task c: n directory entries, 160 pages of each when p is task 0. */
  ghost predicate MayFork(s: Mem, p: int, c: int, n: int)
    requires Shape(s)
  {
    && 0 <= p < TASKS && 1 <= c < TASKS && p != c && 0 <= n <= SPAN
    && (p == 0 ==> n <= 1 && MayCopy(s, 0, SPAN * c, 160))
  }

  function PagesOf(p: int): nat { if p == 0 then 160 else ENTRIES }

  lemma ForkCopies(s: Mem, m: Mem, p: int, c: int, k: int)
    requires Shape(s) && Shape(m) && MayFork(s, p, c, k + 1) && 0 <= k && (p == 0 ==> m == s)
    ensures MayCopy(m, SPAN * p + k, SPAN * c + k, PagesOf(p))
  {
  }

  ghost function CopyDirs(s: Mem, p: int, c: int, n: nat): (r: Outcome)
    requires Inv(s) && MayFork(s, p, c, n)
    ensures Inv(r.mem)
  {
    if n == 0 then Ok(s)
    else
      var m := CopyDirs(s, p, c, n - 1);
      if m.Ok? then
        ForkCopies(s, m.mem, p, c, n - 1);
        CopyDir(m.mem, SPAN * p + (n - 1), SPAN * c + (n - 1), PagesOf(p))
      else m
  }

  lemma CopyNoDirs(s: Mem, p: int, c: int)
    requires Inv(s) && MayFork(s, p, c, 0)
    ensures CopyDirs(s, p, c, 0) == Ok(s)
  {
  }

  /** One more region is copied after the others, unless one of those failed. */
  lemma CopyDirsLast(s: Mem, p: int, c: int, n: nat)
    requires Inv(s) && MayFork(s, p, c, n) && n > 0
    ensures var m := CopyDirs(s, p, c, n - 1);
            if m.Ok? then MayCopy(m.mem, SPAN * p + (n - 1), SPAN * c + (n - 1), PagesOf(p))
                       && CopyDirs(s, p, c, n) == CopyDir(m.mem, SPAN * p + (n - 1), SPAN * c + (n - 1), PagesOf(p))
            else CopyDirs(s, p, c, n) == m
  {
    hide TablesOk, RolesOk, SharingOk, CountsOk, CopyDir, MayCopy;
    if CopyDirs(s, p, c, n - 1).Ok? { ForkCopies(s, CopyDirs(s, p, c, n - 1).mem, p, c, n - 1); }
  }

  /** Region k of task c reads as region k of task p did in s. */
  ghost predicate Copied(s: Mem, p: int, r: Mem, c: int, k: int)
    requires Shape(s) && Shape(r) && 0 <= p < TASKS && 0 <= c < TASKS && 0 <= k < SPAN
  {
    CopiedRegion(s, SPAN * p + k, r, SPAN * c + k, PagesOf(p))
  }

  /** fork: the child reads what the parent reads and nobody else's memory changes. */
  lemma {:induction false} CopyDirsEffect(s: Mem, p: int, c: int, n: nat)
    requires Inv(s) && MayFork(s, p, c, n)
    ensures var r := CopyDirs(s, p, c, n);
            && (r.Ok? ==> forall k :: 0 <= k < n ==> Copied(s, p, r.mem, c, k))
            && (forall k :: SPAN <= k < ENTRIES && !(SPAN * c <= k < SPAN * c + n) ==> SameRegion(s, r.mem, k))
  {
    hide TablesOk, RolesOk, SharingOk, CountsOk, CopyDir, MayCopy, Entry, NameAt, ViewAt;
    if n > 0 {
      CopyDirsEffect(s, p, c, n - 1);
      var m := CopyDirs(s, p, c, n - 1);
      if m.Ok? {
        var d, e := SPAN * p + (n - 1), SPAN * c + (n - 1);
        ForkCopies(s, m.mem, p, c, n - 1);
        var o := CopyDir(m.mem, d, e, PagesOf(p));
        if o.Ok? {
          CopyDirEffect(m.mem, d, e, PagesOf(p));
          forall k | SPAN <= k < ENTRIES && !(SPAN * c <= k < SPAN * c + n) ensures SameRegion(s, o.mem, k) {
            assert SameRegion(s, m.mem, k) && SameRegion(m.mem, o.mem, k);
          }
          if p != 0 { assert SameRegion(s, m.mem, d); }
          forall k | 0 <= k < n - 1
            ensures Copied(s, p, o.mem, c, k)
          {
            assert Copied(s, p, m.mem, c, k);
            assert SameRegion(m.mem, o.mem, SPAN * c + k);
          }
        }
      }
    }
  }

  lemma {:induction false} CopyDirsFrame(s: Mem, p: int, c: int, n: nat)
    requires Inv(s) && MayFork(s, p, c, n)
    ensures var r := CopyDirs(s, p, c, n).mem;
            r.held == s.held && r.high == s.high
            && forall k :: 0 <= k < ENTRIES && !(SPAN * c <= k < SPAN * c + n) ==> r.dir[k] == s.dir[k]
  {
    hide TablesOk, RolesOk, SharingOk, CountsOk, CopyDir, MayCopy, Entry;
    if n > 0 {
      CopyDirsFrame(s, p, c, n - 1);
      var m := CopyDirs(s, p, c, n - 1);
      if m.Ok? {
        ForkCopies(s, m.mem, p, c, n - 1);
        var o := CopyDir(m.mem, SPAN * p + (n - 1), SPAN * c + (n - 1), PagesOf(p));
        assert o.mem.held == m.mem.held;
      }
    }
  }

  // ---------------------------------------------------------------- free_page_tables

  ghost function DropEntry(s: Mem, d: int, i: int): (r: Mem)
    requires Inv(s) && IsSlot(d, i) && s.dir[d].Table?
    ensures Inv(r) && r.dir == s.dir && r.held == s.held && r.high == s.high && r.page == s.page
    ensures SameEntriesBut(s, r, d, i) && Entry(r, d, i) == Absent
  {
    if Entry(s, d, i).Absent? then s
    else
      UnmapKeeps(s, d, i);
      Unmap(s, d, i)
  }

  ghost function FreeEntries(s: Mem, d: int, n: nat): (r: Mem)
    requires Inv(s) && SPAN <= d < ENTRIES && s.dir[d].Table? && n <= ENTRIES
    ensures Inv(r) && r.dir == s.dir && r.held == s.held && r.high == s.high && r.page == s.page
  {
    if n == 0 then s else DropEntry(FreeEntries(s, d, n - 1), d, n - 1)
  }

  /** The first n entries of region d are absent and every other translation is as in s. */
  ghost predicate Cleared(s: Mem, r: Mem, d: int, n: int)
    requires Shape(s) && Shape(r)
  {
    forall c, j :: 0 <= c < ENTRIES && 0 <= j < ENTRIES ==>
      Entry(r, c, j) == if c == d && j < n then Absent else Entry(s, c, j)
  }

  lemma {:induction false} FreeEntriesEffect(s: Mem, d: int, n: nat)
    requires Inv(s) && SPAN <= d < ENTRIES && s.dir[d].Table? && n <= ENTRIES
    ensures Cleared(s, FreeEntries(s, d, n), d, n)
  {
    hide TablesOk, RolesOk, SharingOk, CountsOk, DropEntry;
    if n > 0 {
      FreeEntriesEffect(s, d, n - 1);
      var m := FreeEntries(s, d, n - 1);
      var r := DropEntry(m, d, n - 1);
      assert Cleared(s, m, d, n - 1) && SameEntriesBut(m, r, d, n - 1);
      assert Cleared(s, r, d, n);
    }
  }

  ghost function FreeDir(s: Mem, d: int): (r: Mem)
    requires Inv(s) && SPAN <= d < ENTRIES
    ensures Inv(r) && r.dir == s.dir[d := NoTable] && r.held == s.held && r.high == s.high && r.page == s.page
    ensures Cleared(s, r, d, ENTRIES)
  {
    if s.dir[d].NoTable? then s
    else
      var m := FreeEntries(s, d, ENTRIES);
      FreeEntriesEffect(s, d, ENTRIES);
      assert Cleared(s, m, d, ENTRIES);
      RemoveTableKeeps(m, d);
      RemoveTable(m, d)
  }

  /** free_page_tables on n regions from region d on. */
  ghost function FreeDirs(s: Mem, d: int, n: nat): (r: Mem)
    requires Inv(s) && SPAN <= d && d + n <= ENTRIES
    ensures Inv(r) && r.held == s.held && r.high == s.high && r.page == s.page
  {
    if n == 0 then s else FreeDir(FreeDirs(s, d, n - 1), d + (n - 1))
  }

  ghost predicate EmptyRegion(s: Mem, c: int)
    requires Shape(s) && 0 <= c < ENTRIES
  {
    s.dir[c].NoTable?
  }

  /** n regions from region d on are empty in r, and every other region is as in s. */
  ghost predicate Emptied(s: Mem, r: Mem, d: int, n: int)
    requires Shape(s) && Shape(r) && 0 <= d && d + n <= ENTRIES
  {
    && (forall k :: d <= k < d + n ==> EmptyRegion(r, k))
    && (forall k :: 0 <= k < ENTRIES && !(d <= k < d + n) ==> SameRegion(s, r, k) && r.dir[k] == s.dir[k])
  }

  /** exit empties exactly the regions it names. */
  lemma {:induction false} FreeDirsEffect(s: Mem, d: int, n: nat)
    requires Inv(s) && SPAN <= d && d + n <= ENTRIES
    ensures Emptied(s, FreeDirs(s, d, n), d, n)
  {
    hide TablesOk, RolesOk, SharingOk, CountsOk, FreeDir;
    if n > 0 {
      FreeDirsEffect(s, d, n - 1);
      var m, e := FreeDirs(s, d, n - 1), d + (n - 1);
      var r := FreeDir(m, e);
      assert Emptied(s, m, d, n - 1);
      forall k | 0 <= k < ENTRIES && !(d <= k < d + n) ensures SameRegion(s, r, k) {
        assert SameRegion(s, m, k);
      }
      forall k | d <= k < d + n ensures EmptyRegion(r, k) {
        assert k != e ==> EmptyRegion(m, k);
      }
      assert Emptied(s, r, d, n);
    }
  }

  // ---------------------------------------------------------------- fork

  /** copy_mem: a copy that runs out of memory is undone with free_page_tables. */
  ghost function Fork(s: Mem, p: int, c: int, n: nat): (r: Outcome)
    requires Inv(s) && MayFork(s, p, c, n)
    ensures Inv(r.mem)
  {
    match CopyDirs(s, p, c, n)
    case Ok(m) => Ok(m)
    case NoMemory(m) => NoMemory(FreeDirs(m, SPAN * c, n))
    case Panic(m) => Panic(m)
  }

  ghost predicate NoChild(s: Mem, c: int, n: nat)
    requires Shape(s) && 1 <= c < TASKS && n <= SPAN
  {
    forall k :: SPAN * c <= k < SPAN * c + n ==> s.dir[k].NoTable?
  }

  /** After a failed fork every count, every directory entry and every translation is as before. */
  lemma ForkUndone(s: Mem, p: int, c: int, n: nat)
    requires Inv(s) && MayFork(s, p, c, n) && NoChild(s, c, n) && Fork(s, p, c, n).NoMemory?
    ensures var r := Fork(s, p, c, n).mem;
            r.memMap == s.memMap && r.dir == s.dir && r.held == s.held
            && forall k :: SPAN <= k < ENTRIES ==> SameRegion(s, r, k)
  {
    hide TablesOk, RolesOk, SharingOk, CopyDirs, FreeDirs, Entry, MayCopy;
    var m := CopyDirs(s, p, c, n).mem;
    var r := FreeDirs(m, SPAN * c, n);
    CopyDirsEffect(s, p, c, n);
    CopyDirsFrame(s, p, c, n);
    FreeDirsEffect(m, SPAN * c, n);
    assert Emptied(m, r, SPAN * c, n);
    forall k | SPAN * c <= k < SPAN * c + n ensures r.dir[k] == s.dir[k] {
      assert EmptyRegion(r, k);
    }
    assert r.dir == s.dir;
    forall k | SPAN <= k < ENTRIES ensures SameRegion(s, r, k) {
      if SPAN * c <= k < SPAN * c + n {
        EmptyRegions(s, r, k);
      } else {
        assert SameRegion(s, m, k) && SameRegion(m, r, k);
      }
    }
    SameNamesSameCounts(s, r);
  }

  lemma EmptyRegions(s: Mem, r: Mem, k: int)
    requires Shape(s) && Shape(r) && 0 <= k < ENTRIES && s.dir[k].NoTable? && r.dir[k].NoTable?
    ensures SameRegion(s, r, k)
  {
  }

  lemma SameNamesSameCounts(s: Mem, r: Mem)
    requires Shape(s) && Shape(r) && CountsOk(s) && CountsOk(r) && r.dir == s.dir && r.held == s.held
    requires forall k :: SPAN <= k < ENTRIES ==> SameRegion(s, r, k)
    ensures r.memMap == s.memMap
  {
    forall k | 0 <= k < PAGING_PAGES ensures r.memMap[k] == s.memMap[k] {
      var f := k + LOW;
      forall d, i | IsSlot(d, i) ensures Names(r, d, i, f) == Names(s, d, i, f) {
        assert SameRegion(s, r, d);
        assert NameAt(r, d, i) == NameAt(s, d, i);
      }
      assert PteRefs(r, f) == PteRefs(s, f) && DirRefs(r, f) == DirRefs(s, f);
      assert r.memMap[f - LOW] == Count(r, f) && s.memMap[f - LOW] == Count(s, f);
    }
  }
}
