/**
 mm/memory.c and copy_mem of kernel/fork.c as they run: global tables updated in place by loops.
 Every method is tied to the function of CopyOnWrite and PageFaults that specifies it.
 */
module MemoryManager {
  import opened PageFrames
  import opened CopyOnWrite
  import opened PageFaults

  const REGION: nat := 0x400000 // bytes translated by one directory entry

  datatype Status = Done | OutOfMemory | Panicked

  class Manager {
    var memMap: seq<int>
    var dir: seq<Pde>
    var tab: seq<seq<Pte>>
    var page: seq<seq<bv8>>
    var high: nat
    ghost var held: seq<nat>

    ghost function State(): Mem
      reads this
    {
      Mem(memMap, dir, tab, page, held, high)
    }

    ghost predicate Valid()
      reads this
    {
      Inv(State())
    }

    /** setup_paging and mem_init: task 0 sees every frame, and the frames from start to end are free. */
    constructor (start: nat, end: nat, memory: seq<seq<bv8>>)
      requires LOW <= start <= end <= FRAMES
      requires |memory| == FRAMES && forall f :: 0 <= f < FRAMES ==> |memory[f]| == PAGE_SIZE
      ensures Valid() && State() == Booted(start, end, memory)
    {
      hide Inv, Entry, IdentityTable, EmptyTable;
      high := end;
      page := memory;
      dir := seq(ENTRIES, _ => NoTable);
      tab := seq(FRAMES, _ => EmptyTable());
      memMap := seq(PAGING_PAGES, _ => USED);
      held := seq(FRAMES, f => if f < LOW || start <= f < end then 0 else USED);
      new;
      SetupPaging();
      MemInit(start, end);
      BootedIsFine(start, end, memory);
      ghost var b := Booted(start, end, memory);
      assert memMap == b.memMap;
      assert dir == b.dir;
      assert tab == b.tab;
      assert held == b.held;
    }

    /** Four tables behind the directory, filled from the last frame down. */
    method SetupPaging()
      requires |dir| == ENTRIES && (forall d :: 0 <= d < ENTRIES ==> dir[d] == NoTable)
      requires |tab| == FRAMES && forall f :: 0 <= f < FRAMES ==> tab[f] == EmptyTable()
      modifies this`dir, this`tab
      ensures |dir| == ENTRIES && forall d :: 0 <= d < ENTRIES ==> dir[d] == if d < 4 then Table(d + 1) else NoTable
      ensures |tab| == FRAMES && forall f :: 0 <= f < FRAMES ==>
              tab[f] == if 1 <= f <= 4 then IdentityTable(f - 1) else EmptyTable()
    {
      dir := dir[0 := Table(1)][1 := Table(2)][2 := Table(3)][3 := Table(4)];
      ghost var dir1 := dir;
      var k := 4 * ENTRIES;
      while k > 0
        invariant dir == dir1 && 0 <= k <= 4 * ENTRIES && |tab| == FRAMES
                  && (forall f :: 0 <= f < FRAMES ==> |tab[f]| == ENTRIES)
        invariant forall f :: 0 <= f < FRAMES && !(1 <= f <= 4) ==> tab[f] == EmptyTable()
        invariant forall f, i :: 1 <= f <= 4 && 0 <= i < ENTRIES && k <= ENTRIES * (f - 1) + i ==>
                    tab[f][i] == Page(ENTRIES * (f - 1) + i, true, false)
      {
        k := k - 1;
        var t := 1 + k / ENTRIES;
        tab := tab[t := tab[t][k % ENTRIES := Page(k, true, false)]];
      }
      forall f | 1 <= f <= 4 ensures tab[f] == IdentityTable(f - 1) {
        forall i | 0 <= i < ENTRIES ensures tab[f][i] == IdentityTable(f - 1)[i] {}
      }
    }

    method MemInit(start: nat, end: nat)
      requires LOW <= start <= end <= FRAMES
      requires |memMap| == PAGING_PAGES && forall k :: 0 <= k < PAGING_PAGES ==> memMap[k] == USED
      modifies this`memMap
      ensures |memMap| == PAGING_PAGES && forall k :: 0 <= k < PAGING_PAGES ==>
              memMap[k] == if start <= k + LOW < end then 0 else USED
    {
      var i := start - LOW;
      while i < end - LOW
        invariant start - LOW <= i <= end - LOW && |memMap| == PAGING_PAGES
        invariant forall k :: 0 <= k < PAGING_PAGES ==> memMap[k] == if start - LOW <= k < i then 0 else USED
      {
        memMap := memMap[i := 0];
        i := i + 1;
      }
    }

    /** get_free_page: scans mem_map from the end; 0 when nothing is free. */
    method GetFreePage() returns (frame: nat)
      requires Valid()
      modifies this`memMap, this`tab, this`page, this`held
      ensures Valid()
      ensures frame == 0 <==> OutOfFrames(old(State()))
      ensures frame == 0 ==> State() == old(State())
      ensures frame != 0 ==> frame == FreeFrame(old(State())) && State() == Alloc(old(State()), frame)
    {
      var n := PAGING_PAGES;
      while n > 0 && memMap[n - 1] != 0
        invariant 0 <= n <= PAGING_PAGES
        invariant LastFree(memMap, PAGING_PAGES) == LastFree(memMap, n)
      {
        n := n - 1;
      }
      if n == 0 { return 0; }
      frame := n - 1 + LOW;
      assert frame == FreeFrame(State());
      memMap := memMap[n - 1 := 1];
      tab := tab[frame := EmptyTable()];
      page := page[frame := ZeroPage()];
      held := held[frame := 1];
    }

    /** free_page: one reference less; freeing a free or nonexistent page panics. */
    method FreePage(frame: nat) returns (panic: bool)
      requires Shape(State())
      modifies this`memMap
      ensures frame < LOW ==> !panic && memMap == old(memMap)
      ensures frame >= LOW ==> (panic <==> frame >= high || old(memMap)[frame - LOW] == 0)
      ensures panic ==> memMap == old(memMap)
      ensures LOW <= frame && !panic ==> memMap == old(memMap)[frame - LOW := (old(memMap)[frame - LOW] - 1) % 256]
    {
      if frame < LOW { return false; }
      if frame >= high { return true; }
      var nr := frame - LOW;
      var was := memMap[nr];
      memMap := memMap[nr := (was - 1) % 256];
      if was != 0 { return false; }
      memMap := memMap[nr := 0];
      panic := true;
    }

    method SetPte(d: nat, i: nat, e: Pte)
      requires Shape(State()) && IsSlot(d, i) && dir[d].Table?
      modifies this`tab
      ensures State() == SetEntry(old(State()), d, i, e)
    {
      var t := dir[d].frame;
      tab := tab[t := tab[t][i := e]];
    }

    /** free_page_tables on size bytes from linear address from on; task 0's other regions are never asked for. */
    method FreePageTables(from: nat, size: nat) returns (status: Status)
      requires Valid() && from + size <= ENTRIES * REGION && (from % REGION != 0 || from == 0 || from >= SPAN * REGION)
      modifies this`memMap, this`dir, this`tab
      ensures Valid()
      ensures from % REGION != 0 || from == 0 ==> status == Panicked && State() == old(State())
      ensures from % REGION == 0 && from != 0 ==>
                status == Done && from / REGION + (size + REGION - 1) / REGION <= ENTRIES &&
                State() == FreeDirs(old(State()), from / REGION, (size + REGION - 1) / REGION)
    {
      hide TablesOk, RolesOk, SharingOk, CountsOk, FreeDir;
      if from % REGION != 0 || from == 0 { return Panicked; }
      var n := (size + REGION - 1) / REGION;
      var first := from / REGION;
      ghost var s0 := State();
      var k := 0;
      while k < n
        invariant 0 <= k <= n && SPAN <= first && first + n <= ENTRIES && high == old(high) && held == old(held)
                  && page == old(page)
        invariant Valid() && State() == FreeDirs(s0, first, k)
      {
        FreeRegion(first + k);
        k := k + 1;
      }
      status := Done;
    }

    method FreeEntry(d: nat, i: nat)
      requires Valid() && IsSlot(d, i) && dir[d].Table?
      modifies this`memMap, this`tab
      ensures Valid() && State() == DropEntry(old(State()), d, i)
    {
      ghost var s := State();
      var e := tab[dir[d].frame][i];
      if e.Page? {
        UnmapKeeps(s, d, i);
        var panic := FreePage(e.frame);
        assert !panic;
      }
      SetPte(d, i, Absent);
      if e.Absent? { SetAbsent(s, d, i); }
    }

    method FreeLoop(d: nat)
      requires Valid() && SPAN <= d < ENTRIES && dir[d].Table?
      modifies this`memMap, this`tab
      ensures Valid() && State() == FreeEntries(old(State()), d, ENTRIES)
    {
      hide TablesOk, RolesOk, SharingOk, CountsOk, DropEntry;
      ghost var s0 := State();
      var nr := 0;
      while nr < ENTRIES
        invariant 0 <= nr <= ENTRIES && Valid() && State() == FreeEntries(s0, d, nr)
      {
        FreeEntry(d, nr);
        nr := nr + 1;
      }
    }

    /** One directory entry of free_page_tables; neither call of free_page can panic. */
    method FreeRegion(d: nat)
      requires Valid() && SPAN <= d < ENTRIES
      modifies this`memMap, this`dir, this`tab
      ensures Valid() && State() == FreeDir(old(State()), d)
    {
      hide RolesOk, SharingOk, CountsOk, FreeEntries;
      if dir[d].NoTable? { return; }
      ghost var s0 := State();
      FreeLoop(d);
      FreeEntriesEffect(s0, d, ENTRIES);
      assert Cleared(s0, State(), d, ENTRIES);
      RemoveTableKeeps(State(), d);
      var panic := FreePage(dir[d].frame);
      assert !panic;
      dir := dir[d := NoTable];
    }

    method CopyOneEntry(d: nat, e: nat, i: nat)
      requires Valid() && i < ENTRIES && MayCopy(State(), d, e, i + 1) && dir[d].Table? && dir[e].Table?
      requires Entry(State(), e, i) == Absent
      modifies this`memMap, this`tab
      ensures Valid() && State() == CopyEntry(old(State()), d, e, i)
    {
      hide TablesOk, SharingOk;
      ghost var s := State();
      var thisPage := tab[dir[d].frame][i];
      if thisPage.Absent? { return; }
      assert Entry(s, d, i) == thisPage && thisPage.frame < FRAMES && (LOW <= thisPage.frame ==> SPAN <= d);
      assert Shareable(s, d, e, i);
      ShareViews(s, d, e, i);
      hide Inv, RolesOk, CountsOk, MayCopy;
      thisPage := thisPage.(write := false);
      SetPte(e, i, thisPage);
      if thisPage.frame >= LOW {
        SetPte(d, i, thisPage);
        var nr := thisPage.frame - LOW;
        memMap := memMap[nr := (memMap[nr] + 1) % 256];
      }
    }

    method CopyLoop(d: nat, e: nat, nr: nat)
      requires Valid() && nr <= ENTRIES && MayCopy(State(), d, e, nr) && dir[d].Table? && dir[e].Table?
               && Blank(State(), e, 0)
      modifies this`memMap, this`tab
      ensures Valid() && State() == CopyEntries(old(State()), d, e, nr)
    {
      hide TablesOk, RolesOk, SharingOk, CountsOk, CopyEntry;
      ghost var m := State();
      var i := 0;
      while i < nr
        invariant 0 <= i <= nr && Valid() && State() == CopyEntries(m, d, e, i)
      {
        CopyOneEntry(d, e, i);
        i := i + 1;
      }
    }

    /** One directory entry of copy_page_tables. */
    method CopyRegion(d: nat, e: nat, nr: nat) returns (status: Status)
      requires Valid() && nr <= ENTRIES && MayCopy(State(), d, e, nr)
      modifies this`memMap, this`dir, this`tab, this`page, this`held
      ensures Valid() && Reports(status, CopyDir(old(State()), d, e, nr))
              && State() == CopyDir(old(State()), d, e, nr).mem
    {
      hide TablesOk, RolesOk, SharingOk, CountsOk, CopyEntries;
      ghost var s0 := State();
      if dir[e].Table? { return Panicked; }
      if dir[d].NoTable? { return Done; }
      var t := GetFreePage();
      if t == 0 { return OutOfMemory; }
      dir := dir[e := Table(t)];
      held := held[t := 0];
      assert State() == NewTable(s0, e);
      CopyLoop(d, e, nr);
      status := Done;
    }

    /** copy_page_tables between two tasks' spaces. */
    method CopyPageTables(p: nat, c: nat, n: nat) returns (status: Status)
      requires Valid() && MayFork(State(), p, c, n)
      modifies this`memMap, this`dir, this`tab, this`page, this`held
      ensures Valid() && Reports(status, CopyDirs(old(State()), p, c, n))
              && State() == CopyDirs(old(State()), p, c, n).mem
    {
      hide TablesOk, RolesOk, SharingOk, CountsOk, CopyDir, CopyDirs, MayCopy;
      ghost var s0 := State();
      CopyNoDirs(s0, p, c);
      var k := 0;
      while k < n
        invariant 0 <= k <= n && Valid() && CopyDirs(s0, p, c, k) == Ok(State())
      {
        CopyDirsLast(s0, p, c, k + 1);
        var st := CopyRegion(SPAN * p + k, SPAN * c + k, PagesOf(p));
        if st != Done {
          CopyDirsStops(s0, p, c, k + 1, n);
          return st;
        }
        k := k + 1;
      }
      status := Done;
    }

    /** copy_mem: on failure the half-made child is freed again. */
    method CopyMem(p: nat, c: nat, limit: nat) returns (status: Status)
      requires Valid() && MayFork(State(), p, c, (limit + REGION - 1) / REGION)
      modifies this`memMap, this`dir, this`tab, this`page, this`held
      ensures var n := (limit + REGION - 1) / REGION;
              Valid() && Reports(status, Fork(old(State()), p, c, n)) && State() == Fork(old(State()), p, c, n).mem
    {
      hide TablesOk, RolesOk, SharingOk, CountsOk, CopyDirs, FreeDirs;
      status := CopyPageTables(p, c, (limit + REGION - 1) / REGION);
      if status == OutOfMemory { var _ := FreePageTables(SPAN * c * REGION, limit); }
    }

    /** un_wp_page, the heart of do_wp_page and write_verify. */
    method UnWriteProtect(d: nat, i: nat) returns (status: Status)
      requires Valid() && IsSlot(d, i) && Entry(State(), d, i).Page?
      modifies this`memMap, this`tab, this`page, this`held
      ensures Valid() && Reports(status, UnWpPage(old(State()), d, i)) && State() == UnWpPage(old(State()), d, i).mem
    {
      hide TablesOk, SharingOk, CountsOk, CopyPage;
      ghost var s := State();
      var e := tab[dir[d].frame][i];
      var oldPage := e.frame;
      assert oldPage < FRAMES;
      if oldPage >= LOW && memMap[oldPage - LOW] == 1 {
        SetWriteKeeps(s, d, i);
        SetPte(d, i, e.(write := true));
        return Done;
      }
      var newPage := GetFreePage();
      if newPage == 0 { return OutOfMemory; }
      CopyPageRaw(s, d, i);
      if oldPage >= LOW {
        var nr := oldPage - LOW;
        memMap := memMap[nr := (memMap[nr] - 1) % 256];
      }
      SetPte(d, i, Page(newPage, true, false));
      held := held[newPage := 0];
      page := page[newPage := page[oldPage]];
      status := Done;
    }

    /** write_verify: un-shares a present, read-only page. */
    method WriteVerify(d: nat, i: nat) returns (status: Status)
      requires Valid() && IsSlot(d, i)
      modifies this`memMap, this`tab, this`page, this`held
      ensures Valid() && Reports(status, Verify(old(State()), d, i)) && State() == Verify(old(State()), d, i).mem
    {
      hide TablesOk, RolesOk, SharingOk, CountsOk, UnWpPage;
      if dir[d].NoTable? { return Done; }
      var e := tab[dir[d].frame][i];
      if e.Page? && !e.write {
        status := UnWriteProtect(d, i);
      } else {
        status := Done;
      }
    }

    /** The table of region d, made if there is none. */
    method EnsureTable(d: nat) returns (status: Status)
      requires Valid() && SPAN <= d < ENTRIES
      modifies this`memMap, this`dir, this`tab, this`page, this`held
      ensures Valid() && Reports(status, WithTable(old(State()), d)) && State() == WithTable(old(State()), d).mem
    {
      hide TablesOk, RolesOk, SharingOk, CountsOk;
      if dir[d].Table? { return Done; }
      ghost var s := State();
      var t := GetFreePage();
      if t == 0 { return OutOfMemory; }
      dir := dir[d := Table(t)];
      held := held[t := 0];
      assert State() == NewTable(s, d);
      status := Done;
    }

    /** put_page of a page the caller has got. */
    method PutAt(frame: nat, d: nat, i: nat) returns (status: Status)
      requires Valid() && IsSlot(d, i) && LOW <= frame < high && held[frame] == 1
      modifies this`memMap, this`dir, this`tab, this`page, this`held
      ensures Reports(status, PutPage(old(State()), frame, d, i)) && State() == PutPage(old(State()), frame, d, i).mem
      ensures status == Done ==> (Valid() <==> !Occupied(old(State()), d, i))
    {
      hide TablesOk, RolesOk, SharingOk, CountsOk, WithTable;
      ghost var s := State();
      status := EnsureTable(d);
      if status != Done { return; }
      SetPte(d, i, Page(frame, true, false));
      held := held[frame := 0];
      assert State() == PutPage(s, frame, d, i).mem;
    }

    /** get_empty_page; OutOfMemory is its oom. */
    method GetEmpty(d: nat, i: nat) returns (status: Status)
      requires Valid() && IsSlot(d, i)
      modifies this`memMap, this`dir, this`tab, this`page, this`held
      ensures Reports(status, GetEmptyPage(old(State()), d, i)) && State() == GetEmptyPage(old(State()), d, i).mem
      ensures Valid() <==> status == OutOfMemory || !Occupied(old(State()), d, i)
    {
      hide TablesOk, RolesOk, SharingOk, CountsOk, PutPage;
      ghost var s := State();
      GetEmptyPageDoes(s, d, i);
      var tmp := GetFreePage();
      if tmp == 0 { return OutOfMemory; }
      AllocKeeps(s, tmp);
      ghost var s1 := State();
      status := PutAt(tmp, d, i);
      if status == OutOfMemory {
        UnholdKeeps(s1, tmp);
        var panic := FreePage(tmp);
        held := held[tmp := held[tmp] - 1];
      }
    }

    /** try_to_share between region d of another task and region e of the current one. */
    method ShareFrom(d: nat, e: nat, i: nat) returns (shared: bool, status: Status)
      requires Valid() && Twins(d, e) && i < ENTRIES
      modifies this`memMap, this`dir, this`tab, this`page, this`held
      ensures Valid() && State() == TryToShare(old(State()), d, e, i).mem
      ensures var r := TryToShare(old(State()), d, e, i);
              && (shared <==> r.Shared?) && (status == OutOfMemory <==> r.ShareNoMemory?)
                 && (status == Panicked <==> r.SharePanic?)
    {
      hide TablesOk, RolesOk, SharingOk, CountsOk, WithTable, ShareInto;
      ghost var s := State();
      shared, status := false, Done;
      if dir[d].NoTable? { return; }
      var from := tab[dir[d].frame][i];
      if from.Absent? || from.dirty { return; }
      if from.frame >= high || from.frame < LOW { return; }
      status := EnsureTable(e);
      if status != Done { return; }
      ghost var m := State();
      assert Entry(m, d, i) == from;
      shared, status := ShareEntry(d, e, i, from);
    }

    /** The last lines of try_to_share. */
    method ShareEntry(d: nat, e: nat, i: nat, from: Pte) returns (shared: bool, status: Status)
      requires Valid() && Twins(d, e) && i < ENTRIES && HasTable(State(), e) && from.Page?
               && Entry(State(), d, i) == from && LOW <= from.frame
      modifies this`memMap, this`tab
      ensures Valid() && State() == ShareInto(old(State()), d, e, i).mem
      ensures shared == ShareInto(old(State()), d, e, i).Shared? && status == if shared then Done else Panicked
    {
      hide TablesOk, RolesOk, SharingOk, CountsOk, Share;
      ghost var s := State();
      shared, status := false, Panicked;
      if tab[dir[e].frame][i].Page? { return; }
      TwinsShareable(s, d, e, i);
      ShareViews(s, d, e, i);
      ShareOrder(s, d, e, i);
      SetPte(d, i, from.(write := false));
      SetPte(e, i, from.(write := false));
      var nr := from.frame - LOW;
      memMap := memMap[nr := (memMap[nr] + 1) % 256];
      shared, status := true, Done;
    }
  }

  /** It does not matter which of the two entries is written first. */
  lemma ShareOrder(s: Mem, d: int, e: int, i: int)
    requires Inv(s) && Twins(d, e) && IsSlot(d, i) && IsSlot(e, i) && s.dir[d].Table? && s.dir[e].Table?
    requires Entry(s, d, i).Page? && LOW <= Entry(s, d, i).frame < FRAMES
    ensures var p := ReadOnly(Entry(s, d, i)); var s1 := SetEntry(s, d, i, p);
            Shape(s1) && s1.dir[e].Table? && Shape(SetEntry(s1, e, i, p))
                && AddCount(SetEntry(s1, e, i, p), p.frame, 1) == Share(s, d, e, i)
  {
    hide RolesOk, SharingOk, CountsOk;
    var p := ReadOnly(Entry(s, d, i));
    SetEntryLocal(s, d, i, p);
    SetEntryLocal(SetEntry(s, d, i, p), e, i, p);
    SetEntryLocal(s, e, i, p);
    assert s.dir[d].frame != s.dir[e].frame;
    var a, b := SetEntry(SetEntry(s, d, i, p), e, i, p), SetEntry(SetEntry(s, e, i, p), d, i, p);
    assert a.tab == b.tab;
  }

  predicate Reports(status: Status, o: Outcome) {
    match o
    case Ok(_) => status == Done
    case NoMemory(_) => status == OutOfMemory
    case Panic(_) => status == Panicked
  }

  lemma {:induction false} CopyDirsStops(s: Mem, p: int, c: int, k: nat, n: nat)
    requires Inv(s) && MayFork(s, p, c, n) && k <= n && !CopyDirs(s, p, c, k).Ok?
    ensures CopyDirs(s, p, c, n) == CopyDirs(s, p, c, k)
    decreases n - k
  {
    hide TablesOk, RolesOk, SharingOk, CountsOk, CopyDir, MayCopy;
    if k < n { CopyDirsStops(s, p, c, k + 1, n); }
  }

  /** The stores of un_wp_page, in the order the code makes them, build the specified state. */
  lemma CopyPageRaw(s: Mem, d: int, i: int)
    requires Inv(s) && !OutOfFrames(s) && IsSlot(d, i) && Entry(s, d, i).Page?
    ensures var f, g := Entry(s, d, i).frame, FreeFrame(s);
            var s1 := Alloc(s, g);
            var s2 := if f < LOW then s1 else AddCount(s1, f, -1);
            Shape(s2) && s2.dir[d].Table?
            && SetEntry(s2, d, i, Page(g, true, false)).(held := s1.held[g := 0], page := s1.page[g := s1.page[f]])
               == CopyPage(s, d, i)
  {
    hide TablesOk, SharingOk, CountsOk;
    var f, g, t := Entry(s, d, i).frame, FreeFrame(s), s.dir[d].frame;
    AllocKeeps(s, g);
    var s1 := Alloc(s, g);
    UnmapKeeps(s1, d, i);
    assert Entry(s1, d, i) == Entry(s, d, i);
    assert (d, i) !in PteRefs(s, g) && f != g;
    assert s1.tab[t][i := Absent][i := Page(g, true, false)] == s1.tab[t][i := Page(g, true, false)];
  }

  lemma SetAbsent(s: Mem, d: int, i: int)
    requires Shape(s) && IsSlot(d, i) && s.dir[d].Table? && Entry(s, d, i) == Absent
    ensures SetEntry(s, d, i, Absent) == s
  {
    var t := s.dir[d].frame;
    assert s.tab[t][i := Absent] == s.tab[t];
    assert s.tab[t := s.tab[t]] == s.tab;
  }
}
