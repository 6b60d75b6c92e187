/**
 Physical frames, page tables and reference counts of mm/memory.c.

 A frame has two typed views: as a page table (`tab`) and as a page of bytes (`page`).
 get_free_page clears both, so a frame may change role only through it.
 Page-directory entries 0..15 belong to task 0 (the kernel's own mapping); task n owns
 entries 16n..16n+15, that is 64 MB of linear addresses.
 */
module PageFrames {

  const ENTRIES: nat := 1024      // entries of a directory or of a table
  const LOW: nat := 256           // first frame counted by mem_map (LOW_MEM >> 12)
  const PAGING_PAGES: nat := 3840 // length of mem_map
  const FRAMES: nat := 4096       // LOW + PAGING_PAGES
  const PAGE_SIZE: nat := 4096
  const SPAN: nat := 16           // directory entries per task
  const TASKS: nat := 64
  const USED: nat := 100

  datatype Pde = NoTable | Table(frame: nat)
  datatype Pte = Absent | Page(frame: nat, write: bool, dirty: bool)

  /** `held[f]` counts kernel references to frame f that no table entry records: a page just
      returned by get_free_page, a task structure, a pipe buffer, memory marked USED at boot. */
  datatype Mem = Mem(memMap: seq<int>, dir: seq<Pde>, tab: seq<seq<Pte>>, page: seq<seq<bv8>>,
                     held: seq<nat>, high: nat)

  function EmptyTable(): seq<Pte> { seq(ENTRIES, _ => Absent) }

  function ZeroPage(): (p: seq<bv8>)
    ensures |p| == PAGE_SIZE && forall i :: 0 <= i < |p| ==> p[i] == 0
  {
    seq(PAGE_SIZE, _ => 0)
  }

  ghost predicate Shape(s: Mem) {
    && |s.memMap| == PAGING_PAGES && |s.dir| == ENTRIES && |s.tab| == |s.page| == |s.held| == FRAMES
    && LOW <= s.high <= FRAMES
    && (forall f :: 0 <= f < FRAMES ==> |s.tab[f]| == ENTRIES)
    && (forall f :: 0 <= f < FRAMES ==> |s.page[f]| == PAGE_SIZE)
    && (forall d :: 0 <= d < ENTRIES && s.dir[d].Table? ==> s.dir[d].frame < s.high)
  }

  predicate IsSlot(d: int, i: int) { SPAN <= d < ENTRIES && 0 <= i < ENTRIES }

  /** The page-table entry that translates page i of the 4 MB region d. */
  ghost function Entry(s: Mem, d: int, i: int): Pte
    requires Shape(s) && 0 <= d < ENTRIES && 0 <= i < ENTRIES
  {
    if s.dir[d].NoTable? then Absent else s.tab[s.dir[d].frame][i]
  }

  ghost predicate Names(s: Mem, d: int, i: int, f: int)
    requires Shape(s)
  {
    IsSlot(d, i) && Entry(s, d, i).Page? && Entry(s, d, i).frame == f
  }

  ghost function PteRefs(s: Mem, f: int): set<(int, int)>
    requires Shape(s)
  {
    set d, i | SPAN <= d < ENTRIES && 0 <= i < ENTRIES && Names(s, d, i, f) :: (d, i)
  }

  ghost function DirRefs(s: Mem, f: int): set<int>
    requires Shape(s)
  {
    set d | SPAN <= d < ENTRIES && s.dir[d].Table? && s.dir[d].frame == f
  }

  /** What a user task reads at page i of region d; None when the page is not present. */
  datatype View = Nothing | Bytes(bytes: seq<bv8>)

  ghost function ViewAt(s: Mem, d: int, i: int): View
    requires Shape(s) && 0 <= d < ENTRIES && 0 <= i < ENTRIES
  {
    match Entry(s, d, i)
    case Absent => Nothing
    case Page(f, _, _) => if f < FRAMES then Bytes(s.page[f]) else Nothing
  }

  // ---------------------------------------------------------------- the invariant

  /** Task 0's tables lie below LOW; every other table is above it and serves one directory entry. */
  ghost predicate TablesOk(s: Mem)
    requires Shape(s)
  {
    && (forall d :: 0 <= d < SPAN && s.dir[d].Table? ==> s.dir[d].frame < LOW)
    && (forall d :: SPAN <= d < ENTRIES && s.dir[d].Table? ==> LOW <= s.dir[d].frame)
    && (forall d, e :: SPAN <= d < e < ENTRIES && s.dir[d].Table? && s.dir[e].Table? ==>
       s.dir[d].frame != s.dir[e].frame)
  }

  /** A frame is a table, or held by the kernel, or mapped by user entries, never two of these. */
  ghost predicate RolesOk(s: Mem)
    requires Shape(s)
  {
    && (forall d, i :: IsSlot(d, i) && Entry(s, d, i).Page? ==>
          Entry(s, d, i).frame < s.high && s.held[Entry(s, d, i).frame] == 0)
    && (forall d :: SPAN <= d < ENTRIES && s.dir[d].Table? ==> s.held[s.dir[d].frame] == 0)
    && (forall c, d, i :: IsSlot(d, i) && SPAN <= c < ENTRIES && s.dir[c].Table? && Entry(s, d, i).Page? ==>
          Entry(s, d, i).frame != s.dir[c].frame)
  }

  /** Two entries that name one counted frame sit at the same offset of two tasks, and neither is
      writable; frames below LOW are never writable by a user entry. */
  ghost predicate SharingOk(s: Mem)
    requires Shape(s)
  {
    && (forall d, i :: IsSlot(d, i) && Entry(s, d, i).Page? && Entry(s, d, i).write ==> LOW <= Entry(s, d, i).frame)
    && (forall d, i, e, j :: IsSlot(d, i) && IsSlot(e, j) && Entry(s, d, i).Page? && Entry(s, e, j).Page?
          && LOW <= Entry(s, d, i).frame == Entry(s, e, j).frame && (d != e || i != j)
          ==> i == j && d % SPAN == e % SPAN && !Entry(s, d, i).write && !Entry(s, e, j).write)
  }

  ghost function Count(s: Mem, f: int): nat
    requires Shape(s) && 0 <= f < FRAMES
  {
    |PteRefs(s, f)| + |DirRefs(s, f)| + s.held[f]
  }

  ghost predicate CountsOk(s: Mem)
    requires Shape(s)
  {
    && (forall f :: LOW <= f < FRAMES ==> s.memMap[f - LOW] == Count(s, f))
    && (forall f :: 0 <= f < FRAMES ==> s.held[f] <= if f < LOW then 0 else USED)
    && (forall f :: s.high <= f < FRAMES ==> s.held[f] > 0)
  }

  ghost predicate Inv(s: Mem) {
    Shape(s) && TablesOk(s) && RolesOk(s) && SharingOk(s) && CountsOk(s)
  }

  // ---------------------------------------------------------------- counting

  ghost function Column(o: int, i: int, n: nat): set<(int, int)> {
    set k | 1 <= k < n :: (SPAN * k + o, i)
  }

  lemma {:induction false} ColumnSize(o: int, i: int, n: nat)
    requires n >= 1
    ensures |Column(o, i, n)| <= n - 1
  {
    if n == 1 {
      assert Column(o, i, n) == {};
    } else {
      ColumnSize(o, i, n - 1);
      assert Column(o, i, n) == Column(o, i, n - 1) + {(SPAN * (n - 1) + o, i)};
    }
  }

  lemma SubsetSize<T>(a: set<T>, b: set<T>)
    requires a <= b
    ensures |a| <= |b|
  {
    assert b == a + (b - a);
  }

  /** A page frame is mapped at most once per task, so the byte counters of mem_map never wrap. */
  lemma CountIsSmall(s: Mem, f: int)
    requires Inv(s) && LOW <= f < FRAMES
    ensures Count(s, f) <= USED
    ensures PteRefs(s, f) != {} ==> Count(s, f) == |PteRefs(s, f)| < TASKS
    ensures forall d, i :: Names(s, d, i, f) ==> Count(s, f) >= 1
  {
    if PteRefs(s, f) != {} {
      var p: (int, int) :| p in PteRefs(s, f);
      var o := p.0 % SPAN;
      forall q | q in PteRefs(s, f)
        ensures q in Column(o, p.1, TASKS)
      {
        assert q.0 % SPAN == o && q.1 == p.1;
        var k := q.0 / SPAN;
        assert q == (SPAN * k + o, p.1) && 1 <= k < TASKS;
      }
      ColumnSize(o, p.1, TASKS);
      SubsetSize(PteRefs(s, f), Column(o, p.1, TASKS));
      assert DirRefs(s, f) == {};
      assert Names(s, p.0, p.1, f) && s.held[f] == 0;
    } else if DirRefs(s, f) != {} {
      var d :| d in DirRefs(s, f);
      assert DirRefs(s, f) == {d};
    }
    forall d, i | Names(s, d, i, f)
      ensures Count(s, f) >= 1
    {
      assert (d, i) in PteRefs(s, f);
    }
  }

  /** mem_map == 1 on a mapped frame means that this entry is its only user. */
  lemma CountOneIsSole(s: Mem, d: int, i: int)
    requires Inv(s) && IsSlot(d, i) && Entry(s, d, i).Page? && LOW <= Entry(s, d, i).frame
    ensures s.memMap[Entry(s, d, i).frame - LOW] == 1 <==> PteRefs(s, Entry(s, d, i).frame) == {(d, i)}
  {
    var f := Entry(s, d, i).frame;
    assert Names(s, d, i, f) && (d, i) in PteRefs(s, f);
    CountIsSmall(s, f);
    if |PteRefs(s, f)| == 1 {
      assert |PteRefs(s, f) - {(d, i)}| == 0;
    }
  }

  // ---------------------------------------------------------------- single updates

  ghost function SetEntry(s: Mem, d: int, i: int, e: Pte): Mem
    requires Shape(s) && IsSlot(d, i) && s.dir[d].Table?
  {
    var t := s.dir[d].frame;
    s.(tab := s.tab[t := s.tab[t][i := e]])
  }

  /** A table serves one directory entry, so writing it changes exactly one translation. */
  lemma SetEntryLocal(s: Mem, d: int, i: int, e: Pte)
    requires Shape(s) && TablesOk(s) && IsSlot(d, i) && s.dir[d].Table?
    ensures var s' := SetEntry(s, d, i, e);
            Shape(s') && TablesOk(s')
            && (forall c, j :: 0 <= c < ENTRIES && 0 <= j < ENTRIES ==>
                  Entry(s', c, j) == if c == d && j == i then e else Entry(s, c, j))
  {
  }

  ghost function AddCount(s: Mem, f: int, delta: int): Mem
    requires Shape(s) && LOW <= f < FRAMES
  {
    s.(memMap := s.memMap[f - LOW := (s.memMap[f - LOW] + delta) % 256])
  }

  /** get_free_page: the frame is marked, cleared in both views, and held by the caller. */
  ghost function Alloc(s: Mem, f: int): Mem
    requires Shape(s) && LOW <= f < FRAMES
  {
    s.(memMap := s.memMap[f - LOW := 1], tab := s.tab[f := EmptyTable()], page := s.page[f := ZeroPage()],
       held := s.held[f := 1])
  }

  /** free_page on a frame that no table entry names any more. */
  ghost function Unhold(s: Mem, f: int): Mem
    requires Shape(s) && LOW <= f < FRAMES && s.held[f] > 0
  {
    AddCount(s, f, -1).(held := s.held[f := s.held[f] - 1])
  }

  /** A held, cleared frame becomes the page table of region d. */
  ghost function InstallTable(s: Mem, d: int, f: nat): Mem
    requires Shape(s) && SPAN <= d < ENTRIES && LOW <= f < s.high && s.held[f] == 1
  {
    s.(dir := s.dir[d := Table(f)], held := s.held[f := 0])
  }

  /** The table of region d is given back. */
  ghost function RemoveTable(s: Mem, d: int): Mem
    requires Shape(s) && SPAN <= d < ENTRIES && s.dir[d].Table? && LOW <= s.dir[d].frame
  {
    AddCount(s, s.dir[d].frame, -1).(dir := s.dir[d := NoTable])
  }

  /** A held frame becomes a private writable page. */
  ghost function MapHeld(s: Mem, d: int, i: int, f: nat): Mem
    requires Shape(s) && IsSlot(d, i) && s.dir[d].Table? && LOW <= f < s.high && s.held[f] == 1
  {
    SetEntry(s, d, i, Page(f, true, false)).(held := s.held[f := 0])
  }

  /** The entry is dropped and its frame, when counted, released. */
  ghost function Unmap(s: Mem, d: int, i: int): Mem
    requires Shape(s) && IsSlot(d, i) && s.dir[d].Table? && Entry(s, d, i).Page? && Entry(s, d, i).frame < FRAMES
  {
    var f := Entry(s, d, i).frame;
    SetEntry(if f < LOW then s else AddCount(s, f, -1), d, i, Absent)
  }

  ghost function ReadOnly(e: Pte): Pte
    requires e.Page?
  {
    e.(write := false)
  }

  /** Entry (e, i) becomes a second, read-only name for the frame of entry (d, i). */
  ghost function Share(s: Mem, d: int, e: int, i: int): Mem
    requires Shape(s) && 0 <= d < ENTRIES && IsSlot(e, i) && s.dir[e].Table?
    requires Entry(s, d, i).Page? && Entry(s, d, i).frame < FRAMES
    requires LOW <= Entry(s, d, i).frame ==> IsSlot(d, i)
  {
    var p := ReadOnly(Entry(s, d, i));
    var s1 := SetEntry(s, e, i, p);
    if p.frame < LOW then s1 else AddCount(SetEntry(s1, d, i, p), p.frame, 1)
  }

  // ---------------------------------------------------------------- every update keeps the invariant

  ghost predicate SameViewsBut(s: Mem, s': Mem, d: int, i: int)
    requires Shape(s) && Shape(s')
  {
    forall c, j :: IsSlot(c, j) && (c != d || j != i) ==> ViewAt(s', c, j) == ViewAt(s, c, j)
  }

  ghost predicate SameViews(s: Mem, s': Mem)
    requires Shape(s) && Shape(s')
  {
    forall c, j :: IsSlot(c, j) ==> ViewAt(s', c, j) == ViewAt(s, c, j)
  }

  ghost predicate SameEntries(s: Mem, s': Mem)
    requires Shape(s) && Shape(s')
  {
    forall c, j :: 0 <= c < ENTRIES && 0 <= j < ENTRIES ==> Entry(s', c, j) == Entry(s, c, j)
  }

  ghost predicate SameEntriesBut(s: Mem, s': Mem, d: int, i: int)
    requires Shape(s) && Shape(s')
  {
    forall c, j :: 0 <= c < ENTRIES && 0 <= j < ENTRIES && (c != d || j != i) ==> Entry(s', c, j) == Entry(s, c, j)
  }

  lemma SharingFollows(s: Mem, s': Mem)
    requires Shape(s) && Shape(s') && SameEntries(s, s') && SharingOk(s)
    ensures SharingOk(s')
  {
  }

  lemma ViewsFollow(s: Mem, s': Mem)
    requires Shape(s) && Shape(s') && SameEntries(s, s') && s'.page == s.page
    ensures SameViews(s, s')
  {
  }

  lemma SameEntriesSameRefs(s: Mem, s': Mem, f: int)
    requires Shape(s) && Shape(s') && SameEntries(s, s')
    ensures PteRefs(s', f) == PteRefs(s, f)
  {
  }

  lemma RefsElsewhere(s: Mem, s': Mem, d: int, i: int, f: int)
    requires Shape(s) && Shape(s') && IsSlot(d, i) && SameEntriesBut(s, s', d, i)
    ensures PteRefs(s', f) - {(d, i)} == PteRefs(s, f) - {(d, i)}
  {
    forall c, j | IsSlot(c, j) && (c != d || j != i) ensures Names(s', c, j, f) == Names(s, c, j, f) {
      assert Entry(s', c, j) == Entry(s, c, j);
    }
  }

  lemma SizeWithout<T>(a: set<T>, x: T)
    ensures |a - {x}| == |a| - if x in a then 1 else 0
  {
    if x !in a { assert a - {x} == a; }
  }

  /** How one changed entry moves the reference set of a frame. */
  lemma RefsAfterSet(s: Mem, s': Mem, d: int, i: int, f: int)
    requires Shape(s) && Shape(s') && IsSlot(d, i) && SameEntriesBut(s, s', d, i)
    ensures |PteRefs(s', f)| ==
            |PteRefs(s, f)| + (if Names(s', d, i, f) then 1 else 0) - (if Names(s, d, i, f) then 1 else 0)
  {
    RefsElsewhere(s, s', d, i, f);
    SizeWithout(PteRefs(s, f), (d, i));
    SizeWithout(PteRefs(s', f), (d, i));
    assert Names(s, d, i, f) == ((d, i) in PteRefs(s, f));
    assert Names(s', d, i, f) == ((d, i) in PteRefs(s', f));
  }

  lemma RolesAfterSet(s: Mem, s': Mem, d: int, i: int)
    requires Shape(s) && Shape(s') && IsSlot(d, i) && SameEntriesBut(s, s', d, i)
    requires RolesOk(s) && s'.dir == s.dir && s'.high == s.high
    requires forall g :: 0 <= g < FRAMES && s.held[g] == 0 ==> s'.held[g] == 0
    requires var e := Entry(s', d, i);
             e.Page? ==> e.frame < s.high && s'.held[e.frame] == 0 && DirRefs(s, e.frame) == {}
    ensures RolesOk(s')
  {
    forall c | SPAN <= c < ENTRIES && s.dir[c].Table? && Entry(s', d, i).Page?
      ensures Entry(s', d, i).frame != s.dir[c].frame
    {
      assert c !in DirRefs(s, Entry(s', d, i).frame);
    }
  }

  /** Entry e at (d, i) respects the sharing rule against every other entry. */
  ghost predicate MayJoin(s: Mem, d: int, i: int, e: Pte)
    requires Shape(s)
  {
    e.Page? ==>
      && (e.write ==> LOW <= e.frame)
      && (forall c, j :: IsSlot(c, j) && (c != d || j != i) && Names(s, c, j, e.frame) && LOW <= e.frame ==>
            i == j && c % SPAN == d % SPAN && !e.write && !Entry(s, c, j).write)
  }

  lemma SharingAfterSet(s: Mem, s': Mem, d: int, i: int)
    requires Shape(s) && Shape(s') && IsSlot(d, i) && SameEntriesBut(s, s', d, i)
    requires SharingOk(s) && MayJoin(s, d, i, Entry(s', d, i))
    ensures SharingOk(s')
  {
    forall c, j | IsSlot(c, j) && (c != d || j != i) && Entry(s', d, i).Page? && Entry(s', c, j).Page?
      && LOW <= Entry(s', d, i).frame == Entry(s', c, j).frame
      ensures i == j && d % SPAN == c % SPAN && !Entry(s', d, i).write && !Entry(s', c, j).write
    {
      assert Names(s, c, j, Entry(s', d, i).frame);
    }
  }

  lemma ViewsAfterSet(s: Mem, s': Mem, d: int, i: int)
    requires Shape(s) && Shape(s') && SameEntriesBut(s, s', d, i) && s'.page == s.page
    ensures SameViewsBut(s, s', d, i)
  {
  }

  /** mem_map moves with the kernel references and the one changed entry. */
  ghost predicate CountMoves(s: Mem, s': Mem, d: int, i: int, g: int)
    requires Shape(s) && Shape(s') && LOW <= g < FRAMES
  {
    s'.memMap[g - LOW] == s.memMap[g - LOW] + s'.held[g] - s.held[g]
      + (if Names(s', d, i, g) then 1 else 0) - (if Names(s, d, i, g) then 1 else 0)
  }

  lemma CountsAfterSet(s: Mem, s': Mem, d: int, i: int)
    requires Shape(s) && Shape(s') && IsSlot(d, i) && SameEntriesBut(s, s', d, i)
    requires CountsOk(s) && s'.dir == s.dir && s'.high == s.high
    requires forall g :: 0 <= g < FRAMES ==> s'.held[g] <= s.held[g] && (g >= s.high ==> s'.held[g] == s.held[g])
    requires forall g :: LOW <= g < FRAMES ==> CountMoves(s, s', d, i, g)
    ensures CountsOk(s')
  {
    forall g | LOW <= g < FRAMES ensures s'.memMap[g - LOW] == Count(s', g) {
      assert DirRefs(s', g) == DirRefs(s, g) && s.memMap[g - LOW] == Count(s, g);
      RefsAfterSet(s, s', d, i, g);
      assert CountMoves(s, s', d, i, g);
    }
  }

  lemma AllocKeeps(s: Mem, f: int)
    requires Inv(s) && LOW <= f < FRAMES && s.memMap[f - LOW] == 0
    ensures f < s.high && s.held[f] == 0 && PteRefs(s, f) == {} && DirRefs(s, f) == {}
    ensures Inv(Alloc(s, f)) && SameEntries(s, Alloc(s, f)) && SameViews(s, Alloc(s, f))
  {
    var s' := Alloc(s, f);
    assert Count(s, f) == 0;
    AllocEntries(s, f);
    SharingFollows(s, s');
    forall c, j | IsSlot(c, j) ensures ViewAt(s', c, j) == ViewAt(s, c, j) {
      assert (c, j) !in PteRefs(s, f) && !Names(s, c, j, f);
    }
    forall g | LOW <= g < FRAMES ensures s'.memMap[g - LOW] == Count(s', g) {
      SameEntriesSameRefs(s, s', g);
      assert DirRefs(s', g) == DirRefs(s, g) && s.memMap[g - LOW] == Count(s, g);
    }
  }

  lemma AllocEntries(s: Mem, f: int)
    requires Shape(s) && TablesOk(s) && RolesOk(s) && LOW <= f < FRAMES && PteRefs(s, f) == {} && DirRefs(s, f) == {}
    ensures var s' := Alloc(s, f);
            Shape(s') && TablesOk(s') && SameEntries(s, s') && RolesOk(s')
  {
    var s' := Alloc(s, f);
    forall c | SPAN <= c < ENTRIES && s.dir[c].Table? ensures s.dir[c].frame != f {
      assert c !in DirRefs(s, f);
    }
    assert SameEntries(s, s');
    forall c, j | IsSlot(c, j) && Entry(s, c, j).Page? ensures Entry(s, c, j).frame != f {
      assert (c, j) !in PteRefs(s, f);
    }
  }

  lemma UnholdKeeps(s: Mem, f: int)
    requires Inv(s) && LOW <= f < s.high && s.held[f] > 0
    ensures Inv(Unhold(s, f)) && SameEntries(s, Unhold(s, f)) && SameViews(s, Unhold(s, f))
    ensures s.memMap[f - LOW] > 0
  {
    var s' := Unhold(s, f);
    CountIsSmall(s, f);
    assert SameEntries(s, s');
    SharingFollows(s, s');
    ViewsFollow(s, s');
    forall g | LOW <= g < FRAMES ensures s'.memMap[g - LOW] == Count(s', g) {
      SameEntriesSameRefs(s, s', g);
      assert DirRefs(s', g) == DirRefs(s, g) && s.memMap[g - LOW] == Count(s, g);
    }
  }

  lemma InstallTableKeeps(s: Mem, d: int, f: nat)
    requires Inv(s) && SPAN <= d < ENTRIES && LOW <= f < s.high && s.held[f] == 1
    requires s.dir[d].NoTable? && s.tab[f] == EmptyTable()
    ensures var s' := InstallTable(s, d, f);
            Inv(s') && SameEntries(s, s') && SameViews(s, s')
  {
    var s' := InstallTable(s, d, f);
    InstallTableRoles(s, d, f);
    SharingFollows(s, s');
    ViewsFollow(s, s');
    forall g | LOW <= g < FRAMES ensures s'.memMap[g - LOW] == Count(s', g) {
      assert s.memMap[g - LOW] == Count(s, g);
      SameEntriesSameRefs(s, s', g);
      if g == f {
        assert d !in DirRefs(s, f) && DirRefs(s', f) == DirRefs(s, f) + {d};
      } else {
        assert DirRefs(s', g) == DirRefs(s, g);
      }
    }
  }

  lemma InstallTableRoles(s: Mem, d: int, f: nat)
    requires Shape(s) && TablesOk(s) && RolesOk(s) && SPAN <= d < ENTRIES && LOW <= f < s.high && s.held[f] == 1
    requires s.dir[d].NoTable? && s.tab[f] == EmptyTable()
    ensures var s' := InstallTable(s, d, f);
            Shape(s') && TablesOk(s') && SameEntries(s, s') && RolesOk(s')
  {
    var s' := InstallTable(s, d, f);
    assert SameEntries(s, s');
  }

  lemma RemoveTableKeeps(s: Mem, d: int)
    requires Inv(s) && SPAN <= d < ENTRIES && s.dir[d].Table?
    requires forall i :: 0 <= i < ENTRIES ==> Entry(s, d, i) == Absent
    ensures var s' := RemoveTable(s, d);
            Inv(s') && SameEntries(s, s') && SameViews(s, s') && s.memMap[s.dir[d].frame - LOW] > 0
  {
    var s', f := RemoveTable(s, d), s.dir[d].frame;
    RemoveTableRoles(s, d);
    SharingFollows(s, s');
    ViewsFollow(s, s');
    assert d in DirRefs(s, f) && s.memMap[f - LOW] == Count(s, f);
    CountIsSmall(s, f);
    RemoveTableCounts(s, d);
  }

  lemma RemoveTableRoles(s: Mem, d: int)
    requires Shape(s) && TablesOk(s) && RolesOk(s) && SPAN <= d < ENTRIES && s.dir[d].Table?
    requires forall i :: 0 <= i < ENTRIES ==> Entry(s, d, i) == Absent
    ensures var s' := RemoveTable(s, d); Shape(s') && TablesOk(s') && SameEntries(s, s') && RolesOk(s')
  {
    assert SameEntries(s, RemoveTable(s, d));
  }

  lemma RemoveTableCounts(s: Mem, d: int)
    requires Shape(s) && TablesOk(s) && CountsOk(s) && SPAN <= d < ENTRIES && s.dir[d].Table?
    requires 0 < s.memMap[s.dir[d].frame - LOW] <= USED
    requires Shape(RemoveTable(s, d)) && SameEntries(s, RemoveTable(s, d))
    ensures CountsOk(RemoveTable(s, d))
  {
    var s', f := RemoveTable(s, d), s.dir[d].frame;
    forall g | LOW <= g < FRAMES ensures s'.memMap[g - LOW] == Count(s', g) {
      SameEntriesSameRefs(s, s', g);
      assert s.memMap[g - LOW] == Count(s, g);
      if g == f {
        assert d in DirRefs(s, f) && DirRefs(s', f) == DirRefs(s, f) - {d};
      } else {
        assert DirRefs(s', g) == DirRefs(s, g);
      }
    }
  }

  lemma MapHeldKeeps(s: Mem, d: int, i: int, f: nat)
    requires Inv(s) && IsSlot(d, i) && s.dir[d].Table? && LOW <= f < s.high && s.held[f] == 1
    requires Entry(s, d, i).Absent? || Entry(s, d, i).frame < LOW
    ensures var s' := MapHeld(s, d, i, f);
            Inv(s') && SameEntriesBut(s, s', d, i) && Entry(s', d, i) == Page(f, true, false)
            && SameViewsBut(s, s', d, i) && ViewAt(s', d, i) == Bytes(s.page[f])
  {
    var s' := MapHeld(s, d, i, f);
    SetEntryLocal(s, d, i, Page(f, true, false));
    assert Shape(s') && TablesOk(s') && SameEntriesBut(s, s', d, i);
    assert DirRefs(s, f) == {};
    RolesAfterSet(s, s', d, i);
    SharingAfterSet(s, s', d, i);
    ViewsAfterSet(s, s', d, i);
    CountsAfterSet(s, s', d, i);
  }

  lemma UnmapKeeps(s: Mem, d: int, i: int)
    requires Inv(s) && IsSlot(d, i) && s.dir[d].Table? && Entry(s, d, i).Page?
    ensures var s' := Unmap(s, d, i);
            Inv(s') && SameEntriesBut(s, s', d, i) && Entry(s', d, i) == Absent && SameViewsBut(s, s', d, i)
            && (LOW <= Entry(s, d, i).frame ==> s.memMap[Entry(s, d, i).frame - LOW] > 0)
  {
    var s', f := Unmap(s, d, i), Entry(s, d, i).frame;
    SetEntryLocal(if f < LOW then s else AddCount(s, f, -1), d, i, Absent);
    assert SameEntriesBut(s, s', d, i) && TablesOk(s');
    assert Names(s, d, i, f);
    RolesAfterSet(s, s', d, i);
    SharingAfterSet(s, s', d, i);
    ViewsAfterSet(s, s', d, i);
    if LOW <= f { CountIsSmall(s, f); }
    CountsAfterSet(s, s', d, i);
  }

  /** Only the protection of one entry changes; the frame it names does not. */
  ghost predicate Reprotects(s: Mem, s': Mem, d: int, i: int)
    requires Shape(s) && Shape(s') && IsSlot(d, i)
  {
    && s' == s.(tab := s'.tab) && SameEntriesBut(s, s', d, i)
    && Entry(s, d, i).Page? && Entry(s', d, i).Page? && Entry(s', d, i).frame == Entry(s, d, i).frame
  }

  lemma ReprotectKeeps(s: Mem, s': Mem, d: int, i: int)
    requires Inv(s) && Shape(s') && TablesOk(s') && IsSlot(d, i) && Reprotects(s, s', d, i)
    requires MayJoin(s, d, i, Entry(s', d, i))
    ensures Inv(s') && SameViews(s, s')
  {
    var f := Entry(s, d, i).frame;
    assert DirRefs(s, f) == {};
    RolesAfterSet(s, s', d, i);
    SharingAfterSet(s, s', d, i);
    ViewsAfterSet(s, s', d, i);
    CountsAfterSet(s, s', d, i);
  }

  /**
   * Sharing gives the second entry the first one's view and leaves every other view alone;
   * a counted frame has one name more, and both entries are read-only.
   */
  lemma ShareKeeps(s: Mem, d: int, e: int, i: int)
    requires Inv(s) && Shareable(s, d, e, i)
    ensures var s', p := Share(s, d, e, i), ReadOnly(Entry(s, d, i));
            Inv(s') && SameViewsBut(s, s', e, i) && ViewAt(s', e, i) == ViewAt(s, d, i) && Entry(s', e, i) == p
            && (if p.frame < LOW then s'.memMap == s.memMap && Entry(s', d, i) == Entry(s, d, i)
                else && 0 < s.memMap[p.frame - LOW] < TASKS && Entry(s', d, i) == p
                     && s'.memMap == s.memMap[p.frame - LOW := s.memMap[p.frame - LOW] + 1])
  {
    hide TablesOk, RolesOk, SharingOk, CountsOk, Share, SameViewsBut;
    ShareViews(s, d, e, i);
    ShareCounts(s, d, e, i);
  }

  lemma ShareCounts(s: Mem, d: int, e: int, i: int)
    requires Inv(s) && Shareable(s, d, e, i)
    requires LOW <= Entry(s, d, i).frame ==> 0 < s.memMap[Entry(s, d, i).frame - LOW] < TASKS
    ensures var s', p := Share(s, d, e, i), ReadOnly(Entry(s, d, i));
            Shape(s') && if p.frame < LOW then s'.memMap == s.memMap && Entry(s', d, i) == Entry(s, d, i)
            else Entry(s', d, i) == p && s'.memMap == s.memMap[p.frame - LOW := s.memMap[p.frame - LOW] + 1]
  {
    hide RolesOk, SharingOk, CountsOk;
    var p := ReadOnly(Entry(s, d, i));
    SetEntryLocal(s, e, i, p);
    if LOW <= p.frame { SetEntryLocal(SetEntry(s, e, i, p), d, i, p); }
  }

  lemma ShareViews(s: Mem, d: int, e: int, i: int)
    requires Inv(s) && Shareable(s, d, e, i)
    ensures var s', p := Share(s, d, e, i), ReadOnly(Entry(s, d, i));
            Inv(s') && SameViewsBut(s, s', e, i) && ViewAt(s', e, i) == ViewAt(s, d, i) && Entry(s', e, i) == p
            && (LOW <= p.frame ==> 0 < s.memMap[p.frame - LOW] < TASKS)
  {
    var p := ReadOnly(Entry(s, d, i));
    if p.frame < LOW {
      ShareLowKeeps(s, d, e, i);
    } else {
      var s1 := SetEntry(s, d, i, p);
      SetEntryLocal(s, d, i, p);
      ReprotectKeeps(s, s1, d, i);
      AddSharer(s1, d, e, i);
      assert SetEntry(SetEntry(s, e, i, p), d, i, p) == SetEntry(s1, e, i, p) by {
        assert s.dir[d].frame != s.dir[e].frame || d == e;
      }
    }
  }

  /** The conditions under which entry (e, i) may become a second name for the frame of (d, i). */
  ghost predicate Shareable(s: Mem, d: int, e: int, i: int)
    requires Shape(s)
  {
    && 0 <= d < ENTRIES && IsSlot(e, i) && d != e && s.dir[e].Table? && Entry(s, e, i) == Absent
    && Entry(s, d, i).Page? && Entry(s, d, i).frame < s.high && s.held[Entry(s, d, i).frame] == 0
    && (LOW <= Entry(s, d, i).frame ==> IsSlot(d, i) && d % SPAN == e % SPAN)
  }

  lemma ShareLowKeeps(s: Mem, d: int, e: int, i: int)
    requires Inv(s) && Shareable(s, d, e, i) && Entry(s, d, i).frame < LOW
    ensures var s', p := Share(s, d, e, i), ReadOnly(Entry(s, d, i));
            Inv(s') && SameViewsBut(s, s', e, i) && ViewAt(s', e, i) == ViewAt(s, d, i) && Entry(s', e, i) == p
  {
    var s', p := Share(s, d, e, i), ReadOnly(Entry(s, d, i));
    SetEntryLocal(s, e, i, p);
    assert DirRefs(s, p.frame) == {};
    RolesAfterSet(s, s', e, i);
    SharingAfterSet(s, s', e, i);
    ViewsAfterSet(s, s', e, i);
    CountsAfterSet(s, s', e, i);
  }

  lemma MappedIsNoTable(s: Mem, d: int, i: int)
    requires Shape(s) && RolesOk(s) && IsSlot(d, i) && Entry(s, d, i).Page?
    ensures var f := Entry(s, d, i).frame;
            f < s.high && s.held[f] == 0 && DirRefs(s, f) == {} && Names(s, d, i, f) && (d, i) in PteRefs(s, f)
  {
  }

  lemma AddSharer(s: Mem, d: int, e: int, i: int)
    requires Inv(s) && Shareable(s, d, e, i) && LOW <= Entry(s, d, i).frame && !Entry(s, d, i).write
    ensures var p := Entry(s, d, i);
            var s' := AddCount(SetEntry(s, e, i, p), p.frame, 1);
            Inv(s') && SameViewsBut(s, s', e, i) && ViewAt(s', e, i) == ViewAt(s, d, i) && Entry(s', e, i) == p
            && 0 < s.memMap[p.frame - LOW] < TASKS
  {
    var p := Entry(s, d, i);
    var s' := AddCount(SetEntry(s, e, i, p), p.frame, 1);
    SetEntryLocal(s, e, i, p);
    assert SameEntriesBut(s, s', e, i) && TablesOk(s');
    MappedIsNoTable(s, d, i);
    CountIsSmall(s, p.frame);
    AddSharerCounts(s, d, e, i);
    RolesAfterSet(s, s', e, i);
    SharingAfterSet(s, s', e, i);
    ViewsAfterSet(s, s', e, i);
  }

  lemma AddSharerCounts(s: Mem, d: int, e: int, i: int)
    requires Shape(s) && TablesOk(s) && CountsOk(s) && Shareable(s, d, e, i) && LOW <= Entry(s, d, i).frame
    requires 0 < s.memMap[Entry(s, d, i).frame - LOW] < TASKS
    ensures var p := Entry(s, d, i);
            var s' := AddCount(SetEntry(s, e, i, p), p.frame, 1);
            Shape(s') && CountsOk(s')
  {
    var p := Entry(s, d, i);
    var s' := AddCount(SetEntry(s, e, i, p), p.frame, 1);
    SetEntryLocal(s, e, i, p);
    assert SameEntriesBut(s, s', e, i);
    CountsAfterSet(s, s', e, i);
  }

  // ---------------------------------------------------------------- the state the kernel starts from

  /** The t-th table of setup_paging: every frame at its own address, writable. */
  function IdentityTable(t: nat): seq<Pte> {
    seq(ENTRIES, i requires 0 <= i < ENTRIES => Page(ENTRIES * t + i, true, false))
  }

  /**
   * After setup_paging and mem_init: task 0's first four regions are mapped one to one, and
   * the frames from start to end are free.  What memory holds is given.
   */
  ghost function Booted(start: nat, end: nat, page: seq<seq<bv8>>): Mem
    requires LOW <= start <= end <= FRAMES
  {
    Mem(seq(PAGING_PAGES, k requires 0 <= k < PAGING_PAGES => if start <= k + LOW < end then 0 else USED),
        seq(ENTRIES, d requires 0 <= d < ENTRIES => if d < 4 then Table(d + 1) else NoTable),
        seq(FRAMES, f requires 0 <= f < FRAMES => if 1 <= f <= 4 then IdentityTable(f - 1) else EmptyTable()),
        page, seq(FRAMES, f requires 0 <= f < FRAMES => if f < LOW || start <= f < end then 0 else USED), end)
  }

  lemma BootedShape(start: nat, end: nat, page: seq<seq<bv8>>)
    requires LOW <= start <= end <= FRAMES && |page| == FRAMES && forall f :: 0 <= f < FRAMES ==> |page[f]| == PAGE_SIZE
    ensures Shape(Booted(start, end, page))
  {
    var s := Booted(start, end, page);
    forall f | 0 <= f < FRAMES ensures |s.tab[f]| == ENTRIES {}
  }

  lemma BootedIsFine(start: nat, end: nat, page: seq<seq<bv8>>)
    requires LOW <= start <= end <= FRAMES && |page| == FRAMES && forall f :: 0 <= f < FRAMES ==> |page[f]| == PAGE_SIZE
    ensures var s := Booted(start, end, page);
            Inv(s) && forall i :: 0 <= i < ENTRIES ==> Entry(s, 0, i) == Page(i, true, false)
  {
    var s := Booted(start, end, page);
    BootedShape(start, end, page);
    forall d, i | IsSlot(d, i) ensures Entry(s, d, i) == Absent {}
    forall f | LOW <= f < FRAMES ensures s.memMap[f - LOW] == Count(s, f) {
      assert PteRefs(s, f) == {} && DirRefs(s, f) == {};
    }
  }
}
