/**
 Write faults, user stores, demand pages and page sharing of mm/memory.c: what each does to
 the invariant and to what the tasks see.  Runs of them are in module EagerCopy.
 */
module PageFaults {
  import opened PageFrames
  import opened CopyOnWrite

  // ---------------------------------------------------------------- un_wp_page

  ghost function SetWrite(s: Mem, d: int, i: int): Mem
    requires Shape(s) && IsSlot(d, i) && Entry(s, d, i).Page?
  {
    SetEntry(s, d, i, Entry(s, d, i).(write := true))
  }

  /** The copying half of un_wp_page: a fresh frame takes the place of the shared one. */
  ghost function CopyPage(s: Mem, d: int, i: int): (r: Mem)
    requires Inv(s) && !OutOfFrames(s) && IsSlot(d, i) && Entry(s, d, i).Page?
    ensures Inv(r) && r.held == s.held && r.high == s.high && r.dir == s.dir
    ensures Entry(r, d, i) == Page(FreeFrame(s), true, false)
  {
    var f, g := Entry(s, d, i).frame, FreeFrame(s);
    AllocKeeps(s, g);
    var s1 := Alloc(s, g);
    UnmapKeeps(s1, d, i);
    var s2 := Unmap(s1, d, i);
    MapHeldKeeps(s2, d, i, g);
    var s3 := MapHeld(s2, d, i, g);
    PageKeeps(s3, g, s.page[f]);
    s3.(page := s3.page[g := s.page[f]])
  }

  lemma PageKeeps(s: Mem, f: int, bytes: seq<bv8>)
    requires Inv(s) && 0 <= f < FRAMES && |bytes| == PAGE_SIZE
    ensures var r := s.(page := s.page[f := bytes]);
            Inv(r) && SameEntries(s, r)
            && forall c, j :: IsSlot(c, j) && !Names(s, c, j, f) ==> ViewAt(r, c, j) == ViewAt(s, c, j)
  {
    var r := s.(page := s.page[f := bytes]);
    assert SameEntries(s, r);
    SharingFollows(s, r);
    forall g | LOW <= g < FRAMES ensures r.memMap[g - LOW] == Count(r, g) {
      SameEntriesSameRefs(s, r, g);
      assert DirRefs(r, g) == DirRefs(s, g) && s.memMap[g - LOW] == Count(s, g);
    }
  }

  lemma CopyPageViews(s: Mem, d: int, i: int)
    requires Inv(s) && !OutOfFrames(s) && IsSlot(d, i) && Entry(s, d, i).Page?
    ensures SameViews(s, CopyPage(s, d, i))
  {
    hide TablesOk, SharingOk, CountsOk;
    var f, g := Entry(s, d, i).frame, FreeFrame(s);
    AllocKeeps(s, g);
    var s1 := Alloc(s, g);
    UnmapKeeps(s1, d, i);
    var s2 := Unmap(s1, d, i);
    MapHeldKeeps(s2, d, i, g);
    var s3 := MapHeld(s2, d, i, g);
    PageKeeps(s3, g, s.page[f]);
    forall c, j | IsSlot(c, j) && (c != d || j != i)
      ensures !Names(s3, c, j, g) && ViewAt(s3, c, j) == ViewAt(s, c, j)
    {
      assert Entry(s3, c, j) == Entry(s2, c, j) == Entry(s1, c, j) == Entry(s, c, j);
      assert (c, j) !in PteRefs(s, g);
      assert ViewAt(s3, c, j) == ViewAt(s2, c, j) == ViewAt(s1, c, j) == ViewAt(s, c, j);
    }
  }

  ghost function UnWpPage(s: Mem, d: int, i: int): (r: Outcome)
    requires Inv(s) && IsSlot(d, i) && Entry(s, d, i).Page?
    ensures Inv(r.mem) && !r.Panic? && (r.NoMemory? ==> r.mem == s) && r.mem.held == s.held && r.mem.high == s.high
    ensures r.Ok? ==> Entry(r.mem, d, i).Page? && Entry(r.mem, d, i).write
  {
    var f := Entry(s, d, i).frame;
    if LOW <= f && s.memMap[f - LOW] == 1 then
      SetWriteKeeps(s, d, i);
      Ok(SetWrite(s, d, i))
    else if OutOfFrames(s) then NoMemory(s)
    else Ok(CopyPage(s, d, i))
  }

  lemma SetWriteKeeps(s: Mem, d: int, i: int)
    requires Inv(s) && IsSlot(d, i) && Entry(s, d, i).Page?
    requires LOW <= Entry(s, d, i).frame && s.memMap[Entry(s, d, i).frame - LOW] == 1
    ensures Inv(SetWrite(s, d, i)) && SameViews(s, SetWrite(s, d, i)) && Entry(SetWrite(s, d, i), d, i).Page?
    ensures Entry(SetWrite(s, d, i), d, i) == Entry(s, d, i).(write := true)
  {
    CountOneIsSole(s, d, i);
    SetEntryLocal(s, d, i, Entry(s, d, i).(write := true));
    forall c, j | IsSlot(c, j) && (c != d || j != i) ensures !Names(s, c, j, Entry(s, d, i).frame) {
      assert (c, j) !in PteRefs(s, Entry(s, d, i).frame);
    }
    ReprotectKeeps(s, SetWrite(s, d, i), d, i);
  }

  lemma ViewsAreViews(s: Mem)
    requires Shape(s)
    ensures SameViews(s, s)
  {
  }

  /** The write fault is invisible: it changes no task's view of any page. */
  lemma UnWpPageViews(s: Mem, d: int, i: int)
    requires Inv(s) && IsSlot(d, i) && Entry(s, d, i).Page?
    ensures SameViews(s, UnWpPage(s, d, i).mem)
  {
    hide TablesOk, SharingOk, CountsOk, CopyPage, SetWrite, SameViews;
    var f := Entry(s, d, i).frame;
    assert f < FRAMES;
    hide RolesOk, Entry;
    if LOW <= f && s.memMap[f - LOW] == 1 {
      SetWriteKeeps(s, d, i);
    } else if OutOfFrames(s) {
      ViewsAreViews(s);
    } else {
      CopyPageViews(s, d, i);
    }
  }

  /** write_verify: a present page that is not writable goes through un_wp_page. */
  ghost function Verify(s: Mem, d: int, i: int): (r: Outcome)
    requires Inv(s) && IsSlot(d, i)
    ensures Inv(r.mem) && !r.Panic? && (r.NoMemory? ==> r.mem == s) && r.mem.held == s.held && r.mem.high == s.high
    ensures r.Ok? && Entry(s, d, i).Page? ==> Entry(r.mem, d, i).Page? && Entry(r.mem, d, i).write
  {
    if Entry(s, d, i).Page? && !Entry(s, d, i).write then UnWpPage(s, d, i) else Ok(s)
  }

  /** write_verify is invisible too. */
  lemma VerifyViews(s: Mem, d: int, i: int)
    requires Inv(s) && IsSlot(d, i)
    ensures SameViews(s, Verify(s, d, i).mem)
  {
    hide TablesOk, RolesOk, SharingOk, CountsOk, UnWpPage, SameViews;
    if Entry(s, d, i).Page? && !Entry(s, d, i).write { UnWpPageViews(s, d, i); } else { ViewsAreViews(s); }
  }

  // ---------------------------------------------------------------- a store by a user task

  /** The processor's half of a store through a writable entry. */
  ghost function WriteByte(s: Mem, d: int, i: int, at: nat, b: bv8): (r: Mem)
    requires Inv(s) && IsSlot(d, i) && Entry(s, d, i).Page? && Entry(s, d, i).write && at < PAGE_SIZE
    ensures Inv(r) && r.held == s.held && r.high == s.high
    ensures ViewAt(s, d, i).Bytes? && |ViewAt(s, d, i).bytes| == PAGE_SIZE
    ensures ViewAt(r, d, i) == Bytes(ViewAt(s, d, i).bytes[at := b])
    ensures SameViewsBut(s, r, d, i)
  {
    var e := Entry(s, d, i);
    var s1 := SetEntry(s, d, i, e.(dirty := true));
    SetEntryLocal(s, d, i, e.(dirty := true));
    MarkDirty(s, d, i);
    var bytes := s.page[e.frame][at := b];
    PageKeeps(s1, e.frame, bytes);
    WriteIsPrivate(s1, d, i);
    s1.(page := s1.page[e.frame := bytes])
  }

  lemma MarkDirty(s: Mem, d: int, i: int)
    requires Inv(s) && IsSlot(d, i) && Entry(s, d, i).Page?
    ensures var s1 := SetEntry(s, d, i, Entry(s, d, i).(dirty := true));
            Inv(s1) && SameViews(s, s1)
  {
    var s1 := SetEntry(s, d, i, Entry(s, d, i).(dirty := true));
    SetEntryLocal(s, d, i, Entry(s, d, i).(dirty := true));
    ReprotectKeeps(s, s1, d, i);
  }

  lemma WriteIsPrivate(s: Mem, d: int, i: int)
    requires Shape(s) && RolesOk(s) && SharingOk(s) && IsSlot(d, i) && Entry(s, d, i).Page? && Entry(s, d, i).write
    ensures Entry(s, d, i).frame < FRAMES
    ensures forall c, j :: IsSlot(c, j) && (c != d || j != i) ==> !Names(s, c, j, Entry(s, d, i).frame)
  {
  }

  datatype StoreResult = Stored(mem: Mem) | Killed(mem: Mem) | NotPresent(mem: Mem)

  /** A user store: through a writable entry at once, through a read-only one after do_wp_page. */
  ghost function Store(s: Mem, d: int, i: int, at: nat, b: bv8): (r: StoreResult)
    requires Inv(s) && IsSlot(d, i) && at < PAGE_SIZE
    ensures Inv(r.mem) && r.mem.high == s.high && (!r.Stored? ==> r.mem == s)
    ensures r.NotPresent? <==> ViewAt(s, d, i) == Nothing
    ensures r.Stored? ==> |ViewAt(s, d, i).bytes| == PAGE_SIZE
    ensures r.Stored? ==> ViewAt(r.mem, d, i) == Bytes(ViewAt(s, d, i).bytes[at := b]) && SameViewsBut(s, r.mem, d, i)
  {
    match Entry(s, d, i)
    case Absent => NotPresent(s)
    case Page(f, w, _) =>
      if w then Stored(WriteByte(s, d, i, at, b))
      else
        UnWpPageViews(s, d, i);
        match UnWpPage(s, d, i)
        case Ok(m) => Stored(WriteByte(m, d, i, at, b))
        case NoMemory(m) => Killed(s)
        case Panic(m) => Killed(s)
  }

  // ---------------------------------------------------------------- put_page, get_empty_page, try_to_share

  ghost predicate HasTable(s: Mem, d: int)
    requires Shape(s) && 0 <= d < ENTRIES
  {
    s.dir[d].Table?
  }

  ghost function WithTable(s: Mem, d: int): (r: Outcome)
    requires Inv(s) && SPAN <= d < ENTRIES
    ensures Inv(r.mem) && !r.Panic? && (r.NoMemory? ==> r.mem == s && !HasTable(s, d))
    ensures SameEntries(s, r.mem) && SameViews(s, r.mem) && r.mem.held == s.held && r.mem.high == s.high
    ensures r.Ok? ==> HasTable(r.mem, d)
    ensures forall f :: 0 <= f < FRAMES && s.held[f] > 0 ==> r.mem.page[f] == s.page[f]
  {
    if s.dir[d].Table? then Ok(s) else if OutOfFrames(s) then NoMemory(s)
    else
      AllocKeeps(s, FreeFrame(s));
      Ok(NewTable(s, d))
  }

  /** A counted page is mapped here already. */
  ghost predicate Occupied(s: Mem, d: int, i: int)
    requires Shape(s) && IsSlot(d, i)
  {
    Entry(s, d, i).Page? && LOW <= Entry(s, d, i).frame
  }

  /**
   * put_page of a page the caller holds.  It does not look at the entry it overwrites, so
   * the invariant holds afterwards exactly when no counted page was mapped there.
   */
  ghost function PutPage(s: Mem, f: nat, d: int, i: int): (r: Outcome)
    requires Inv(s) && IsSlot(d, i) && LOW <= f < s.high && s.held[f] == 1
    ensures Shape(r.mem) && !r.Panic? && (r.NoMemory? ==> r.mem == s) && r.mem.high == s.high
    ensures r.Ok? ==> (Inv(r.mem) <==> !Occupied(s, d, i))
    ensures r.Ok? ==> SameViewsBut(s, r.mem, d, i) && ViewAt(r.mem, d, i) == Bytes(s.page[f])
    ensures r.Ok? ==> r.mem.held == s.held[f := 0]
  {
    match WithTable(s, d)
    case Ok(m) =>
      assert Entry(m, d, i) == Entry(s, d, i);
      PutKeepsIff(m, f, d, i);
      Ok(MapHeld(m, d, i, f))
    case NoMemory(m) => NoMemory(s)
    case Panic(m) => Panic(s)
  }

  lemma PutKeepsIff(s: Mem, f: nat, d: int, i: int)
    requires Inv(s) && IsSlot(d, i) && HasTable(s, d) && LOW <= f < s.high && s.held[f] == 1
    ensures var r := MapHeld(s, d, i, f);
            Shape(r) && (Inv(r) <==> !Occupied(s, d, i)) && SameViewsBut(s, r, d, i)
                && ViewAt(r, d, i) == Bytes(s.page[f])
  {
    var r := MapHeld(s, d, i, f);
    if Occupied(s, d, i) {
      LosesAFrame(s, f, d, i);
    } else {
      MapHeldKeeps(s, d, i, f);
    }
  }

  /** The page that was mapped keeps a count that nothing accounts for any more. */
  lemma LosesAFrame(s: Mem, f: nat, d: int, i: int)
    requires Inv(s) && IsSlot(d, i) && HasTable(s, d) && LOW <= f < s.high && s.held[f] == 1 && Occupied(s, d, i)
    ensures var r, g := MapHeld(s, d, i, f), Entry(s, d, i).frame;
            Shape(r) && SameViewsBut(s, r, d, i) && ViewAt(r, d, i) == Bytes(s.page[f])
                && r.memMap[g - LOW] == Count(r, g) + 1
  {
    var r, g := MapHeld(s, d, i, f), Entry(s, d, i).frame;
    SetEntryLocal(s, d, i, Page(f, true, false));
    assert SameEntriesBut(s, r, d, i);
    ViewsAfterSet(s, r, d, i);
    MappedIsNoTable(s, d, i);
    RefsAfterSet(s, r, d, i, g);
    assert s.memMap[g - LOW] == Count(s, g) && DirRefs(r, g) == DirRefs(s, g);
  }

  lemma SameThenBut(s: Mem, s1: Mem, s2: Mem, d: int, i: int)
    requires Shape(s) && Shape(s1) && Shape(s2) && SameViews(s, s1) && SameViewsBut(s1, s2, d, i)
    ensures SameViewsBut(s, s2, d, i)
  {
  }

  lemma SameThenSame(s: Mem, s1: Mem, s2: Mem)
    requires Shape(s) && Shape(s1) && Shape(s2) && SameViews(s, s1) && SameViews(s1, s2)
    ensures SameViews(s, s2)
  {
  }

  /** get_empty_page, whose oom is NoMemory. */
  ghost function GetEmptyPage(s: Mem, d: int, i: int): (r: Outcome)
    requires Inv(s) && IsSlot(d, i)
    ensures Shape(r.mem) && !r.Panic?
  {
    hide TablesOk, RolesOk, SharingOk, CountsOk;
    if OutOfFrames(s) then NoMemory(s)
    else
      var f := FreeFrame(s);
      AllocKeeps(s, f);
      match PutPage(Alloc(s, f), f, d, i)
      case Ok(m) => Ok(m)
      case NoMemory(m) =>
        UnholdKeeps(Alloc(s, f), f);
        NoMemory(Unhold(Alloc(s, f), f))
      case Panic(m) => Panic(s)
  }

  /** It maps a zero page, or every frame is where it was. */
  lemma GetEmptyPageDoes(s: Mem, d: int, i: int)
    requires Inv(s) && IsSlot(d, i)
    ensures var r := GetEmptyPage(s, d, i);
            && r.mem.high == s.high && r.mem.held == s.held
            && (if r.Ok? then && (Inv(r.mem) <==> !Occupied(s, d, i))
                              && SameViewsBut(s, r.mem, d, i) && ViewAt(r.mem, d, i) == Bytes(ZeroPage())
                else Inv(r.mem) && SameViews(s, r.mem) && r.mem.memMap == s.memMap && r.mem.dir == s.dir)
  {
    hide TablesOk, RolesOk, SharingOk, CountsOk, PutPage, SameViews, SameViewsBut;
    if OutOfFrames(s) {
      ViewsAreViews(s);
    } else {
      var f := FreeFrame(s);
      AllocKeeps(s, f);
      var s1 := Alloc(s, f);
      assert Entry(s1, d, i) == Entry(s, d, i);
      assert s1.held[f := 0] == s.held && s1.memMap[f - LOW := 0] == s.memMap;
      var p := PutPage(s1, f, d, i);
      if p.Ok? {
        SameThenBut(s, s1, p.mem, d, i);
      } else {
        UnholdKeeps(s1, f);
        SameThenSame(s, s1, Unhold(s1, f));
      }
    }
  }

  datatype ShareResult = Shared(mem: Mem) | Refused(mem: Mem) | ShareNoMemory(mem: Mem) | SharePanic(mem: Mem)

  /** Regions d and e lie at the same offset of two different user tasks. */
  predicate Twins(d: int, e: int) { SPAN <= d < ENTRIES && SPAN <= e < ENTRIES && d != e && d % SPAN == e % SPAN }

  lemma TwinsShareable(s: Mem, d: int, e: int, i: int)
    requires Shape(s) && RolesOk(s) && Twins(d, e) && 0 <= i < ENTRIES && HasTable(s, e)
    requires Entry(s, d, i).Page? && Entry(s, e, i).Absent?
    ensures Shareable(s, d, e, i)
  {
    assert IsSlot(d, i);
  }

  ghost function ShareInto(s: Mem, d: int, e: int, i: int): (r: ShareResult)
    requires Inv(s) && Twins(d, e) && 0 <= i < ENTRIES && HasTable(s, e)
    requires Entry(s, d, i).Page? && LOW <= Entry(s, d, i).frame
    ensures Inv(r.mem) && r.mem.high == s.high && (r.Shared? || (r == SharePanic(s) && ViewAt(s, e, i) != Nothing))
    ensures r.Shared? ==> SameViewsBut(s, r.mem, e, i) && ViewAt(r.mem, e, i) == ViewAt(s, d, i) != Nothing
  {
    hide TablesOk, SharingOk, CountsOk, SameViewsBut;
    if Entry(s, e, i).Page? then SharePanic(s)
    else
      TwinsShareable(s, d, e, i);
      ShareViews(s, d, e, i);
      Shared(Share(s, d, e, i))
  }

  /** try_to_share: page i of region d becomes visible at the same place of another task. */
  ghost function TryToShare(s: Mem, d: int, e: int, i: int): (r: ShareResult)
    requires Inv(s) && Twins(d, e) && 0 <= i < ENTRIES
    ensures Inv(r.mem) && r.mem.high == s.high
    ensures r.Shared? ==> SameViewsBut(s, r.mem, e, i) && ViewAt(r.mem, e, i) == ViewAt(s, d, i) != Nothing
    ensures !r.Shared? ==> SameViews(s, r.mem)
    ensures r.SharePanic? ==> ViewAt(s, e, i) != Nothing
  {
    var from := Entry(s, d, i);
    if from.Absent? || from.dirty || from.frame >= s.high || from.frame < LOW then Refused(s)
    else
      match WithTable(s, e)
      case NoMemory(m) => ShareNoMemory(s)
      case Panic(m) => Refused(s)
      case Ok(m) =>
        assert Entry(m, d, i) == from && ViewAt(m, e, i) == ViewAt(s, e, i) && ViewAt(m, d, i) == ViewAt(s, d, i);
        ShareInto(m, d, e, i)
  }
}
