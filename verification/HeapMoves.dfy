/** What free_s, a new page of objects and a new page of descriptors do to the heap. */
module HeapMoves {
  import opened KernelHeap
  import opened HeapState

  // ---------------------------------------------------------------- giving a slot back

  function Give(s: State, d: nat, o: nat): State
    requires d in s.slots && d in s.desc && s.desc[d].refcnt > 0 && s.desc[d].freeptr < 0x1_0000_0000
  {
    s.(mem := Store(s.mem, o, s.desc[d].freeptr),
       desc := s.desc[d := s.desc[d].(freeptr := o, refcnt := s.desc[d].refcnt - 1)],
       slots := s.slots[d := [o] + s.slots[d]], live := s.live - {o})
  }

  /** The page of a live object counts at least that object, and its free pointer is an address. */
  lemma GiveIsPossible(s: State, d: nat, o: nat)
    requires Ok(s) && Taken(s, d, o)
    ensures s.desc[d].refcnt > 0 && s.desc[d].freeptr < 0x1_0000_0000 && PageOf(o) == s.desc[d].page && o in s.live
  {
    hide Ok, IsSlot, PageOf;
    PageAt(s, d);
    TakenIsLive(s, d, o);
    SlotInPage(s.desc[d].page, s.desc[d].size, o);
    if s.slots[d] != [] { SlotInPage(s.desc[d].page, s.desc[d].size, s.slots[d][0]); }
    if s.desc[d].refcnt == 0 { EmptyHasNoLive(s, d, o); }
  }

  lemma GiveKeeps(s: State, d: nat, o: nat)
    requires Ok(s) && Taken(s, d, o)
    ensures s.desc[d].refcnt > 0 && s.desc[d].freeptr < 0x1_0000_0000 && Ok(Give(s, d, o))
  {
    GiveIsPossible(s, d, o);
    PageAt(s, d);
    hide ChainsOk, Sorted, PagesOk, LiveOk, Give, BucketOk, IsSlot, PageOf;
    GiveLinks(s, d, o);
    GivePages(s, d, o);
    GiveLive(s, d, o);
  }

  lemma GiveLinks(s: State, d: nat, o: nat)
    requires ChainsOk(s) && Sorted(s) && d in s.slots && d in s.desc && s.desc[d].refcnt > 0
             && s.desc[d].freeptr < 0x1_0000_0000
    ensures ChainsOk(Give(s, d, o)) && Sorted(Give(s, d, o))
  {
    hide ChainsOk, Sorted, Store;
    SameLinks(s, Give(s, d, o));
  }

  lemma GiveBucket(mem: map<nat, Byte>, d: Desc, slots: seq<nat>, o: nat)
    requires BucketOk(mem, d, slots) && IsSlot(d.page, d.size, o) && o !in slots && d.refcnt > 0
             && d.freeptr < 0x1_0000_0000
    ensures BucketOk(Store(mem, o, d.freeptr), d.(freeptr := o, refcnt := d.refcnt - 1), [o] + slots)
  {
    hide IsSlot, Store, Load;
    var mem' := Store(mem, o, d.freeptr);
    LoadStored(mem, o, d.freeptr);
    Exact(d.size);
    forall i | 0 <= i < |slots| ensures Load(mem', slots[i]) == Load(mem, slots[i]) {
      SlotsApart(d.page, d.size, o, slots[i]);
      LoadElsewhere(mem, o, d.freeptr, slots[i]);
    }
    forall i | 0 <= i < |[o] + slots| ensures Load(mem', ([o] + slots)[i]) == At([o] + slots, i + 1)
        && IsSlot(d.page, d.size, ([o] + slots)[i]) {
      if i > 0 { assert ([o] + slots)[i] == slots[i - 1]; }
    }
  }

  /** The free chain that free_s makes with o at its head, if there is one. */
  ghost predicate Chains(mem: map<nat, Byte>, d: Desc, o: nat, slots': seq<nat>)
    requires d.refcnt > 0 && d.freeptr < 0x1_0000_0000
  {
    BucketOk(Store(mem, o, d.freeptr), d.(freeptr := o, refcnt := d.refcnt - 1), slots')
  }

  /**
   * free_s does not check that o is an object in use: the page has a free chain again,
   * whatever it is taken to be, exactly when o is a slot of the page and not free already.
   */
  lemma FreeTwiceBreaks(mem: map<nat, Byte>, d: Desc, slots: seq<nat>, o: nat)
    requires BucketOk(mem, d, slots) && d.refcnt > 0 && d.freeptr < 0x1_0000_0000
    ensures (exists slots' :: Chains(mem, d, o, slots')) <==> IsSlot(d.page, d.size, o) && o !in slots
  {
    hide IsSlot, Store, Load, BucketOk;
    if IsSlot(d.page, d.size, o) && o !in slots {
      GiveBucket(mem, d, slots, o);
      assert Chains(mem, d, o, [o] + slots);
    }
    forall slots' | Chains(mem, d, o, slots') ensures IsSlot(d.page, d.size, o) && o !in slots {
      ChainStarts(mem, d, slots, o, slots');
      if o in slots {
        var k :| 0 <= k < |slots| && slots[k] == o;
        ChainFollows(mem, d, slots, o, slots', k, k);
        Cyclic(mem, d, o, slots', k + 1);
      }
    }
  }

  lemma ChainStarts(mem: map<nat, Byte>, d: Desc, slots: seq<nat>, o: nat, slots': seq<nat>)
    requires BucketOk(mem, d, slots) && d.refcnt > 0 && d.freeptr < 0x1_0000_0000 && Chains(mem, d, o, slots')
    ensures |slots'| == |slots| + 1 && slots'[0] == o && IsSlot(d.page, d.size, o)
  {
    hide IsSlot, Store, Load;
  }

  /** Up to o itself, the chain behind o runs through the slots that were free. */
  lemma {:induction false} ChainFollows(mem: map<nat, Byte>, d: Desc, slots: seq<nat>, o: nat, slots': seq<nat>,
                                        k: nat, j: nat)
    requires BucketOk(mem, d, slots) && d.refcnt > 0 && d.freeptr < 0x1_0000_0000 && Chains(mem, d, o, slots')
    requires j <= k < |slots| && slots[k] == o
    ensures |slots'| == |slots| + 1 && slots'[j + 1] == slots[j]
  {
    hide IsSlot, Store, Load;
    ChainStarts(mem, d, slots, o, slots');
    var mem' := Store(mem, o, d.freeptr);
    if j == 0 {
      LoadStored(mem, o, d.freeptr);
      assert Load(mem', slots'[0]) == slots'[1];
    } else {
      ChainFollows(mem, d, slots, o, slots', k, j - 1);
      Exact(d.size);
      SlotsApart(d.page, d.size, o, slots[j - 1]);
      LoadElsewhere(mem, o, d.freeptr, slots[j - 1]);
      assert Load(mem', slots'[j]) == slots'[j + 1] && Load(mem, slots[j - 1]) == slots[j];
    }
  }

  /** A chain does not come back to its head. */
  lemma Cyclic(mem: map<nat, Byte>, d: Desc, o: nat, slots': seq<nat>, k: nat)
    requires d.refcnt > 0 && d.freeptr < 0x1_0000_0000 && Chains(mem, d, o, slots') && 0 < k < |slots'|
             && slots'[0] == o
    ensures slots'[k] != o
  {
    hide IsSlot, Store, Load;
  }

  /** A store elsewhere leaves a page of objects as it was. */
  lemma BucketFrame(mem: map<nat, Byte>, mem': map<nat, Byte>, d: Desc, slots: seq<nat>)
    requires BucketOk(mem, d, slots) && forall i :: 0 <= i < |slots| ==> Load(mem', slots[i]) == Load(mem, slots[i])
    ensures BucketOk(mem', d, slots)
  {
    hide IsSlot, Load;
  }

  lemma OtherPage(mem: map<nat, Byte>, d: Desc, slots: seq<nat>, page: nat, size: nat, o: nat, v: Word)
    requires BucketOk(mem, d, slots) && IsSlot(page, size, o) && page % PAGE_SIZE == 0 && page != d.page
    ensures BucketOk(Store(mem, o, v), d, slots)
  {
    hide IsSlot, Store, Load;
    SlotInPage(page, size, o);
    forall i | 0 <= i < |slots| ensures Load(Store(mem, o, v), slots[i]) == Load(mem, slots[i]) {
      SlotInPage(d.page, d.size, slots[i]);
      PagesApart(page, size, o, d.page, d.size, slots[i]);
      LoadElsewhere(mem, o, v, slots[i]);
    }
    BucketFrame(mem, Store(mem, o, v), d, slots);
  }

  lemma GiveBuckets(s: State, d: nat, o: nat)
    requires PagesOk(s) && Taken(s, d, o) && s.desc[d].refcnt > 0 && s.desc[d].freeptr < 0x1_0000_0000
    ensures Buckets(Give(s, d, o))
  {
    hide IsSlot, Store, PageOf, FreeChain;
    var s' := Give(s, d, o);
    assert BucketOk(s.mem, s.desc[d], s.slots[d]);
    GiveBucket(s.mem, s.desc[d], s.slots[d], o);
    forall e | e in s.slots && e != d ensures BucketOk(s'.mem, s.desc[e], s.slots[e]) {
      assert BucketOk(s.mem, s.desc[e], s.slots[e]);
      OtherPage(s.mem, s.desc[e], s.slots[e], s.desc[d].page, s.desc[d].size, o, s.desc[d].freeptr);
    }
    hide BucketOk;
  }

  lemma GivePages(s: State, d: nat, o: nat)
    requires PagesOk(s) && Taken(s, d, o) && s.desc[d].refcnt > 0 && s.desc[d].freeptr < 0x1_0000_0000
    ensures PagesOk(Give(s, d, o))
  {
    hide Buckets, HomesOk, Store, IsSlot;
    GiveBuckets(s, d, o);
    HomesSame(s, Give(s, d, o));
  }

  lemma GiveLive(s: State, d: nat, o: nat)
    requires LiveOk(s) && Taken(s, d, o) && s.desc[d].refcnt > 0 && s.desc[d].freeptr < 0x1_0000_0000
    requires PageOf(o) == s.desc[d].page && s.desc[d].page in s.homes && s.homes[s.desc[d].page] == d
    ensures LiveOk(Give(s, d, o))
  {
    var s' := Give(s, d, o);
    hide IsSlot, PageOf, Store;
    forall x ensures IsLive(s', x) <==> IsLive(s, x) && x != o {}
  }

  /** Giving an object back changes no byte of any other object. */
  lemma GiveSpares(s: State, d: nat, o: nat, p: nat, i: nat)
    requires Ok(s) && Taken(s, d, o) && p in s.live && p != o && i < s.live[p]
    ensures s.desc[d].refcnt > 0 && s.desc[d].freeptr < 0x1_0000_0000
            && Peek(Give(s, d, o).mem, p + i) == Peek(s.mem, p + i)
  {
    hide Ok, IsSlot, Store;
    GiveIsPossible(s, d, o);
    FreeApart(s, d, o, p);
    PeekElsewhere(s.mem, o, s.desc[d].freeptr, p + i);
  }

  // ---------------------------------------------------------------- giving a page back

  function Cut(c: seq<nat>, i: nat): seq<nat>
    requires i < |c|
  {
    c[..i] + c[i + 1..]
  }

  /** The descriptor at place i of chain b, whose page is empty, moves to the free list. */
  function Drop(s: State, b: nat, i: nat): State
    requires |s.chains| == |s.heads| == BUCKETS && b < BUCKETS && i < |s.chains[b]|
    requires forall j :: 0 <= j < |s.chains[b]| ==> s.chains[b][j] in s.desc
  {
    var c := s.chains[b];
    var d := c[i];
    var desc1 := if i > 0 then s.desc[c[i - 1] := s.desc[c[i - 1]].(next := s.desc[d].next)] else s.desc;
    s.(desc := desc1[d := desc1[d].(next := s.spareHead)],
       heads := if i > 0 then s.heads else s.heads[b := s.desc[d].next], spareHead := d,
       chains := s.chains[b := Cut(c, i)], spare := [d] + s.spare,
       slots := s.slots - {d}, homes := s.homes - {s.desc[d].page})
  }

  lemma CutMembers(c: seq<nat>, i: nat)
    requires i < |c| && Distinct(c)
    ensures forall x :: x in Cut(c, i) <==> x in c && x != c[i]
    ensures Distinct(Cut(c, i))
    ensures forall j :: 0 <= j < |c| - 1 ==> Cut(c, i)[j] == if j < i then c[j] else c[j + 1]
  {
    forall x | x in c && x != c[i] ensures x in Cut(c, i) {
      var j :| 0 <= j < |c| && c[j] == x;
      assert Cut(c, i)[if j < i then j else j - 1] == x;
    }
  }

  /** Unlinking one descriptor leaves the rest of its chain linked. */
  lemma CutLinked(desc: map<nat, Desc>, desc': map<nat, Desc>, c: seq<nat>, head: nat, i: nat)
    requires Linked(desc, c, head) && i < |c|
    requires forall j :: 0 <= j < |c| && j != i ==> c[j] in desc' && c[j] in desc
    requires forall j :: 0 <= j < |c| && j != i && j + 1 != i ==> desc'[c[j]].next == desc[c[j]].next
    requires i > 0 ==> desc'[c[i - 1]].next == desc[c[i]].next
    ensures Linked(desc', Cut(c, i), if i > 0 then head else desc[c[i]].next)
  {
    CutMembers(c, i);
    hide Distinct, Cut;
    var cut := Cut(c, i);
    assert |cut| == |c| - 1;
    forall j | 0 <= j < |cut| ensures cut[j] != 0 && cut[j] in desc' && desc'[cut[j]].next == At(cut, j + 1) {
      var k := if j < i then j else j + 1;
      assert cut[j] == c[k];
    }
  }

  /** i is a place on chain b and its page has no live object. */
  ghost predicate Droppable(s: State, b: nat, i: nat) {
    && |s.chains| == |s.heads| == BUCKETS && b < BUCKETS && i < |s.chains[b]|
    && (forall j :: 0 <= j < |s.chains[b]| ==> s.chains[b][j] in s.desc)
    && s.chains[b][i] in s.slots && s.desc[s.chains[b][i]].refcnt == 0
  }

  /** What Drop changes, field by field. */
  lemma DropFields(s: State, b: nat, i: nat)
    requires Droppable(s, b, i) && Distinct(s.chains[b])
    ensures var s', c := Drop(s, b, i), s.chains[b];
            && s'.mem == s.mem && s'.live == s.live && |s'.heads| == BUCKETS && s'.chains == s.chains[b := Cut(c, i)]
            && s'.spare == [c[i]] + s.spare && s'.spareHead == c[i] && s'.slots == s.slots - {c[i]}
               && s'.homes == s.homes - {s.desc[c[i]].page}
            && (forall x :: 0 <= x < BUCKETS && x != b ==> s'.heads[x] == s.heads[x])
            && s'.heads[b] == (if i > 0 then s.heads[b] else s.desc[c[i]].next)
            && s'.desc.Keys == s.desc.Keys
            && (forall e :: e in s.desc ==> s'.desc[e] == s.desc[e].(next := s'.desc[e].next))
            && (forall e :: e in s.desc && e != c[i] && (i > 0 ==> e != c[i - 1]) ==> s'.desc[e].next == s.desc[e].next)
            && s'.desc[c[i]].next == s.spareHead && (i > 0 ==>
                 c[i - 1] != c[i] && s'.desc[c[i - 1]].next == s.desc[c[i]].next)
  {
    hide Distinct, Cut;
    if i > 0 { Apart(s.chains[b], i - 1, i); }
  }

  lemma Apart(c: seq<nat>, i: nat, j: nat)
    requires Distinct(c) && i < |c| && j < |c| && i != j
    ensures c[i] != c[j]
  {
  }

  lemma DropKeeps(s: State, b: nat, i: nat)
    requires Ok(s) && Droppable(s, b, i)
    ensures Ok(Drop(s, b, i)) && Drop(s, b, i).live == s.live
  {
    ChainsAre(s);
    assert Linked(s.desc, s.chains[b], s.heads[b]);
    DropFields(s, b, i);
    hide Drop, Ok, Linked, Distinct;
    DropLinks(s, b, i);
    DropSorted(s, b, i);
    DropPages(s, b, i);
    DropLive(s, b, i);
    OkIs(Drop(s, b, i));
  }

  lemma OkIs(s: State)
    requires ChainsOk(s) && Sorted(s) && PagesOk(s) && LiveOk(s)
    ensures Ok(s)
  {
  }

  lemma ChainsAre(s: State)
    requires Ok(s)
    ensures |s.chains| == |s.heads| == BUCKETS
    ensures forall b :: 0 <= b < BUCKETS ==> Linked(s.desc, s.chains[b], s.heads[b])
    ensures Linked(s.desc, s.spare, s.spareHead)
  {
    hide Sorted, PagesOk, LiveOk;
  }

  lemma DropLinks(s: State, b: nat, i: nat)
    requires Ok(s) && Droppable(s, b, i) && Distinct(s.chains[b])
    ensures ChainsOk(Drop(s, b, i))
  {
    hide Ok, Linked, Distinct, Cut;
    var s' := Drop(s, b, i);
    ChainsAre(s);
    DropFields(s, b, i);
    hide Drop;
    forall e | 0 <= e < BUCKETS ensures Linked(s'.desc, s'.chains[e], s'.heads[e]) {
      if e == b { DropSame(s, b, i); } else { DropOther(s, b, i, e); }
    }
    DropSpare(s, b, i);
  }

  lemma DropSame(s: State, b: nat, i: nat)
    requires Droppable(s, b, i) && Linked(s.desc, s.chains[b], s.heads[b])
    ensures Linked(Drop(s, b, i).desc, Cut(s.chains[b], i), Drop(s, b, i).heads[b])
  {
    var s', c := Drop(s, b, i), s.chains[b];
    DropFields(s, b, i);
    hide Drop, Cut, Linked;
    forall j | 0 <= j < |c| && j != i && j + 1 != i ensures s'.desc[c[j]].next == s.desc[c[j]].next {
      Apart(c, j, i);
      if i > 0 { Apart(c, j, i - 1); }
    }
    CutLinked(s.desc, s'.desc, c, s.heads[b], i);
  }

  lemma DropOther(s: State, b: nat, i: nat, e: nat)
    requires Ok(s) && Droppable(s, b, i) && Distinct(s.chains[b]) && e < BUCKETS && e != b
             && Linked(s.desc, s.chains[e], s.heads[e])
    ensures Linked(Drop(s, b, i).desc, s.chains[e], s.heads[e])
  {
    hide Ok, Distinct;
    ChainsDiffer(s, b, e);
    DropFields(s, b, i);
    hide Drop;
    LinkedSame(s.desc, Drop(s, b, i).desc, s.chains[e], s.heads[e]);
  }

  lemma DropSpare(s: State, b: nat, i: nat)
    requires Ok(s) && Droppable(s, b, i) && Distinct(s.chains[b]) && Linked(s.desc, s.spare, s.spareHead)
             && Linked(s.desc, s.chains[b], s.heads[b])
    ensures var s' := Drop(s, b, i); Linked(s'.desc, s'.spare, s'.spareHead)
  {
    hide Ok, Distinct;
    var s', d := Drop(s, b, i), s.chains[b][i];
    SpareDiffers(s, b);
    DropFields(s, b, i);
    hide Drop;
    LinkedSame(s.desc, s'.desc, s.spare, s.spareHead);
    SpareGrows(s'.desc, s.spare, s.spareHead, d);
  }

  lemma ChainsDiffer(s: State, b: nat, e: nat)
    requires Ok(s) && b < BUCKETS && e < BUCKETS && b != e && |s.chains| == BUCKETS
    ensures forall i, j :: 0 <= i < |s.chains[b]| && 0 <= j < |s.chains[e]| ==> s.chains[b][i] != s.chains[e][j]
  {
    hide Ok, BucketOf, SizeOf;
    OneBucket(b, SizeOf(b));
    OneBucket(e, SizeOf(b));
    forall i, j | 0 <= i < |s.chains[b]| && 0 <= j < |s.chains[e]| ensures s.chains[b][i] != s.chains[e][j] {
      InChain(s, b, s.chains[b][i]);
      InChain(s, e, s.chains[e][j]);
    }
  }

  lemma InChain(s: State, b: nat, d: nat)
    requires Ok(s) && b < BUCKETS && |s.chains| == BUCKETS && d in s.chains[b]
    ensures d in s.slots && d in s.desc && s.desc[d].size == SizeOf(b)
  {
    hide ChainsOk, PagesOk, LiveOk, BucketOf, SizeOf;
  }

  lemma SpareDiffers(s: State, b: nat)
    requires Ok(s) && b < BUCKETS && |s.chains| == BUCKETS
    ensures forall i, j :: 0 <= i < |s.chains[b]| && 0 <= j < |s.spare| ==> s.chains[b][i] != s.spare[j]
  {
    hide ChainsOk, PagesOk, LiveOk, BucketOf, SizeOf;
    forall i, j | 0 <= i < |s.chains[b]| && 0 <= j < |s.spare| ensures s.chains[b][i] != s.spare[j] {
      assert s.chains[b][i] in s.chains[b] && s.spare[j] in s.spare;
    }
  }

  lemma SpareGrows(desc: map<nat, Desc>, spare: seq<nat>, head: nat, d: nat)
    requires Linked(desc, spare, head) && d in desc && d != 0 && (forall j :: 0 <= j < |spare| ==> spare[j] != d)
             && desc[d].next == head
    ensures Linked(desc, [d] + spare, d)
  {
    var c := [d] + spare;
    forall i | 0 <= i < |c| ensures c[i] != 0 && c[i] in desc && desc[c[i]].next == At(c, i + 1) {
      if i > 0 { assert c[i] == spare[i - 1]; }
    }
  }

  /** s' has the same descriptors as s, up to their links, but d has no page any more. */
  ghost predicate Retired(s: State, s': State, d: nat) {
    && d in s.slots && d in s.desc
    && (forall e :: e in s'.slots <==> e in s.slots && e != d)
    && (forall e :: e in s'.slots && e in s.slots ==> s'.slots[e] == s.slots[e])
    && (forall e :: e in s'.desc <==> e in s.desc)
    && (forall e :: e in s'.desc && e in s.desc ==> SameButLink(s'.desc[e], s.desc[e]))
    && (forall p :: p in s'.homes <==> p in s.homes && p != s.desc[d].page)
    && (forall p :: p in s'.homes && p in s.homes ==> s'.homes[p] == s.homes[p])
  }

  predicate SameButLink(a: Desc, b: Desc) {
    a.page == b.page && a.size == b.size && a.freeptr == b.freeptr && a.refcnt == b.refcnt
  }

  lemma DropRetires(s: State, b: nat, i: nat)
    requires Droppable(s, b, i) && Distinct(s.chains[b])
    ensures Retired(s, Drop(s, b, i), s.chains[b][i])
  {
    DropFields(s, b, i);
    hide Drop, Distinct, Cut;
    var s', d := Drop(s, b, i), s.chains[b][i];
    forall e ensures e in s'.slots <==> e in s.slots && e != d {}
    forall e ensures e in s'.desc <==> e in s.desc { assert e in s'.desc.Keys <==> e in s.desc.Keys; }
    forall e | e in s'.desc && e in s.desc ensures SameButLink(s'.desc[e], s.desc[e]) {}
  }

  lemma DropSorted(s: State, b: nat, i: nat)
    requires Ok(s) && Droppable(s, b, i) && Distinct(s.chains[b])
    ensures |Drop(s, b, i).chains| == BUCKETS && Sorted(Drop(s, b, i))
  {
    var s', d := Drop(s, b, i), s.chains[b][i];
    CutMembers(s.chains[b], i);
    DropRetires(s, b, i);
    DropFields(s, b, i);
    ChainsAre(s);
    assert Sorted(s);
    hide Drop, Distinct, Cut, Ok, Linked;
    assert s'.chains == s.chains[b := Cut(s.chains[b], i)] && s'.spare == [d] + s.spare;
    forall x, e | 0 <= x < BUCKETS ensures e in s'.chains[x] <==> e in s.chains[x] && (x == b ==> e != d) {}
    SortedRetires(s, s', b, d);
  }

  lemma SortedRetires(s: State, s': State, b: nat, d: nat)
    requires |s.chains| == |s'.chains| == BUCKETS && Sorted(s) && Retired(s, s', d) && b < BUCKETS && d in s.chains[b]
    requires forall x, e :: 0 <= x < BUCKETS ==> (e in s'.chains[x] <==> e in s.chains[x] && (x == b ==> e != d))
    requires s'.spare == [d] + s.spare
    ensures Sorted(s')
  {
    hide BucketOf, SizeOf, IsSize, Sorted, Retired;
    OnChainAt(s, b, d);
    forall x, e | 0 <= x < BUCKETS && e in s'.chains[x] ensures e in s'.slots && e in s'.desc
        && s'.desc[e].size == SizeOf(x) {
      OnChainAt(s, x, e);
      RetiredAt(s, s', d, e);
      if x != b { OneBucket(x, SizeOf(x)); OneBucket(b, SizeOf(x)); }
    }
    forall e | e in s'.slots ensures e in s'.desc && IsSize(s'.desc[e].size)
        && e in s'.chains[BucketOf(s'.desc[e].size)] {
      RetiredAt(s, s', d, e);
      SortedAt(s, e);
    }
    forall e ensures (e in s'.desc ==> e in s'.slots || e in s'.spare)
        && (e in s'.spare ==> e in s'.desc && e !in s'.slots) {
      RetiredAt(s, s', d, e);
      SpareAt(s, e);
      assert e in s'.spare <==> e == d || e in s.spare;
    }
    SortedIs(s');
  }

  lemma RetiredAt(s: State, s': State, d: nat, e: nat)
    requires Retired(s, s', d)
    ensures (e in s'.slots <==> e in s.slots && e != d) && (e in s'.desc <==> e in s.desc)
    ensures e in s.desc && e in s'.desc ==> s'.desc[e].size == s.desc[e].size
  {
  }

  lemma DropPages(s: State, b: nat, i: nat)
    requires Ok(s) && Droppable(s, b, i) && Distinct(s.chains[b])
    ensures PagesOk(Drop(s, b, i))
  {
    DropRetires(s, b, i);
    DropFields(s, b, i);
    assert PagesOk(s);
    hide Ok, PagesOk, Retired, Drop, Distinct, Cut;
    PagesRetire(s, Drop(s, b, i), s.chains[b][i]);
  }

  lemma PagesRetire(s: State, s': State, d: nat)
    requires PagesOk(s) && Retired(s, s', d) && s'.mem == s.mem
    ensures PagesOk(s')
  {
    BucketsRetire(s, s', d);
    HomesRetire(s, s', d);
  }

  lemma BucketsRetire(s: State, s': State, d: nat)
    requires Buckets(s) && Retired(s, s', d) && s'.mem == s.mem
    ensures Buckets(s')
  {
    hide BucketOk, SameButLink;
    forall e | e in s'.slots ensures e in s'.desc && BucketOk(s'.mem, s'.desc[e], s'.slots[e]) {
      assert e in s.slots && e in s.desc && BucketOk(s.mem, s.desc[e], s.slots[e]);
      LinkIsApart(s.mem, s.desc[e], s'.desc[e], s.slots[e]);
    }
  }

  lemma HomesRetire(s: State, s': State, d: nat)
    requires HomesOk(s) && Retired(s, s', d)
    ensures HomesOk(s')
  {
    hide PageOf;
    forall e | e in s'.slots && e in s'.desc ensures s'.desc[e].page in s'.homes && s'.homes[s'.desc[e].page] == e {
      assert e in s.slots && e in s.desc && s.homes[s.desc[d].page] == d;
    }
    forall p | p in s'.homes ensures s'.homes[p] in s'.slots && s'.homes[p] in s'.desc
        && s'.desc[s'.homes[p]].page == p {
      assert p in s.homes && s.homes[p] in s.desc;
    }
  }

  lemma LinkIsApart(mem: map<nat, Byte>, d: Desc, d': Desc, slots: seq<nat>)
    requires BucketOk(mem, d, slots) && SameButLink(d', d)
    ensures BucketOk(mem, d', slots)
  {
    hide IsSlot, Load;
  }

  lemma DropLive(s: State, b: nat, i: nat)
    requires Ok(s) && Droppable(s, b, i) && Distinct(s.chains[b])
    ensures LiveOk(Drop(s, b, i))
  {
    var d := s.chains[b][i];
    forall o ensures !Taken(s, d, o) { EmptyHasNoLive(s, d, o); }
    DropRetires(s, b, i);
    DropFields(s, b, i);
    assert LiveOk(s) && HomesOk(s);
    hide Ok, LiveOk, HomesOk, Retired, Drop, Distinct, Cut, Taken;
    LiveRetires(s, Drop(s, b, i), d);
  }

  lemma LiveRetires(s: State, s': State, d: nat)
    requires LiveOk(s) && Retired(s, s', d) && s'.live == s.live && (forall o :: !Taken(s, d, o))
    requires HomesOk(s)
    ensures LiveOk(s')
  {
    hide PageOf, IsSlot;
    forall o ensures IsLive(s', o) <==> IsLive(s, o) {
      if PageOf(o) in s.homes { assert s.homes[PageOf(o)] in s.desc; }
      assert s.homes[s.desc[d].page] == d;
    }
  }

  // ---------------------------------------------------------------- a new page of objects

  /** The first n slots of a page, in address order. */
  function Slots(page: nat, size: nat, n: nat): (r: seq<nat>)
    ensures |r| == n && forall k :: 0 <= k < n ==> r[k] == Slot(page, size, k)
  {
    if n == 0 then [] else Slots(page, size, n - 1) + [Slot(page, size, n - 1)]
  }

  /** A page that get_free_page may return: whole, addressable, and used for nothing here. */
  ghost predicate FreshPage(s: State, page: nat) {
    && page % PAGE_SIZE == 0 && 0 < page && page + PAGE_SIZE <= 0x1_0000_0000
    && page !in s.homes && forall d :: d in s.desc ==> PageOf(d) != page
  }

  /** Slot k holds the address of slot k + 1, and the last slot holds null. */
  ghost predicate Threads(mem: map<nat, Byte>, page: nat, size: nat, k: nat) {
    Load(mem, Slot(page, size, k)) == if k + 1 < PerPage(size) then Slot(page, size, k + 1) else 0
  }

  /** All objects of the page form one chain in address order, and nothing else changed. */
  ghost predicate Threaded(mem: map<nat, Byte>, mem': map<nat, Byte>, page: nat, size: nat)
    requires IsSize(size)
  {
    && (forall k :: 0 <= k < PerPage(size) ==> Threads(mem', page, size, k))
    && (forall a :: 0 <= a < page || page + PAGE_SIZE <= a ==> Peek(mem', a) == Peek(mem, a))
  }

  /** The first spare descriptor takes charge of a new page for bucket b. */
  function AddBucket(s: State, b: nat, page: nat, mem': map<nat, Byte>): State
    requires b < BUCKETS && |s.heads| == |s.chains| == BUCKETS && s.spare != [] && s.spare[0] in s.desc
  {
    var d, size := s.spare[0], SizeOf(b);
    s.(mem := mem', desc := s.desc[d := Desc(page, s.heads[b], page, 0, size)], heads := s.heads[b := d], spareHead :=
        s.desc[d].next,
       chains := s.chains[b := [d] + s.chains[b]], spare := s.spare[1..],
       slots := s.slots[d := Slots(page, size, PerPage(size))], homes := s.homes[page := d])
  }

  lemma NewBucketOk(mem: map<nat, Byte>, mem': map<nat, Byte>, page: nat, next: nat, size: nat)
    requires IsSize(size) && page % PAGE_SIZE == 0 && 0 < page && page + PAGE_SIZE <= 0x1_0000_0000
             && Threaded(mem, mem', page, size)
    ensures BucketOk(mem', Desc(page, next, page, 0, size), Slots(page, size, PerPage(size)))
  {
    var n := PerPage(size);
    Exact(size);
    SlotsAre(page, size, n);
    hide Load, Peek, Slot, Slots, IsSlot, IsSize, Distinct, PerPage;
    var c := Slots(page, size, n);
    forall i | 0 <= i < |c| ensures Load(mem', c[i]) == At(c, i + 1) {
      assert Threads(mem', page, size, i) && c[i] == Slot(page, size, i);
      if i + 1 < n { assert c[i + 1] == Slot(page, size, i + 1); }
    }
  }

  lemma SlotsAre(page: nat, size: nat, n: nat)
    requires IsSize(size) && 0 < n <= PerPage(size)
    ensures Distinct(Slots(page, size, n)) && Slots(page, size, n)[0] == page
    ensures forall i :: 0 <= i < n ==> IsSlot(page, size, Slots(page, size, n)[i])
  {
    var c := Slots(page, size, n);
    assert Slot(page, size, 0) == page;
    hide Slot, Slots;
    forall i, j | 0 <= i < j < |c| ensures c[i] != c[j] { SlotsRise(page, size, i, j); }
    forall i | 0 <= i < |c| ensures IsSlot(page, size, c[i]) { assert c[i] == Slot(page, size, i); }
  }

  /** Stores inside a fresh page leave other pages of objects as they were. */
  lemma OldBucketOk(mem: map<nat, Byte>, mem': map<nat, Byte>, page: nat, d: Desc, slots: seq<nat>)
    requires BucketOk(mem, d, slots) && page % PAGE_SIZE == 0 && d.page != page
    requires forall a :: 0 <= a < page || page + PAGE_SIZE <= a ==> Peek(mem', a) == Peek(mem, a)
    ensures BucketOk(mem', d, slots)
  {
    forall i | 0 <= i < |slots| ensures Load(mem', slots[i]) == Load(mem, slots[i]) {
      hide IsSlot, PageOf, Peek;
      SlotInPage(d.page, d.size, slots[i]);
      if page < d.page { WholePages(page, d.page); } else { WholePages(d.page, page); }
    }
    BucketFrame(mem, mem', d, slots);
  }

  lemma LinkedTail(desc: map<nat, Desc>, c: seq<nat>, head: nat)
    requires Linked(desc, c, head) && c != []
    ensures c[0] in desc && c[0] != 0 && Linked(desc, c[1..], desc[c[0]].next) && c[0] !in c[1..]
  {
  }

  lemma AddBucketKeeps(s: State, b: nat, page: nat, mem': map<nat, Byte>)
    requires Ok(s) && b < BUCKETS && s.spare != [] && FreshPage(s, page) && Threaded(s.mem, mem', page, SizeOf(b))
    ensures |s.heads| == |s.chains| == BUCKETS && s.spare[0] in s.desc && Ok(AddBucket(s, b, page, mem'))
  {
    ChainsAre(s);
    LinkedTail(s.desc, s.spare, s.spareHead);
    hide Linked, ChainsOk, Sorted, Buckets, HomesOk, LiveOk, AddBucket, Threaded, FreshPage, SizeOf;
    AddBucketLinks(s, b, page, mem');
    AddBucketSorted(s, b, page, mem');
    AddBucketBuckets(s, b, page, mem');
    AddBucketHomes(s, b, page, mem');
    AddBucketLive(s, b, page, mem');
  }

  lemma AddBucketLinks(s: State, b: nat, page: nat, mem': map<nat, Byte>)
    requires Ok(s) && b < BUCKETS && s.spare != [] && |s.heads| == |s.chains| == BUCKETS && s.spare[0] in s.desc
    ensures ChainsOk(AddBucket(s, b, page, mem'))
  {
    var s', d := AddBucket(s, b, page, mem'), s.spare[0];
    ChainsAre(s);
    LinkedTail(s.desc, s.spare, s.spareHead);
    hide Ok, SizeOf, Slots;
    forall e | 0 <= e < BUCKETS ensures Linked(s'.desc, s'.chains[e], s'.heads[e]) {
      SpareDiffers(s, e);
      hide Linked;
      forall j | 0 <= j < |s.chains[e]| ensures s.chains[e][j] != d
          && s.chains[e][j] in s.desc { Member(s.desc, s.chains[e], s.heads[e], j); }
      LinkedSame(s.desc, s'.desc, s.chains[e], s.heads[e]);
      if e == b { SpareGrows(s'.desc, s.chains[b], s.heads[b], d); }
    }
    LinkedSame(s.desc, s'.desc, s.spare[1..], s.desc[d].next);
  }

  lemma Member(desc: map<nat, Desc>, c: seq<nat>, head: nat, j: nat)
    requires Linked(desc, c, head) && j < |c|
    ensures c[j] in desc && c[j] != 0
  {
  }

  /** s' is s with a page, and its slots, put in charge of d. */
  ghost predicate Staffed(s: State, s': State, d: nat, page: nat) {
    && d in s.desc && d !in s.slots
    && (forall e :: e in s'.slots <==> e in s.slots || e == d)
    && (forall e :: e in s.slots && e in s'.slots ==> s'.slots[e] == s.slots[e])
    && (forall e :: e in s'.desc <==> e in s.desc)
    && (forall e :: e in s.desc && e in s'.desc && e != d ==> s'.desc[e] == s.desc[e])
    && d in s'.desc && s'.desc[d].page == page
    && (forall p :: p in s'.homes <==> p in s.homes || p == page)
    && (forall p :: p in s.homes && p in s'.homes && p != page ==> s'.homes[p] == s.homes[p])
    && page in s'.homes && s'.homes[page] == d
  }

  lemma Put<V>(m: map<nat, V>, k: nat, v: V)
    ensures forall e :: e in m[k := v] <==> e in m || e == k
    ensures forall e :: e in m && e != k ==> m[k := v][e] == m[e]
  {
  }

  lemma AddBucketStaffs(s: State, b: nat, page: nat, mem': map<nat, Byte>)
    requires Ok(s) && b < BUCKETS && s.spare != [] && |s.heads| == |s.chains| == BUCKETS && s.spare[0] in s.desc
    ensures Staffed(s, AddBucket(s, b, page, mem'), s.spare[0], page)
  {
    var s', d := AddBucket(s, b, page, mem'), s.spare[0];
    SpareHasNoPage(s, d);
    var x := Desc(page, s.heads[b], page, 0, SizeOf(b));
    var y := Slots(page, SizeOf(b), PerPage(SizeOf(b)));
    assert s'.desc == s.desc[d := x] && s'.slots == s.slots[d := y] && s'.homes == s.homes[page := d];
    hide *;
    StaffedBy(s, s', d, page, x, y);
  }

  lemma StaffedBy(s: State, s': State, d: nat, page: nat, x: Desc, y: seq<nat>)
    requires d in s.desc && d !in s.slots && x.page == page
    requires s'.desc == s.desc[d := x] && s'.slots == s.slots[d := y] && s'.homes == s.homes[page := d]
    ensures Staffed(s, s', d, page)
  {
    Put(s.desc, d, x);
    Put(s.slots, d, y);
    Put(s.homes, page, d);
  }

  lemma AddBucketSorted(s: State, b: nat, page: nat, mem': map<nat, Byte>)
    requires Ok(s) && b < BUCKETS && s.spare != [] && |s.heads| == |s.chains| == BUCKETS && s.spare[0] in s.desc
    ensures |AddBucket(s, b, page, mem').chains| == BUCKETS && Sorted(AddBucket(s, b, page, mem'))
  {
    var s', d := AddBucket(s, b, page, mem'), s.spare[0];
    AddBucketStaffs(s, b, page, mem');
    ChainsAre(s);
    TailOf(s.spare);
    assert Sorted(s);
    hide Ok, Slots, Linked, Distinct, Sorted, Staffed, SizeOf;
    forall x, e | 0 <= x < BUCKETS ensures e in s'.chains[x] <==> e in s.chains[x] || (x == b && e == d) {}
    SortedStaffed(s, s', b, d, page);
  }

  lemma SortedStaffed(s: State, s': State, b: nat, d: nat, page: nat)
    requires |s.chains| == |s'.chains| == BUCKETS && Sorted(s) && Staffed(s, s', d, page) && b < BUCKETS
             && s'.desc[d].size == SizeOf(b) && d in s.spare
    requires forall x, e :: 0 <= x < BUCKETS ==> (e in s'.chains[x] <==> e in s.chains[x] || (x == b && e == d))
    requires forall e :: e in s'.spare <==> e in s.spare && e != d
    ensures Sorted(s')
  {
    hide SizeOf, BucketOf, IsSize, Sorted, Staffed;
    OneBucket(b, SizeOf(b));
    forall e | e in s'.slots ensures e in s'.desc && IsSize(s'.desc[e].size)
        && e in s'.chains[BucketOf(s'.desc[e].size)] {
      StaffedAt(s, s', d, page, e);
      if e != d { SortedAt(s, e); }
    }
    forall x, e | 0 <= x < BUCKETS && e in s'.chains[x] ensures e in s'.slots && e in s'.desc
        && s'.desc[e].size == SizeOf(x) {
      StaffedAt(s, s', d, page, e);
      if e in s.chains[x] { OnChainAt(s, x, e); }
    }
    forall e ensures (e in s'.desc ==> e in s'.slots || e in s'.spare)
        && (e in s'.spare ==> e in s'.desc && e !in s'.slots) {
      StaffedAt(s, s', d, page, e);
      SpareAt(s, e);
    }
    SortedIs(s');
  }

  lemma StaffedAt(s: State, s': State, d: nat, page: nat, e: nat)
    requires Staffed(s, s', d, page)
    ensures (e in s'.slots <==> e in s.slots || e == d) && (e in s'.desc <==> e in s.desc) && d in s'.desc
            && d !in s.slots && d in s.desc
    ensures e in s.desc && e in s'.desc && e != d ==> s'.desc[e] == s.desc[e]
  {
  }

  lemma SortedAt(s: State, e: nat)
    requires |s.chains| == BUCKETS && Sorted(s) && e in s.slots
    ensures e in s.desc && IsSize(s.desc[e].size) && e in s.chains[BucketOf(s.desc[e].size)]
  {
    hide SizeOf, BucketOf, IsSize;
  }

  lemma OnChainAt(s: State, x: nat, e: nat)
    requires |s.chains| == BUCKETS && Sorted(s) && x < BUCKETS && e in s.chains[x]
    ensures e in s.slots && e in s.desc && s.desc[e].size == SizeOf(x)
  {
    hide SizeOf, BucketOf, IsSize;
  }

  lemma SpareAt(s: State, e: nat)
    requires |s.chains| == BUCKETS && Sorted(s)
    ensures (e in s.desc ==> e in s.slots || e in s.spare) && (e in s.spare ==> e in s.desc && e !in s.slots)
  {
    hide SizeOf, BucketOf, IsSize;
  }

  lemma SortedIs(s: State)
    requires |s.chains| == BUCKETS
    requires forall b, d :: 0 <= b < BUCKETS && d in s.chains[b] ==>
             d in s.slots && d in s.desc && s.desc[d].size == SizeOf(b)
    requires forall d :: d in s.slots ==>
               d in s.desc && IsSize(s.desc[d].size) && d in s.chains[BucketOf(s.desc[d].size)]
    requires forall d ::
               (d in s.desc ==> d in s.slots || d in s.spare) && (d in s.spare ==> d in s.desc && d !in s.slots)
    ensures Sorted(s)
  {
    hide SizeOf, BucketOf, IsSize;
  }

  lemma AddBucketBuckets(s: State, b: nat, page: nat, mem': map<nat, Byte>)
    requires Ok(s) && b < BUCKETS && s.spare != [] && |s.heads| == |s.chains| == BUCKETS && s.spare[0] in s.desc
    requires FreshPage(s, page) && Threaded(s.mem, mem', page, SizeOf(b))
    ensures Buckets(AddBucket(s, b, page, mem'))
  {
    var s', d := AddBucket(s, b, page, mem'), s.spare[0];
    AddBucketStaffs(s, b, page, mem');
    NewBucketOk(s.mem, mem', page, s.heads[b], SizeOf(b));
    assert Buckets(s) && HomesOk(s);
    assert s'.mem == mem' && d in s'.slots && BucketOk(mem', s'.desc[d], s'.slots[d]);
    hide Ok, SizeOf, Slots, BucketOk, PageOf, AddBucket, Staffed, Buckets, HomesOk;
    BucketsStaffed(s, s', d, page);
  }

  lemma BucketsStaffed(s: State, s': State, d: nat, page: nat)
    requires Buckets(s) && HomesOk(s) && Staffed(s, s', d, page) && page !in s.homes && page % PAGE_SIZE == 0
    requires forall a :: 0 <= a < page || page + PAGE_SIZE <= a ==> Peek(s'.mem, a) == Peek(s.mem, a)
    requires d in s'.slots && BucketOk(s'.mem, s'.desc[d], s'.slots[d])
    ensures Buckets(s')
  {
    hide BucketOk, PageOf, Peek;
    forall e | e in s'.slots ensures e in s'.desc && BucketOk(s'.mem, s'.desc[e], s'.slots[e]) {
      if e != d {
        assert e in s.slots && e in s.desc && BucketOk(s.mem, s.desc[e], s.slots[e]) && s.desc[e].page in s.homes;
        OldBucketOk(s.mem, s'.mem, page, s.desc[e], s.slots[e]);
      }
    }
  }

  lemma AddBucketHomes(s: State, b: nat, page: nat, mem': map<nat, Byte>)
    requires Ok(s) && b < BUCKETS && s.spare != [] && |s.heads| == |s.chains| == BUCKETS && s.spare[0] in s.desc
             && FreshPage(s, page)
    ensures HomesOk(AddBucket(s, b, page, mem'))
  {
    AddBucketStaffs(s, b, page, mem');
    assert HomesOk(s);
    hide Ok, AddBucket, Staffed, HomesOk;
    HomesStaffed(s, AddBucket(s, b, page, mem'), s.spare[0], page);
  }

  lemma HomesStaffed(s: State, s': State, d: nat, page: nat)
    requires HomesOk(s) && Staffed(s, s', d, page) && FreshPage(s, page)
    ensures HomesOk(s')
  {
    hide PageOf;
    forall e | e in s'.slots && e in s'.desc ensures s'.desc[e].page in s'.homes && s'.homes[s'.desc[e].page] == e {
      if e != d { assert e in s.slots && e in s.desc && s.desc[e].page in s.homes; }
    }
    forall p | p in s'.homes ensures s'.homes[p] in s'.slots && s'.homes[p] in s'.desc
        && s'.desc[s'.homes[p]].page == p {
      if p != page { assert s.homes[p] in s.slots && s.homes[p] in s.desc; }
    }
  }

  lemma SpareHasNoPage(s: State, d: nat)
    requires Ok(s) && d in s.spare
    ensures d !in s.slots
  {
    hide ChainsOk, PagesOk, LiveOk, BucketOf, SizeOf;
  }

  lemma AddBucketLive(s: State, b: nat, page: nat, mem': map<nat, Byte>)
    requires Ok(s) && b < BUCKETS && s.spare != [] && |s.heads| == |s.chains| == BUCKETS && s.spare[0] in s.desc
             && FreshPage(s, page)
    ensures LiveOk(AddBucket(s, b, page, mem'))
  {
    var s', d := AddBucket(s, b, page, mem'), s.spare[0];
    AddBucketStaffs(s, b, page, mem');
    forall o ensures !Taken(s', d, o) { NoneTaken(s, b, page, mem', o); }
    assert LiveOk(s) && HomesOk(s) && s'.live == s.live;
    hide Ok, AddBucket, Staffed, HomesOk, LiveOk, Taken;
    LiveStaffed(s, s', d, page);
  }

  lemma NoneTaken(s: State, b: nat, page: nat, mem': map<nat, Byte>, o: nat)
    requires b < BUCKETS && |s.heads| == |s.chains| == BUCKETS && s.spare != [] && s.spare[0] in s.desc
    ensures !Taken(AddBucket(s, b, page, mem'), s.spare[0], o)
  {
    hide IsSlot, Slots, SizeOf;
    if IsSlot(page, SizeOf(b), o) { AllFree(page, SizeOf(b), o); }
  }

  lemma LiveStaffed(s: State, s': State, d: nat, page: nat)
    requires LiveOk(s) && HomesOk(s) && Staffed(s, s', d, page) && page !in s.homes && s'.live == s.live &&
             forall o :: !Taken(s', d, o)
    ensures LiveOk(s')
  {
    hide IsSlot, PageOf;
    forall o ensures IsLive(s', o) <==> IsLive(s, o) {
      if PageOf(o) in s.homes { assert s.homes[PageOf(o)] in s.slots && s.homes[PageOf(o)] in s.desc; }
    }
  }

  lemma AllFree(page: nat, size: nat, o: nat)
    requires IsSize(size) && IsSlot(page, size, o)
    ensures o in Slots(page, size, PerPage(size))
  {
    var k := NumberOf(page, size, o);
    assert Slots(page, size, PerPage(size))[k] == o;
  }

  // ---------------------------------------------------------------- a new page of descriptors

  /** sizeof(struct bucket_desc), and how many fit a page. */
  const DESC_SIZE: nat := 16
  const DESCS: nat := 256

  function DescAddrs(page: nat, n: nat): (r: seq<nat>)
    ensures |r| == n && forall k :: 0 <= k < n ==> r[k] == page + DESC_SIZE * k
  {
    if n == 0 then [] else DescAddrs(page, n - 1) + [page + DESC_SIZE * (n - 1)]
  }

  /** Descriptor a[k] is linked to the one after it, and the last of them to last. */
  ghost predicate LinksOn(desc: map<nat, Desc>, a: seq<nat>, k: nat, last: nat) {
    k < |a| && a[k] in desc && desc[a[k]].next == if k + 1 < |a| then a[k + 1] else last
  }

  /** desc' is desc with n blank descriptors in front of the free list, linked in address order. */
  ghost predicate Extended(desc: map<nat, Desc>, desc': map<nat, Desc>, page: nat, n: nat, last: nat) {
    && (forall e :: e in desc' <==> e in desc || e in DescAddrs(page, n))
    && (forall e :: e in desc && e !in DescAddrs(page, n) ==> e in desc' && desc'[e] == desc[e])
    && (forall k :: 0 <= k < n ==> LinksOn(desc', DescAddrs(page, n), k, last))
  }

  lemma DescsArePaged(page: nat, e: nat)
    requires page % PAGE_SIZE == 0 && e in DescAddrs(page, DESCS)
    ensures PageOf(e) == page
  {
    var k :| 0 <= k < DESCS && DescAddrs(page, DESCS)[k] == e;
  }

  /** The whole page of descriptors joins the free list. */
  function AddDescs(s: State, page: nat, desc': map<nat, Desc>): State {
    s.(desc := desc', spareHead := page, spare := DescAddrs(page, DESCS) + s.spare)
  }

  lemma AddDescsKeeps(s: State, page: nat, desc': map<nat, Desc>)
    requires Ok(s) && FreshPage(s, page) && page !in s.homes && Extended(s.desc, desc', page, DESCS, s.spareHead)
    ensures Ok(AddDescs(s, page, desc'))
  {
    var s' := AddDescs(s, page, desc');
    NewDescs(s, page);
    ChainsAre(s);
    hide FreshPage, DescAddrs, PageOf, ChainsOk, Sorted, Buckets, HomesOk, LiveOk, Linked, Extended, Grown;
    AddDescsLinks(s, page, desc');
    AddDescsGrow(s, page, desc');
    SortedGrown(s, s');
    PagesGrown(s, s');
    LiveGrown(s, s');
  }

  lemma NewDescs(s: State, page: nat)
    requires FreshPage(s, page)
    ensures forall e :: e in DescAddrs(page, DESCS) ==> e !in s.desc && PageOf(e) == page
  {
    hide DescAddrs;
    forall e | e in DescAddrs(page, DESCS) ensures e !in s.desc && PageOf(e) == page { DescsArePaged(page, e); }
  }

  lemma AddDescsLinks(s: State, page: nat, desc': map<nat, Desc>)
    requires Ok(s) && page > 0 && Extended(s.desc, desc', page, DESCS, s.spareHead)
    requires forall e :: e in DescAddrs(page, DESCS) ==> e !in s.desc
    ensures ChainsOk(AddDescs(s, page, desc'))
  {
    ChainsAre(s);
    hide Ok;
    forall b | 0 <= b < BUCKETS ensures Linked(desc', s.chains[b], s.heads[b]) {
      hide DescAddrs;
      LinkedSame(s.desc, desc', s.chains[b], s.heads[b]);
    }
    LinkedSame(s.desc, desc', s.spare, s.spareHead);
    SpareExtends(s.desc, desc', page, s.spare, s.spareHead);
  }

  lemma SpareExtends(desc: map<nat, Desc>, desc': map<nat, Desc>, page: nat, spare: seq<nat>, head: nat)
    requires Linked(desc, spare, head) && Linked(desc', spare, head) && page > 0
             && Extended(desc, desc', page, DESCS, head)
    requires forall e :: e in DescAddrs(page, DESCS) ==> e !in desc
    ensures Linked(desc', DescAddrs(page, DESCS) + spare, page)
  {
    AddrsAre(page);
    var a := DescAddrs(page, DESCS);
    hide DescAddrs, Distinct;
    forall i | 0 <= i < |a| ensures a[i] != 0 && a[i] !in spare {
      assert a[i] in a;
      forall j | 0 <= j < |spare| ensures spare[j] in desc { Member(desc, spare, head, j); }
    }
    hide Linked;
    Joined(desc', a, spare, head);
  }

  lemma AddrsAre(page: nat)
    requires page > 0
    ensures Distinct(DescAddrs(page, DESCS)) && DescAddrs(page, DESCS)[0] == page
    ensures forall k :: 0 <= k < DESCS ==> DescAddrs(page, DESCS)[k] != 0
  {
    hide DescAddrs;
  }

  lemma Joined(desc: map<nat, Desc>, a: seq<nat>, c: seq<nat>, head: nat)
    requires Linked(desc, c, head) && a != [] && Distinct(a)
    requires forall i :: 0 <= i < |a| ==> a[i] != 0 && a[i] !in c
    requires forall i :: 0 <= i < |a| ==> LinksOn(desc, a, i, head)
    ensures Linked(desc, a + c, a[0])
  {
    var r := a + c;
    forall i, j | 0 <= i < j < |r| ensures r[i] != r[j] {
      if i >= |a| { assert r[i] == c[i - |a|] && r[j] == c[j - |a|]; }
      else if j >= |a| { assert r[i] == a[i] && r[j] == c[j - |a|]; }
    }
    forall i | 0 <= i < |r| ensures r[i] != 0 && r[i] in desc && desc[r[i]].next == At(r, i + 1) {
      if i >= |a| { assert r[i] == c[i - |a|]; } else { assert r[i] == a[i] && LinksOn(desc, a, i, head); }
      if i + 1 < |r| { assert r[i + 1] == if i + 1 < |a| then a[i + 1] else c[i + 1 - |a|]; }
    }
  }

  /** s' has more spare descriptors than s, and is otherwise the same. */
  ghost predicate Grown(s: State, s': State) {
    && s'.slots == s.slots && s'.homes == s.homes && s'.chains == s.chains && s'.live == s.live && s'.mem == s.mem
    && (forall e :: e in s.desc ==> e in s'.desc && s'.desc[e] == s.desc[e])
    && (forall e :: e in s'.spare <==> e in s.spare || (e in s'.desc && e !in s.desc))
    && (forall e :: e in s'.desc && e !in s.desc ==> PageOf(e) !in s.homes)
  }

  lemma AddDescsGrow(s: State, page: nat, desc': map<nat, Desc>)
    requires Extended(s.desc, desc', page, DESCS, s.spareHead) && page !in s.homes
    requires forall e :: e in DescAddrs(page, DESCS) ==> e !in s.desc && PageOf(e) == page
    ensures Grown(s, AddDescs(s, page, desc'))
  {
    hide DescAddrs, PageOf;
  }

  lemma SortedGrown(s: State, s': State)
    requires Grown(s, s') && |s.chains| == BUCKETS && Sorted(s)
    ensures Sorted(s')
  {
    hide BucketOf, SizeOf, IsSize, PageOf;
  }

  lemma PagesGrown(s: State, s': State)
    requires Grown(s, s') && PagesOk(s)
    ensures PagesOk(s')
  {
    hide BucketOk, PageOf;
    assert Buckets(s');
    hide Buckets;
  }

  lemma LiveGrown(s: State, s': State)
    requires Grown(s, s') && LiveOk(s) && HomesOk(s)
    ensures LiveOk(s')
  {
    hide PageOf, IsSlot;
    forall o ensures IsLive(s', o) <==> IsLive(s, o) {
      if PageOf(o) in s.homes { assert s.homes[PageOf(o)] in s.slots && s.homes[PageOf(o)] in s.desc; }
    }
  }

  // ---------------------------------------------------------------- an object given back twice

  /** The heap before the first malloc. */
  function Unused(): State {
    State(map[], map[], seq(BUCKETS, _ => 0), 0, seq(BUCKETS, _ => []), [], map[], map[], map[])
  }

  lemma UnusedIsOk()
    ensures Ok(Unused())
  {
    hide PageOf, SizeOf, BucketOf;
  }

  /** init_bucket_desc on page 4096, when there are no descriptors yet. */
  function FirstDescs(): map<nat, Desc> {
    map a | a in DescAddrs(4096, DESCS) :: Desc(0, if a + DESC_SIZE < 8192 then a + DESC_SIZE else 0, 0, 0, 0)
  }

  lemma FirstDescsAre()
    ensures Extended(map[], FirstDescs(), 4096, DESCS, 0)
  {
    hide DescAddrs;
    var a := DescAddrs(4096, DESCS);
    forall k | 0 <= k < DESCS ensures LinksOn(FirstDescs(), a, k, 0) { assert a[k] in a; }
  }

  /** Page 8192 cut into two objects of 2048 bytes. */
  function Halves(): map<nat, Byte> {
    Store(Store(map[], 8192, 10240), 10240, 0)
  }

  lemma HalvesLoad()
    ensures Load(Halves(), 8192) == 10240 && Load(Halves(), 10240) == 0
  {
    hide Store, Load;
    var m := Store(map[], 8192, 10240);
    LoadStored(map[], 8192, 10240);
    LoadStored(m, 10240, 0);
    LoadElsewhere(m, 10240, 0, 8192);
  }

  lemma HalvesAre()
    ensures Threaded(map[], Halves(), 8192, SizeOf(7)) && Slots(8192, SizeOf(7), PerPage(SizeOf(7))) == [8192, 10240]
  {
    hide Store, Load, Peek, Slots;
    HalvesLoad();
    assert PerPage(2048) == 2 && Slot(8192, 2048, 0) == 8192 && Slot(8192, 2048, 1) == 10240;
    hide PerPage, Slot;
    var c := Slots(8192, 2048, 2);
    assert c[0] == 8192 && c[1] == 10240;
    assert Threads(Halves(), 8192, 2048, 0) && Threads(Halves(), 8192, 2048, 1);
    forall a | 0 <= a < 8192 || 12288 <= a ensures Peek(Halves(), a) == Peek(map[], a) {
      PeekElsewhere(map[], 8192, 10240, a);
      PeekElsewhere(Store(map[], 8192, 10240), 10240, 0, a);
    }
  }

  /** The heap with its first page of descriptors. */
  function Described(): State {
    AddDescs(Unused(), 4096, FirstDescs())
  }

  lemma PagesAreFresh()
    ensures FreshPage(Unused(), 4096) && FreshPage(Described(), 8192)
  {
    hide DescAddrs, PageOf;
    forall d | d in FirstDescs() ensures PageOf(d) != 8192 { DescsArePaged(4096, d); }
  }

  lemma DescribedIs()
    ensures var s := Described();
            && Ok(s) && |s.heads| == |s.chains| == BUCKETS && s.heads[7] == 0 && s.mem == map[] && s.live == map[]
            && s.spare != [] && s.spare[0] == 4096 && 4096 in s.desc && FreshPage(s, 8192)
  {
    hide Ok, DescAddrs, Extended, FreshPage, PageOf;
    UnusedIsOk();
    FirstDescsAre();
    PagesAreFresh();
    AddrsAre(4096);
    AddDescsKeeps(Unused(), 4096, FirstDescs());
    assert DescAddrs(4096, DESCS)[0] in DescAddrs(4096, DESCS);
  }

  /** A page of d with these free slots and this count. */
  ghost predicate HasPage(s: State, d: nat, free: seq<nat>, refcnt: nat) {
    d in s.slots && d in s.desc && s.slots[d] == free && s.desc[d] == Desc(8192, 0, At(free, 0), refcnt, 2048)
  }

  /** Then a page of objects of 2048 bytes. */
  function Paged(): State {
    hide Ok, Described, Halves, FreshPage;
    DescribedIs();
    AddBucket(Described(), 7, 8192, Halves())
  }

  lemma PagedIs()
    ensures Ok(Paged()) && HasPage(Paged(), 4096, [8192, 10240], 0) && Paged().mem == Halves() && Paged().live == map[]
  {
    hide Ok, Described, Halves, Slots, PerPage, FreshPage, Threaded;
    DescribedIs();
    HalvesAre();
    AddBucketKeeps(Described(), 7, 8192, Halves());
  }

  /** malloc(2000) with a free slot in the page. */
  lemma TakeFrom(s: State, free: seq<nat>, refcnt: nat)
    requires Ok(s) && HasPage(s, 4096, free, refcnt) && free != [] && Load(s.mem, free[0]) == At(free, 1)
    ensures var s' := Take(s, 4096, 2000);
            && Ok(s') && HasPage(s', 4096, free[1..], refcnt + 1) && s'.mem == s.mem
            && s'.live == s.live[free[0] := 2000]
  {
    hide Ok, Load;
    TakeKeeps(s, 4096, 2000);
  }

  /** Then two objects of it in use. */
  ghost predicate IsTwoObjects(s: State) {
    var p := Paged();
    HasPage(p, 4096, [8192, 10240], 0) && var s1 := Take(p, 4096, 2000);
    HasPage(s1, 4096, [10240], 1) && s == Take(s1, 4096, 2000)
  }

  lemma TwoObjects() returns (s: State)
    ensures IsTwoObjects(s) && Ok(s) && HasPage(s, 4096, [], 2) && s.live == map[8192 := 2000, 10240 := 2000]
  {
    hide Ok, Paged, Load, Halves, Take;
    PagedIs();
    HalvesLoad();
    TakeFrom(Paged(), [8192, 10240], 0);
    var s1 := Take(Paged(), 4096, 2000);
    assert [8192, 10240][1..] == [10240];
    TakeFrom(s1, [10240], 1);
    assert [10240][1..] == [];
    s := Take(s1, 4096, 2000);
  }

  /**
   * The page whose object at 8192 is given back twice: its chain has no end, and its count leaves
   * out a live object.
   */
  ghost predicate Corrupt(s: State) {
    && 4096 in s.desc && s.desc[4096].refcnt == 0 && s.desc[4096].freeptr == 8192 && Load(s.mem, 8192) == 8192
    && 10240 in s.live && !exists slots :: BucketOk(s.mem, s.desc[4096], slots)
  }

  lemma GiveAgain(s: State)
    requires Ok(s) && HasPage(s, 4096, [8192], 1) && 10240 in s.live
    ensures Corrupt(Give(s, 4096, 8192))
  {
    hide Ok, Store, Load, IsSlot, BucketOk;
    PageAt(s, 4096);
    var s' := Give(s, 4096, 8192);
    FreeTwiceBreaks(s.mem, s.desc[4096], s.slots[4096], 8192);
    LoadStored(s.mem, 8192, 8192);
    forall slots ensures !BucketOk(s'.mem, s'.desc[4096], slots) {
      assert !Chains(s.mem, s.desc[4096], 8192, slots);
    }
  }

  lemma FirstIsSlot()
    ensures IsSlot(8192, 2048, 8192)
  {
    assert Slot(8192, 2048, 0) == 8192;
  }

  /** Two objects are allocated on the new heap, and the first is given back twice. */
  lemma GivenTwice() returns (s: State)
    ensures IsTwoObjects(s) && Ok(s) && HasPage(s, 4096, [], 2) && Taken(s, 4096, 8192)
    ensures var s1 := Give(s, 4096, 8192);
            Ok(s1) && HasPage(s1, 4096, [8192], 1) && Corrupt(Give(s1, 4096, 8192))
  {
    hide IsTwoObjects, Store, Load, IsSlot, Ok, Corrupt;
    s := TwoObjects();
    FirstIsSlot();
    GiveKeeps(s, 4096, 8192);
    GiveAgain(Give(s, 4096, 8192));
  }
}
