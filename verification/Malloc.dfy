/** lib/malloc.c: bucket chains, free lists inside pages and counts, changed in place. */
module Malloc {
  import opened KernelHeap
  import opened HeapState
  import opened HeapMoves

  /** No descriptor of bucket b has a free object. */
  ghost predicate NoSpace(s: State, b: nat)
    requires b < |s.chains|
  {
    forall d :: d in s.chains[b] && d in s.slots ==> s.slots[d] == []
  }

  /** d is on the chain of bucket b, and no descriptor before it has a free object. */
  ghost predicate FirstWithSpace(s: State, b: nat, d: nat)
    requires b < |s.chains|
  {
    exists k :: 0 <= k < |s.chains[b]| && s.chains[b][k] == d
             && forall j :: 0 <= j < k ==> s.chains[b][j] in s.slots && s.slots[s.chains[b][j]] == []
  }

  /** The page of d has a free object of the given size. */
  ghost predicate HasSpace(s: State, d: nat, size: nat) {
    d in s.slots && d in s.desc && s.slots[d] != [] && s.desc[d].size == size
  }

  /** The first free object of the page of d, or 0. */
  ghost function FirstOf(s: State, d: nat): nat {
    if d in s.slots && s.slots[d] != [] then s.slots[d][0] else 0
  }

  /** o is the first free object of the first page of bucket b that has one. */
  ghost predicate FirstFit(s: State, b: nat, o: nat)
    requires b < |s.chains|
  {
    exists d :: FirstWithSpace(s, b, d) && d in s.slots && s.slots[d] != [] && o == FirstOf(s, d)
  }

  /** Every page but that of d has a live object. */
  ghost predicate TightBut(s: State, d: nat) {
    forall e :: e in s.slots && e in s.desc && e != d ==> s.desc[e].refcnt > 0
  }

  /** Every byte of every object of live is the same in both states. */
  ghost predicate Untouched(live: map<nat, nat>, mem: map<nat, Byte>, mem': map<nat, Byte>) {
    forall o :: o in live ==> SameBytes(mem, mem', o, live[o])
  }

  ghost predicate SameBytes(mem: map<nat, Byte>, mem': map<nat, Byte>, o: nat, len: nat) {
    forall a :: o <= a < o + len ==> Peek(mem', a) == Peek(mem, a)
  }

  class Heap {
    var mem: map<nat, Byte>
    var desc: map<nat, Desc>
    var heads: seq<nat>
    var freeDesc: nat
    ghost var chains: seq<seq<nat>>
    ghost var spare: seq<nat>
    ghost var slots: map<nat, seq<nat>>
    ghost var homes: map<nat, nat>
    ghost var live: map<nat, nat>

    ghost function Abs(): State
      reads this
    {
      State(mem, desc, heads, freeDesc, chains, spare, slots, homes, live)
    }

    ghost predicate Valid()
      reads this
    {
      Ok(Abs()) && Tight(Abs())
    }

    constructor ()
      ensures Valid() && live == map[]
    {
      mem, desc, freeDesc := map[], map[], 0;
      heads := [0, 0, 0, 0, 0, 0, 0, 0, 0];
      chains := [[], [], [], [], [], [], [], [], []];
      spare, slots, homes, live := [], map[], map[], map[];
    }

    /** The first size of bucket_dir that is large enough; BUCKETS if there is none. */
    method FindBucket(len: nat) returns (b: nat)
      ensures b <= BUCKETS && (b < BUCKETS ==> SizeOf(b) >= len)
      ensures forall j :: 0 <= j < b ==> SizeOf(j) < len
    {
      b := 0;
      while b < BUCKETS
        invariant b <= BUCKETS && forall j :: 0 <= j < b ==> SizeOf(j) < len
      {
        if SizeOf(b) >= len { return; }
        b := b + 1;
      }
    }

    /** A page of blank descriptors goes in front of the free list. */
    method InitBucketDesc(page: nat) returns (panicked: bool)
      requires Ok(Abs()) && (page == 0 || FreshPage(Abs(), page))
      modifies this`desc, this`freeDesc, this`spare
      ensures panicked <==> page == 0
      ensures !panicked ==>
                Ok(Abs()) && Abs() == AddDescs(old(Abs()), page, desc)
                && Extended(old(desc), desc, page, DESCS, old(freeDesc))
      ensures panicked ==> Abs() == old(Abs())
    {
      hide Ok, FreshPage, Extended, DescAddrs;
      if page == 0 { return true; }
      ghost var s := Abs();
      IsFresh(s, page);
      LayDescs(page);
      freeDesc := page;
      spare := DescAddrs(page, DESCS) + spare;
      AddDescsKeeps(s, page, desc);
      panicked := false;
    }

    /** The loop of init_bucket_desc, and the link of the last descriptor. */
    method LayDescs(page: nat)
      requires FreshPage(Abs(), page)
      modifies this`desc
      ensures Extended(old(desc), desc, page, DESCS, freeDesc)
    {
      var bdesc, i := page, DESCS;
      ghost var k := 0;
      hide FreshPage, Laid, Extended;
      Unlaid(desc, page);
      while i > 1
        invariant 1 <= i <= DESCS && k == DESCS - i && bdesc == page + DESC_SIZE * k
        invariant Laid(old(desc), desc, page, k, bdesc)
      {
        LaidMore(old(desc), desc, page, k, bdesc, bdesc + DESC_SIZE);
        desc := desc[bdesc := Desc(0, bdesc + DESC_SIZE, 0, 0, 0)];
        bdesc := bdesc + DESC_SIZE;
        i := i - 1;
        k := k + 1;
      }
      LaidLast(old(desc), desc, page, bdesc, freeDesc);
      desc := desc[bdesc := Desc(0, freeDesc, 0, 0, 0)];
    }

    /** The first descriptor of bucket b with a free object, or null. */
    method FindSpace(b: nat) returns (d: nat)
      requires Ok(Abs()) && b < BUCKETS
      ensures |chains| == BUCKETS && (d == 0 <==> NoSpace(Abs(), b))
      ensures d != 0 ==> HasSpace(Abs(), d, SizeOf(b)) && FirstWithSpace(Abs(), b, d)
    {
      hide Ok, SizeOf, Linked;
      ChainsAre(Abs());
      HeadIs(Abs(), b);
      d := heads[b];
      ghost var i := 0;
      while d != 0
        invariant 0 <= i <= |chains[b]| && d == At(chains[b], i)
        invariant forall j :: 0 <= j < i ==> chains[b][j] in slots && slots[chains[b][j]] == []
        decreases |chains[b]| - i
      {
        InChain(Abs(), b, d);
        FreeptrZero(Abs(), d);
        if desc[d].freeptr != 0 {
          assert chains[b][i] == d;
          return;
        }
        StepIs(Abs(), b, i);
        d := desc[d].next;
        i := i + 1;
      }
      HeadIs(Abs(), b);
      NonNull(Abs(), b, i);
    }

    /** Thread a free chain through a new page, from its first object to its last. */
    method Thread(page: nat, size: nat)
      requires IsSize(size) && page % PAGE_SIZE == 0 && 0 < page && page + PAGE_SIZE <= 0x1_0000_0000
      modifies this`mem
      ensures Threaded(old(mem), mem, page, size)
    {
      hide IsSize, ThreadedTo, Slot, PerPage, Store, Threaded;
      ghost var n := PerPage(size);
      Unthreaded(mem, page, size);
      var cp := page;
      var i := PAGE_SIZE / size;
      ghost var k := 0;
      while i > 1
        invariant 1 <= i <= n && k == n - i && cp == Slot(page, size, k) && ThreadedTo(old(mem), mem, page, size, k)
      {
        NextSlot(page, size, k);
        ThreadsOn(old(mem), mem, page, size, k);
        mem := Store(mem, cp, cp + size);
        cp := cp + size;
        i := i - 1;
        k := k + 1;
      }
      ThreadsLast(old(mem), mem, page, size);
      mem := Store(mem, cp, 0);
    }

    /** The first spare descriptor leaves the free list and is filled in. */
    method TakeDesc(size: nat, page: nat) returns (d: nat)
      requires freeDesc in desc
      modifies this`desc, this`freeDesc
      ensures d == old(freeDesc) && freeDesc == old(desc)[d].next
      ensures desc == old(desc)[d := Desc(page, old(desc)[d].next, page, 0, size)]
    {
      d := freeDesc;
      freeDesc := desc[d].next;
      desc := desc[d := desc[d].(refcnt := 0)];
      desc := desc[d := desc[d].(size := size)];
      desc := desc[d := desc[d].(page := page, freeptr := page)];
    }

    /** A spare descriptor takes a new page for bucket b. */
    method NewBucket(b: nat, page: nat) returns (d: nat)
      requires Ok(Abs()) && Tight(Abs()) && b < BUCKETS && spare != [] && FreshPage(Abs(), page)
      modifies this
      ensures Ok(Abs()) && TightBut(Abs(), d) && live == old(live) && Untouched(live, old(mem), mem)
      ensures HasSpace(Abs(), d, SizeOf(b)) && FirstOf(Abs(), d) == page
      ensures |old(chains)| == BUCKETS && chains == old(chains)[b := [d] + old(chains)[b]]
    {
      ghost var s := Abs();
      hide Ok, Tight, TightBut, HasSpace, Untouched, FreshPage, Threaded, SizeOf, Slots, PerPage;
      FirstSlot(page, b);
      FirstSpare(s);
      PageIs(s, page);
      d := TakeDesc(SizeOf(b), page);
      Thread(page, SizeOf(b));
      desc := desc[d := desc[d].(next := heads[b])];
      heads := heads[b := d];
      chains := chains[b := [d] + chains[b]];
      spare := spare[1..];
      slots := slots[d := Slots(page, SizeOf(b), PerPage(SizeOf(b)))];
      homes := homes[page := d];
      Staffing(s, b, page, Abs());
    }

    /**
     * malloc.  descPage and page are what get_free_page would return, if asked, for
     * descriptors and for objects; 0 means that memory has run out.
     */
    method Alloc(len: nat, descPage: nat, page: nat) returns (obj: nat, panicked: bool, ghost b: nat)
      requires Valid() && (descPage == 0 || FreshPage(Abs(), descPage)) && (page == 0 || FreshPage(Abs(), page))
      requires descPage == page ==> page == 0
      modifies this
      ensures b <= BUCKETS && (b == BUCKETS <==> len > PAGE_SIZE) && (b < BUCKETS ==> SizeOf(b) >= len) &&
              forall j :: 0 <= j < b ==> SizeOf(j) < len
      ensures |old(chains)| == BUCKETS
      ensures panicked <==>
                b == BUCKETS || (NoSpace(old(Abs()), b) && (page == 0 || (old(spare) == [] && descPage == 0)))
      ensures !panicked ==>
                Valid() && obj !in old(live) && live == old(live)[obj := len] && Untouched(old(live), old(mem), mem)
      ensures !panicked ==> IsLive(Abs(), obj) && Room(Abs(), obj) == SizeOf(b)
      ensures !panicked ==> if NoSpace(old(Abs()), b) then obj == page else FirstFit(old(Abs()), b, obj)
    {
      hide FirstFit, FirstOf, Room, IsLive;
      hide Ok, Tight, TightBut, HasSpace, Untouched, FreshPage, SizeOf, NoSpace, AddDescs;
      obj := 0;
      ghost var s := Abs();
      FirstFree(s);
      var bucket := FindBucket(len);
      b := bucket;
      Largest(len, b);
      if bucket == BUCKETS { return 0, true, b; }
      var d := FindSpace(bucket);
      if d != 0 { FitsFirst(s, bucket, d); }
      TightAnyway(s, d);
      NothingChanged(s);
      if d == 0 {
        if freeDesc == 0 {
          panicked := InitBucketDesc(descPage);
          if panicked { return; }
          SpareNow(s, descPage, desc, page);
        }
        if page == 0 { panicked := true; return; }
        d := NewBucket(bucket, page);
      }
      panicked := false;
      obj := TakeFirst(d, SizeOf(bucket), len);
    }

    /** The last lines of malloc: the first free object leaves the free chain. */
    method TakeFirst(d: nat, size: nat, len: nat) returns (obj: nat)
      requires Ok(Abs()) && TightBut(Abs(), d) && HasSpace(Abs(), d, size) && len <= size
      modifies this`desc, this`slots, this`live
      ensures Valid() && obj !in old(live) && live == old(live)[obj := len]
      ensures obj == FirstOf(old(Abs()), d) && IsLive(Abs(), obj) && Room(Abs(), obj) == size
    {
      hide Ok, Tight, TightBut, HasSpace, Room, IsLive, FirstOf;
      ghost var s := Abs();
      TakeIs(s, d, size, len);
      TakeRoom(s, d, size, len);
      obj := desc[d].freeptr;
      desc := desc[d := desc[d].(freeptr := Load(mem, obj))];
      desc := desc[d := desc[d].(refcnt := desc[d].refcnt + 1)];
      slots := slots[d := slots[d][1..]];
      live := live[obj := len];
      assert desc == s.desc[d := s.desc[d].(freeptr := Load(mem, obj), refcnt := s.desc[d].refcnt + 1)];
    }

    /** The inner loop of free_s: the descriptor of page on chain b, and the one before it. */
    method SearchChain(b: nat, page: nat) returns (d: nat, prev: nat, ghost i: nat)
      requires Ok(Abs()) && b < BUCKETS
      ensures |chains| == BUCKETS
      ensures d == 0 ==> forall j :: 0 <= j < |chains[b]| ==> chains[b][j] in desc && desc[chains[b][j]].page != page
      ensures d != 0 ==>
                i < |chains[b]| && chains[b][i] == d && d in desc && desc[d].page == page
                && prev == (if i > 0 then chains[b][i - 1] else 0)
    {
      hide Ok;
      HeadIs(Abs(), b);
      prev, d, i := 0, heads[b], 0;
      while d != 0
        invariant 0 <= i <= |chains[b]| && d == At(chains[b], i) && prev == (if i > 0 then chains[b][i - 1] else 0)
        invariant forall j :: 0 <= j < i ==> chains[b][j] in desc && desc[chains[b][j]].page != page
        decreases |chains[b]| - i
      {
        StepIs(Abs(), b, i);
        if desc[d].page == page { return; }
        prev := d;
        d := desc[d].next;
        i := i + 1;
      }
      NonNull(Abs(), b, i);
    }

    /** The outer loop of free_s: buckets too small for the given size are skipped. */
    method Search(page: nat, size: nat) returns (b: nat, d: nat, prev: nat, ghost i: nat)
      requires Ok(Abs())
      ensures |chains| == BUCKETS
      ensures d == 0 ==> forall c, j :: 0 <= c < BUCKETS && 0 <= j < |chains[c]| && SizeOf(c) >= size ==>
              chains[c][j] in desc && desc[chains[c][j]].page != page
      ensures d != 0 ==>
                && b < BUCKETS && SizeOf(b) >= size && i < |chains[b]| && chains[b][i] == d && d in desc
                && desc[d].page == page && prev == (if i > 0 then chains[b][i - 1] else 0)
    {
      hide Ok, SizeOf;
      FirstFree(Abs());
      b, d, prev, i := 0, 0, 0, 0;
      while b < BUCKETS
        invariant b <= BUCKETS && d == 0
        invariant forall c, j :: 0 <= c < b && 0 <= j < |chains[c]| && SizeOf(c) >= size ==>
                  chains[c][j] in desc && desc[chains[c][j]].page != page
      {
        if SizeOf(b) >= size {
          d, prev, i := SearchChain(b, page);
          if d != 0 { return; }
        }
        b := b + 1;
      }
    }

    /** Unlink an empty page's descriptor and put it on the free list. */
    method Unlink(b: nat, d: nat, prev: nat, ghost i: nat) returns (corrupted: bool)
      requires Ok(Abs()) && Droppable(Abs(), b, i) && chains[b][i] == d
               && prev == (if i > 0 then chains[b][i - 1] else 0)
      modifies this
      ensures !corrupted && Ok(Abs()) && mem == old(mem) && live == old(live) && slots == old(slots) - {d}
              && homes == old(homes) - {old(desc)[d].page}
      ensures forall e :: e in slots && e in desc ==> e in old(desc) && desc[e].refcnt == old(desc)[e].refcnt
    {
      ghost var s := Abs();
      hide Ok;
      UnlinkFacts(s, b, i);
      corrupted := false;
      if prev != 0 {
        desc := desc[prev := desc[prev].(next := desc[d].next)];
      } else {
        corrupted := heads[b] != d;
        heads := heads[b := desc[d].next];
      }
      desc := desc[d := desc[d].(next := freeDesc)];
      freeDesc := d;
      chains := chains[b := Cut(chains[b], i)];
      spare := [d] + spare;
      slots := slots - {d};
      homes := homes - {s.desc[d].page};
      assert Abs() == Drop(s, b, i);
    }

    /**
     * free_s.  The result is the page handed to free_page, or 0.  The caller passes a
     * live object, or an address of no page of objects, and then free_s panics.
     */
    method FreeS(obj: nat, size: nat) returns (freed: nat, panicked: bool)
      requires Valid() && (obj in live || PageOf(obj) !in homes)
      modifies this
      ensures panicked <==>
                PageOf(obj) !in old(homes)
                || (old(homes)[PageOf(obj)] in old(desc) && old(desc)[old(homes)[PageOf(obj)]].size < size)
      ensures !panicked ==> Valid() && live == old(live) - {obj} && Untouched(live, old(mem), mem)
      ensures !panicked ==> (freed != 0 <==> forall o :: o in live ==> PageOf(o) != PageOf(obj))
      ensures !panicked && freed != 0 ==> freed == PageOf(obj) && homes == old(homes) - {freed}
      ensures !panicked && freed == 0 ==>
                homes == old(homes) && PageOf(obj) in homes && FirstOf(Abs(), homes[PageOf(obj)]) == obj
    {
      ghost var s := Abs();
      hide Ok, Tight, TightBut, Untouched, Taken, SizeOf, Give, PageOf;
      freed := 0;
      var page := PageOf(obj);
      var b, d, prev, i := Search(page, size);
      SearchIs(s, obj, size, b, d, i);
      if d == 0 { return 0, true; }
      panicked := GiveBack(d, obj);
      ghost var s1 := Abs();
      PageEmpty(s1, d, page);
      if desc[d].refcnt == 0 {
        DropNow(s, s1, d, b, i);
        panicked := Unlink(b, d, prev, i);
        freed := page;
        DropTight(s1, Abs(), d);
      } else {
        AllTight(s1, d);
      }
    }

    /** The object goes on the free chain of its page. */
    method GiveBack(d: nat, obj: nat) returns (panicked: bool)
      requires Ok(Abs()) && Tight(Abs()) && Taken(Abs(), d, obj)
      modifies this`mem, this`desc, this`slots, this`live
      ensures !panicked && Ok(Abs()) && TightBut(Abs(), d) && live == old(live) - {obj}
              && Untouched(live, old(mem), mem)
      ensures FirstOf(Abs(), d) == obj && homes == old(homes)
      ensures d in desc && d in slots && d in old(desc) && desc.Keys == old(desc).Keys
              && slots.Keys == old(slots).Keys && desc[d].page == old(desc)[d].page
    {
      ghost var s := Abs();
      hide Ok, Tight, TightBut, Untouched, IsSlot, Store;
      GiveKeeps(s, d, obj);
      GiveUntouched(s, d, obj);
      GiveTight(s, d, obj);
      mem := Store(mem, obj, desc[d].freeptr);
      desc := desc[d := desc[d].(freeptr := obj)];
      desc := desc[d := desc[d].(refcnt := desc[d].refcnt - 1)];
      slots := slots[d := [obj] + slots[d]];
      live := live - {obj};
      assert desc == s.desc[d := s.desc[d].(freeptr := obj, refcnt := s.desc[d].refcnt - 1)];
      assert Abs() == Give(s, d, obj);
      panicked := false;
    }

    /** What the owner of an object stores in it does not disturb the heap. */
    method Poke(o: nat, i: nat, v: Byte)
      requires Valid() && o in live && i < live[o]
      modifies this`mem
      ensures Valid() && Peek(mem, o + i) == v && forall a :: a != o + i ==> Peek(mem, a) == Peek(old(mem), a)
    {
      hide Ok, Tight;
      PokeKeeps(Abs(), o, i, v);
      mem := mem[o + i := v];
    }
  }

  lemma FitsFirst(s: State, b: nat, d: nat)
    requires b < |s.chains| && b < BUCKETS && FirstWithSpace(s, b, d) && HasSpace(s, d, SizeOf(b))
    ensures FirstFit(s, b, FirstOf(s, d))
  {
    hide FirstWithSpace;
  }

  lemma FirstSlot(page: nat, b: nat)
    requires b < BUCKETS
    ensures var c := Slots(page, SizeOf(b), PerPage(SizeOf(b))); c != [] && c[0] == page
  {
    hide Slots;
    Exact(SizeOf(b));
    SlotsAre(page, SizeOf(b), PerPage(SizeOf(b)));
  }

  /** The object taken is the first that was free, and has the size of its bucket. */
  lemma TakeRoom(s: State, d: nat, size: nat, len: nat)
    requires Ok(s) && HasSpace(s, d, size) && len <= size
    ensures var o, s' := s.slots[d][0], Take(s, d, len);
            o == FirstOf(s, d) && IsLive(s', o) && Room(s', o) == size
  {
    hide Ok, IsSlot, PageOf, FreeChain;
    var o, s' := s.slots[d][0], Take(s, d, len);
    TakeKeeps(s, d, len);
    LiveAt(s', o);
    PageAt(s, d);
    FirstIsSlotOf(s, d);
    SlotInPage(s.desc[d].page, size, o);
  }

  lemma FirstIsSlotOf(s: State, d: nat)
    requires d in s.slots && d in s.desc && s.slots[d] != [] && BucketOk(s.mem, s.desc[d], s.slots[d])
    ensures IsSlot(s.desc[d].page, s.desc[d].size, s.slots[d][0])
  {
    hide IsSlot;
  }

  lemma UnlinkFacts(s: State, b: nat, i: nat)
    requires Ok(s) && Droppable(s, b, i)
    ensures Ok(Drop(s, b, i)) && Drop(s, b, i).live == s.live
    ensures i == 0 ==> s.heads[b] == s.chains[b][0]
    ensures i > 0 ==> s.chains[b][i - 1] != 0 && s.chains[b][i - 1] != s.chains[b][i]
    ensures forall e :: e in Drop(s, b, i).slots && e in Drop(s, b, i).desc ==>
            e in s.desc && Drop(s, b, i).desc[e].refcnt == s.desc[e].refcnt
  {
    hide Ok;
    DropKeeps(s, b, i);
    ChainsAre(s);
    assert Linked(s.desc, s.chains[b], s.heads[b]);
    DropRetires(s, b, i);
    if i > 0 { Apart(s.chains[b], i - 1, i); }
  }

  /** Where the search of free_s ends. */
  lemma SearchIs(s: State, obj: nat, size: nat, b: nat, d: nat, i: nat)
    requires Ok(s) && |s.chains| == BUCKETS && (obj in s.live || PageOf(obj) !in s.homes)
    requires d == 0 ==> forall c, j :: 0 <= c < BUCKETS && 0 <= j < |s.chains[c]| && SizeOf(c) >= size ==>
               s.chains[c][j] in s.desc && s.desc[s.chains[c][j]].page != PageOf(obj)
    requires d != 0 ==>
               b < BUCKETS && SizeOf(b) >= size && i < |s.chains[b]| && s.chains[b][i] == d && d in s.desc
               && s.desc[d].page == PageOf(obj)
    ensures d == 0 <==>
              PageOf(obj) !in s.homes || (s.homes[PageOf(obj)] in s.desc && s.desc[s.homes[PageOf(obj)]].size < size)
    ensures d != 0 ==> d in s.slots && Taken(s, d, obj) && PageOf(obj) > 0
    ensures d != 0 ==> PageOf(obj) in s.homes && s.homes[PageOf(obj)] == d
  {
    hide Ok, SizeOf, PageOf, IsSlot;
    if d != 0 {
      InChain(s, b, d);
      PageAt(s, d);
      LiveAt(s, obj);
    } else if PageOf(obj) in s.homes {
      var e := s.homes[PageOf(obj)];
      HomeIs(s, PageOf(obj));
      var c := BucketOf(s.desc[e].size);
      OneBucket(c, s.desc[e].size);
      var j :| 0 <= j < |s.chains[c]| && s.chains[c][j] == e;
    }
  }

  lemma HomeIs(s: State, page: nat)
    requires Ok(s) && page in s.homes && |s.chains| == BUCKETS
    ensures var e := s.homes[page];
            e in s.desc && e in s.slots && s.desc[e].page == page && IsSize(s.desc[e].size)
            && e in s.chains[BucketOf(s.desc[e].size)]
  {
    hide ChainsOk, LiveOk, BucketOk, PageOf, BucketOf, IsSize;
  }

  lemma GiveUntouched(s: State, d: nat, o: nat)
    requires Ok(s) && Taken(s, d, o) && s.desc[d].refcnt > 0 && s.desc[d].freeptr < 0x1_0000_0000
    ensures Untouched(s.live - {o}, s.mem, Give(s, d, o).mem)
  {
    hide Ok, IsSlot, Give, Peek;
    var mem' := Give(s, d, o).mem;
    forall p | p in s.live - {o} ensures SameBytes(s.mem, mem', p, (s.live - {o})[p]) {
      forall a | p <= a < p + s.live[p] ensures Peek(mem', a) == Peek(s.mem, a) { GiveSpares(s, d, o, p, a - p); }
    }
  }

  lemma GiveTight(s: State, d: nat, o: nat)
    requires Tight(s) && d in s.slots && d in s.desc && s.desc[d].refcnt > 0 && s.desc[d].freeptr < 0x1_0000_0000
    ensures TightBut(Give(s, d, o), d)
  {
    hide Store;
  }

  lemma AllTight(s: State, d: nat)
    requires TightBut(s, d) && d in s.desc && s.desc[d].refcnt > 0
    ensures Tight(s)
  {
  }

  lemma DropTight(s: State, s': State, d: nat)
    requires TightBut(s, d) && s'.slots == s.slots - {d} &&
             forall e :: e in s'.slots && e in s'.desc ==> e in s.desc && s'.desc[e].refcnt == s.desc[e].refcnt
    ensures Tight(s')
  {
  }

  lemma DropNow(s: State, s1: State, d: nat, b: nat, i: nat)
    requires Ok(s1) && s1.chains == s.chains && s1.desc.Keys == s.desc.Keys && |s.chains| == BUCKETS && b < BUCKETS
             && i < |s.chains[b]| && s.chains[b][i] == d
    requires d in s1.slots && d in s1.desc && s1.desc[d].refcnt == 0
    ensures Droppable(s1, b, i)
  {
    hide Ok;
    FirstFree(s1);
    forall j | 0 <= j < |s1.chains[b]| ensures s1.chains[b][j] in s1.desc { StepIs(s1, b, j); }
  }

  /** A page counts no object exactly when no live object lies in it. */
  lemma PageEmpty(s: State, d: nat, page: nat)
    requires Ok(s) && d in s.slots && d in s.desc && s.desc[d].page == page
    ensures s.desc[d].refcnt == 0 <==> forall o :: o in s.live ==> PageOf(o) != page
  {
    hide Ok, PageOf, IsSlot, Slot, PerPage;
    PageAt(s, d);
    RefcntCountsLive(s, d);
    if s.desc[d].refcnt == 0 {
      forall o | o in s.live ensures PageOf(o) != page {
        var e := LiveFits(s, o);
        EmptyHasNoLive(s, d, o);
        if PageOf(o) == page { OnePage(s, d, e); }
      }
    } else {
      assert LiveNumbers(s, d) != {};
      var k :| k in LiveNumbers(s, d);
      SlotIsLive(s, d, k);
      SlotInPage(page, s.desc[d].size, Slot(page, s.desc[d].size, k));
    }
  }

  lemma PokeKeeps(s: State, o: nat, i: nat, v: Byte)
    requires Ok(s) && Tight(s) && o in s.live && i < s.live[o]
    ensures Ok(s.(mem := s.mem[o + i := v])) && Tight(s.(mem := s.mem[o + i := v]))
  {
    var mem' := s.mem[o + i := v];
    hide ChainsOk, Sorted, HomesOk, LiveOk, Buckets;
    MemIsApart(s, mem');
    PokeBuckets(s, o, i, v);
  }

  lemma PokeBuckets(s: State, o: nat, i: nat, v: Byte)
    requires Ok(s) && o in s.live && i < s.live[o]
    ensures Buckets(s.(mem := s.mem[o + i := v]))
  {
    hide Ok, BucketOk;
    forall d | d in s.slots ensures d in s.desc && BucketOk(s.mem[o + i := v], s.desc[d],
        s.slots[d]) { PokeBucket(s, o, i, v, d); }
  }

  /** Everything but the free chains inside pages is independent of memory contents. */
  lemma MemIsApart(s: State, mem': map<nat, Byte>)
    ensures ChainsOk(s.(mem := mem')) == ChainsOk(s)
    ensures ChainsOk(s) ==> Sorted(s.(mem := mem')) == Sorted(s)
    ensures HomesOk(s.(mem := mem')) == HomesOk(s)
    ensures LiveOk(s) ==> LiveOk(s.(mem := mem'))
  {
    hide Linked, BucketOf, SizeOf, IsSize, PageOf, IsSlot;
    forall x ensures IsLive(s.(mem := mem'), x) == IsLive(s, x) {}
  }

  lemma PokeBucket(s: State, o: nat, i: nat, v: Byte, d: nat)
    requires Ok(s) && o in s.live && i < s.live[o] && d in s.slots
    ensures d in s.desc && BucketOk(s.mem[o + i := v], s.desc[d], s.slots[d])
  {
    hide Ok, IsSlot;
    PageAt(s, d);
    var mem' := s.mem[o + i := v];
    forall k | 0 <= k < |s.slots[d]| ensures Load(mem', s.slots[d][k]) == Load(s.mem, s.slots[d][k]) {
      FreeIsNotLive(s, d, k);
      FreeApart(s, d, s.slots[d][k], o);
    }
    BucketFrame(s.mem, mem', s.desc[d], s.slots[d]);
  }

  lemma FirstFree(s: State)
    requires Ok(s)
    ensures |s.chains| == |s.heads| == BUCKETS && (s.spareHead == 0 <==> s.spare == [])
  {
    ChainsAre(s);
    if s.spare != [] { LinkedTail(s.desc, s.spare, s.spareHead); }
  }

  lemma Largest(len: nat, b: nat)
    requires b <= BUCKETS && (b < BUCKETS ==> SizeOf(b) >= len) && forall j :: 0 <= j < b ==> SizeOf(j) < len
    ensures b == BUCKETS <==> len > PAGE_SIZE
  {
    if b == BUCKETS { assert SizeOf(8) < len; }
  }

  lemma TightAnyway(s: State, d: nat)
    requires Tight(s)
    ensures TightBut(s, d)
  {
  }

  lemma NothingChanged(s: State)
    ensures Untouched(s.live, s.mem, s.mem)
  {
  }

  /** New descriptors leave pages, objects and the other fresh page alone. */
  lemma SpareNow(s: State, descPage: nat, desc': map<nat, Desc>, page: nat)
    requires Ok(s) && Tight(s) && FreshPage(s, descPage) && Extended(s.desc, desc', descPage, DESCS, s.spareHead)
    requires page == 0 || FreshPage(s, page)
    requires page != descPage
    ensures var s' := AddDescs(s, descPage, desc');
            Tight(s') && s'.spare != [] && s'.live == s.live && s'.mem == s.mem && (page == 0 || FreshPage(s', page))
  {
    NewDescs(s, descPage);
    AddDescsGrow(s, descPage, desc');
    var s' := AddDescs(s, descPage, desc');
    assert |s'.spare| >= DESCS;
    hide Ok, DescAddrs, PageOf;
    forall d | d in s'.desc ensures page == 0 || PageOf(d) != page {
      if d !in s.desc { assert d in DescAddrs(descPage, DESCS); }
    }
    SlotsHaveDescs(s);
  }

  lemma SlotsHaveDescs(s: State)
    requires Ok(s)
    ensures forall d :: d in s.slots ==> d in s.desc
  {
    hide ChainsOk, Sorted, LiveOk, BucketOk, HomesOk;
  }

  lemma TakeIs(s: State, d: nat, size: nat, len: nat)
    requires Ok(s) && TightBut(s, d) && HasSpace(s, d, size) && len <= size
    ensures d in s.slots && d in s.desc && s.slots[d] != [] && s.desc[d].freeptr == s.slots[d][0]
            && s.slots[d][0] !in s.live
    ensures Ok(Take(s, d, len)) && Tight(Take(s, d, len)) && Take(s, d, len).live == s.live[s.desc[d].freeptr := len]
  {
    hide Ok, Load;
    FreeptrZero(s, d);
    TakeKeeps(s, d, len);
    TakeTight(s, d, len);
  }

  lemma TakeTight(s: State, d: nat, len: nat)
    requires TightBut(s, d) && d in s.slots && d in s.desc && s.slots[d] != []
    ensures Tight(Take(s, d, len))
  {
    hide Load;
  }

  lemma FirstSpare(s: State)
    requires Ok(s) && s.spare != []
    ensures |s.heads| == |s.chains| == BUCKETS && s.spareHead == s.spare[0] && s.spareHead in s.desc
  {
    ChainsAre(s);
    LinkedTail(s.desc, s.spare, s.spareHead);
  }

  lemma Staffing(s: State, b: nat, page: nat, s': State)
    requires Ok(s) && Tight(s) && b < BUCKETS && s.spare != [] && FreshPage(s, page) && s.spareHead == s.spare[0]
             && s.spareHead in s.desc
    requires |s.heads| == |s.chains| == BUCKETS && Threaded(s.mem, s'.mem, page, SizeOf(b))
    requires var d := s.spareHead;
             && s'.desc == s.desc[d := Desc(page, s.desc[d].next, page, 0, SizeOf(b))][d :=
                Desc(page, s.heads[b], page, 0, SizeOf(b))]
             && s'.spareHead == s.desc[d].next && s'.heads == s.heads[b := d]
                && s'.chains == s.chains[b := [d] + s.chains[b]] && s'.spare == s.spare[1..]
             && s'.slots == s.slots[d := Slots(page, SizeOf(b), PerPage(SizeOf(b)))] && s'.homes == s.homes[page := d]
                && s'.live == s.live
    ensures Ok(s') && TightBut(s', s.spareHead) && Untouched(s.live, s.mem, s'.mem)
            && HasSpace(s', s.spareHead, SizeOf(b))
  {
    hide Ok, Tight, FreshPage, Threaded, SizeOf, Slots, PerPage, TightBut, Untouched, HasSpace;
    assert s' == AddBucket(s, b, page, s'.mem);
    hide AddBucket;
    AddBucketKeeps(s, b, page, s'.mem);
    AddBucketTight(s, b, page, s'.mem);
    FreshUntouched(s, page, SizeOf(b), s'.mem);
  }

  lemma IsFresh(s: State, page: nat)
    requires FreshPage(s, page)
    ensures page > 0 && page !in s.homes
  {
  }

  /** The first k descriptors of the page are in place, each linked to the next. */
  ghost predicate Laid(desc: map<nat, Desc>, desc': map<nat, Desc>, page: nat, k: nat, at: nat) {
    && k <= DESCS && at == page + DESC_SIZE * k
    && (forall e :: e in desc' <==> e in desc || e in DescAddrs(page, k))
    && (forall e :: e in desc && e !in DescAddrs(page, k) ==> e in desc' && desc'[e] == desc[e])
    && (forall j :: 0 <= j < k ==> LinksOn(desc', DescAddrs(page, k), j, at))
  }

  lemma Unlaid(desc: map<nat, Desc>, page: nat)
    ensures Laid(desc, desc, page, 0, page)
  {
  }

  lemma LaidMore(desc: map<nat, Desc>, desc': map<nat, Desc>, page: nat, k: nat, at: nat, next: nat)
    requires Laid(desc, desc', page, k, at) && k < DESCS && next == page + DESC_SIZE * (k + 1)
    ensures Laid(desc, desc'[at := Desc(0, next, 0, 0, 0)], page, k + 1, next)
  {
    var desc2 := desc'[at := Desc(0, next, 0, 0, 0)];
    var a, a2 := DescAddrs(page, k), DescAddrs(page, k + 1);
    assert a2 == a + [at];
    Put(desc', at, Desc(0, next, 0, 0, 0));
    hide DescAddrs;
    forall e ensures e in a2 <==> e in a || e == at {}
    forall j | 0 <= j < k + 1 ensures LinksOn(desc2, a2, j, next) {
      if j < k { assert LinksOn(desc', a, j, at) && a2[j] == a[j]; }
    }
  }

  lemma LaidLast(desc: map<nat, Desc>, desc': map<nat, Desc>, page: nat, at: nat, last: nat)
    requires Laid(desc, desc', page, DESCS - 1, at)
    ensures Extended(desc, desc'[at := Desc(0, last, 0, 0, 0)], page, DESCS, last)
  {
    var k := DESCS - 1;
    var desc2 := desc'[at := Desc(0, last, 0, 0, 0)];
    var a, a2 := DescAddrs(page, k), DescAddrs(page, DESCS);
    assert a2 == a + [at];
    Put(desc', at, Desc(0, last, 0, 0, 0));
    hide DescAddrs;
    forall e ensures e in a2 <==> e in a || e == at {}
    forall j | 0 <= j < DESCS ensures LinksOn(desc2, a2, j, last) {
      if j < k { assert LinksOn(desc', a, j, at) && a2[j] == a[j]; }
    }
  }

  // ---------------------------------------------------------------- chains of descriptors

  lemma HeadIs(s: State, b: nat)
    requires Ok(s) && b < BUCKETS
    ensures |s.heads| == |s.chains| == BUCKETS && s.heads[b] == At(s.chains[b], 0)
  {
    hide Sorted, PagesOk, LiveOk;
    assert Linked(s.desc, s.chains[b], s.heads[b]);
  }

  lemma StepIs(s: State, b: nat, i: nat)
    requires Ok(s) && b < BUCKETS && |s.chains| == BUCKETS && i < |s.chains[b]|
    ensures s.chains[b][i] != 0 && s.chains[b][i] in s.desc && s.desc[s.chains[b][i]].next == At(s.chains[b], i + 1)
  {
    hide Sorted, PagesOk, LiveOk;
    assert Linked(s.desc, s.chains[b], s.heads[b]);
  }

  /** Only past the end of a chain is its place null. */
  lemma NonNull(s: State, b: nat, i: nat)
    requires Ok(s) && b < BUCKETS && |s.chains| == BUCKETS && At(s.chains[b], i) == 0
    ensures |s.chains[b]| <= i
  {
    hide Ok;
    if i < |s.chains[b]| { StepIs(s, b, i); }
  }

  /** The free pointer is null exactly when no object of the page is free. */
  lemma FreeptrZero(s: State, d: nat)
    requires Ok(s) && d in s.slots
    ensures d in s.desc && (s.desc[d].freeptr == 0 <==> s.slots[d] == [])
    ensures s.slots[d] != [] ==> s.desc[d].freeptr == s.slots[d][0]
  {
    hide Ok, IsSlot;
    PageAt(s, d);
    if s.slots[d] != [] { SlotInPage(s.desc[d].page, s.desc[d].size, s.slots[d][0]); }
  }

  // ---------------------------------------------------------------- threading a page

  /** The first k objects are linked, each to the next; nothing outside the page changed. */
  ghost predicate ThreadedTo(mem: map<nat, Byte>, mem': map<nat, Byte>, page: nat, size: nat, k: nat) {
    && k <= PerPage(size)
    && (forall j :: 0 <= j < k ==> Joins(mem', page, size, j))
    && (forall a :: 0 <= a < page || page + PAGE_SIZE <= a ==> Peek(mem', a) == Peek(mem, a))
  }

  ghost predicate Joins(mem: map<nat, Byte>, page: nat, size: nat, j: nat) {
    Load(mem, Slot(page, size, j)) == Slot(page, size, j + 1)
  }

  lemma Unthreaded(mem: map<nat, Byte>, page: nat, size: nat)
    requires IsSize(size)
    ensures ThreadedTo(mem, mem, page, size, 0) && Slot(page, size, 0) == page
            && PAGE_SIZE / size == PerPage(size) > 0 && size > 0
  {
    Exact(size);
    hide Peek;
  }

  lemma NextSlot(page: nat, size: nat, k: nat)
    requires IsSize(size) && page % PAGE_SIZE == 0 && page + PAGE_SIZE <= 0x1_0000_0000 && k + 1 < PerPage(size)
    ensures Slot(page, size, k) + size == Slot(page, size, k + 1) < 0x1_0000_0000
  {
    assert (k + 1) * size == k * size + size;
    assert IsSlot(page, size, Slot(page, size, k + 1));
    hide Slot;
    SlotInPage(page, size, Slot(page, size, k + 1));
  }

  /** A store at slot k of the page is seen at no other slot and nowhere outside. */
  lemma StoreAtSlot(mem: map<nat, Byte>, page: nat, size: nat, k: nat, v: Word)
    requires IsSize(size) && page % PAGE_SIZE == 0 && k < PerPage(size)
    ensures Load(Store(mem, Slot(page, size, k), v), Slot(page, size, k)) == v
    ensures forall j :: 0 <= j < PerPage(size) && j != k ==>
            Load(Store(mem, Slot(page, size, k), v), Slot(page, size, j)) == Load(mem, Slot(page, size, j))
    ensures forall a :: 0 <= a < page || page + PAGE_SIZE <= a ==>
            Peek(Store(mem, Slot(page, size, k), v), a) == Peek(mem, a)
  {
    hide Slot, Store, Load, PerPage, Peek;
    var at := Slot(page, size, k);
    assert IsSlot(page, size, at);
    LoadStored(mem, at, v);
    SlotInPage(page, size, at);
    forall j | 0 <= j < PerPage(size) && j != k ensures Load(Store(mem, at, v), Slot(page, size, j))
        == Load(mem, Slot(page, size, j)) {
      assert IsSlot(page, size, Slot(page, size, j));
      if Slot(page, size, j) == at { OneNumber(page, size, j, k); }
      SlotsApart(page, size, at, Slot(page, size, j));
      LoadElsewhere(mem, at, v, Slot(page, size, j));
    }
    forall a | 0 <= a < page || page + PAGE_SIZE <= a
        ensures Peek(Store(mem, at, v), a) == Peek(mem, a) { PeekElsewhere(mem, at, v, a); }
  }

  lemma ThreadsOn(mem: map<nat, Byte>, mem': map<nat, Byte>, page: nat, size: nat, k: nat)
    requires IsSize(size) && page % PAGE_SIZE == 0 && ThreadedTo(mem, mem', page, size, k) && k + 1 < PerPage(size)
             && Slot(page, size, k + 1) < 0x1_0000_0000
    ensures ThreadedTo(mem, Store(mem', Slot(page, size, k), Slot(page, size, k + 1)), page, size, k + 1)
  {
    hide IsSize, Slot, PerPage, Store, Load, Peek;
    StoreAtSlot(mem', page, size, k, Slot(page, size, k + 1));
    var m := Store(mem', Slot(page, size, k), Slot(page, size, k + 1));
    forall j | 0 <= j < k + 1 ensures Joins(m, page, size, j) {
      if j < k { assert Joins(mem', page, size, j); }
    }
  }

  lemma ThreadsLast(mem: map<nat, Byte>, mem': map<nat, Byte>, page: nat, size: nat)
    requires IsSize(size) && page % PAGE_SIZE == 0 && PerPage(size) > 0
             && ThreadedTo(mem, mem', page, size, PerPage(size) - 1)
    ensures Threaded(mem, Store(mem', Slot(page, size, PerPage(size) - 1), 0), page, size)
  {
    hide IsSize, Slot, PerPage, Store, Load, Peek;
    var n := PerPage(size);
    var m := Store(mem', Slot(page, size, n - 1), 0);
    StoreAtSlot(mem', page, size, n - 1, 0);
    forall k | 0 <= k < n ensures Threads(m, page, size, k) {
      if k < n - 1 { assert Joins(mem', page, size, k); }
    }
  }

  lemma AddBucketTight(s: State, b: nat, page: nat, mem': map<nat, Byte>)
    requires Ok(s) && Tight(s) && b < BUCKETS && s.spare != [] && |s.heads| == |s.chains| == BUCKETS
             && s.spare[0] in s.desc
    ensures TightBut(AddBucket(s, b, page, mem'), s.spare[0])
            && HasSpace(AddBucket(s, b, page, mem'), s.spare[0], SizeOf(b))
  {
    Exact(SizeOf(b));
    AddBucketStaffs(s, b, page, mem');
    hide Ok, SizeOf, Slots, PerPage;
  }

  lemma PageIs(s: State, page: nat)
    requires FreshPage(s, page)
    ensures page % PAGE_SIZE == 0 && 0 < page && page + PAGE_SIZE <= 0x1_0000_0000 && page !in s.homes
  {
  }

  /** No live object lies in a fresh page. */
  lemma FreshUntouched(s: State, page: nat, size: nat, mem': map<nat, Byte>)
    requires Ok(s) && FreshPage(s, page) && IsSize(size) && Threaded(s.mem, mem', page, size)
    ensures Untouched(s.live, s.mem, mem')
  {
    hide Ok, Peek, IsSlot, PageOf, IsSize, Threads, PerPage;
    forall o | o in s.live ensures SameBytes(s.mem, mem', o, s.live[o]) {
      var d := LiveFits(s, o);
      PageAt(s, d);
      if page < PageOf(o) { WholePages(page, PageOf(o)); } else { WholePages(PageOf(o), page); }
      BeforeEnd(o, s.desc[d].page);
    }
  }

  lemma BeforeEnd(o: nat, page: nat)
    requires PageOf(o) == page
    ensures page <= o
  {
  }
}
