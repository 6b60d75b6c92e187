/** The allocator as a value: descriptors on chains, free slots on chains inside pages. */
module HeapState {
  import opened KernelHeap

  datatype Desc = Desc(page: nat, next: nat, freeptr: nat, refcnt: nat, size: nat)

  /**
   * What malloc.c keeps (mem, desc, heads, spareHead) and what it means: the descriptors
   * on each bucket chain and on the free list, the free slots of each page in chain
   * order, the descriptor of each page, and the live objects with the length asked for.
   */
  datatype State = State(mem: map<nat, Byte>, desc: map<nat, Desc>, heads: seq<nat>, spareHead: nat,
                         chains: seq<seq<nat>>, spare: seq<nat>, slots: map<nat, seq<nat>>, homes: map<nat, nat>,
                             live: map<nat, nat>)

  function At(s: seq<nat>, i: nat): nat {
    if i < |s| then s[i] else 0
  }

  ghost predicate Distinct(s: seq<nat>) {
    forall i, j :: 0 <= i < j < |s| ==> s[i] != s[j]
  }

  ghost predicate Linked(desc: map<nat, Desc>, chain: seq<nat>, head: nat) {
    && Distinct(chain) && head == At(chain, 0)
    && forall i :: 0 <= i < |chain| ==> chain[i] != 0 && chain[i] in desc && desc[chain[i]].next == At(chain, i + 1)
  }

  /** The chain of free objects that runs through the page. */
  ghost predicate FreeChain(mem: map<nat, Byte>, d: Desc, slots: seq<nat>) {
    && Distinct(slots) && d.freeptr == At(slots, 0)
    && (forall i :: 0 <= i < |slots| ==> IsSlot(d.page, d.size, slots[i]))
    && forall i :: 0 <= i < |slots| ==> Load(mem, slots[i]) == At(slots, i + 1)
  }

  ghost predicate BucketOk(mem: map<nat, Byte>, d: Desc, slots: seq<nat>) {
    && d.page % PAGE_SIZE == 0 && 0 < d.page && d.page + PAGE_SIZE <= 0x1_0000_0000 && IsSize(d.size)
    && FreeChain(mem, d, slots) && d.refcnt + |slots| == PerPage(d.size)
  }

  function BucketOf(size: nat): (b: nat)
    requires IsSize(size)
    ensures b < BUCKETS
  {
    if size == 16 then 0 else if size == 32 then 1 else if size == 64 then 2 else if size == 128 then 3
        else if size == 256 then 4
    else if size == 512 then 5 else if size == 1024 then 6 else if size == 2048 then 7 else 8
  }

  lemma OneBucket(b: nat, size: nat)
    requires b < BUCKETS && IsSize(size)
    ensures BucketOf(size) < BUCKETS && SizeOf(BucketOf(size)) == size && (size == SizeOf(b) ==> BucketOf(size) == b)
  {
  }

  ghost predicate ChainsOk(s: State) {
    && |s.heads| == |s.chains| == BUCKETS
    && (forall b :: 0 <= b < BUCKETS ==> Linked(s.desc, s.chains[b], s.heads[b]))
    && Linked(s.desc, s.spare, s.spareHead)
  }

  /** Every descriptor is on exactly one chain: that of its size, or the free list. */
  ghost predicate Sorted(s: State)
    requires |s.chains| == BUCKETS
  {
    && (forall b, d :: 0 <= b < BUCKETS && d in s.chains[b] ==>
       d in s.slots && d in s.desc && s.desc[d].size == SizeOf(b))
    && (forall d :: d in s.slots ==> d in s.desc && IsSize(s.desc[d].size) && d in s.chains[BucketOf(s.desc[d].size)])
    && (forall d :: d in s.desc ==> d in s.slots || d in s.spare)
    && (forall d :: d in s.spare ==> d in s.desc && d !in s.slots)
  }

  ghost predicate Buckets(s: State) {
    forall d :: d in s.slots ==> d in s.desc && BucketOk(s.mem, s.desc[d], s.slots[d])
  }

  /** Each page of objects has one descriptor, and descriptors live in other pages. */
  ghost predicate HomesOk(s: State) {
    && (forall d :: d in s.slots && d in s.desc ==> s.desc[d].page in s.homes && s.homes[s.desc[d].page] == d)
    && (forall p :: p in s.homes ==> s.homes[p] in s.slots && s.homes[p] in s.desc && s.desc[s.homes[p]].page == p)
    && (forall d :: d in s.desc ==> PageOf(d) !in s.homes)
  }

  ghost predicate PagesOk(s: State) {
    Buckets(s) && HomesOk(s)
  }

  /** o is a slot of the page of d that is not on its free chain. */
  ghost predicate Taken(s: State, d: nat, o: nat) {
    d in s.slots && d in s.desc && IsSlot(s.desc[d].page, s.desc[d].size, o) && o !in s.slots[d]
  }

  ghost predicate IsLive(s: State, o: nat) {
    PageOf(o) in s.homes && Taken(s, s.homes[PageOf(o)], o)
  }

  /** The live objects are exactly the slots that are on no free chain. */
  ghost predicate LiveOk(s: State) {
    && (forall o :: o in s.live <==> IsLive(s, o))
    && (forall o :: o in s.live && IsLive(s, o) ==> s.live[o] <= s.desc[s.homes[PageOf(o)]].size)
  }

  ghost predicate Ok(s: State) {
    ChainsOk(s) && Sorted(s) && PagesOk(s) && LiveOk(s)
  }

  /** No page is kept without a live object. */
  ghost predicate Tight(s: State) {
    forall d :: d in s.slots && d in s.desc ==> s.desc[d].refcnt > 0
  }

  // ---------------------------------------------------------------- what Ok means for users of the heap

  /** Live objects lie inside one page, aligned to their bucket size, and hold what was asked for. */
  lemma LiveFits(s: State, o: nat) returns (d: nat)
    requires Ok(s) && o in s.live
    ensures Taken(s, d, o) && IsSize(s.desc[d].size) && s.live[o] <= s.desc[d].size && o % s.desc[d].size == 0
    ensures PageOf(o) == s.desc[d].page && o + s.desc[d].size <= PageOf(o) + PAGE_SIZE
            && s.desc[d].page % PAGE_SIZE == 0
  {
    LiveAt(s, o);
    hide Ok, IsSlot, PageOf;
    d := s.homes[PageOf(o)];
    PageAt(s, d);
    SlotInPage(s.desc[d].page, s.desc[d].size, o);
  }

  lemma LiveAt(s: State, o: nat)
    requires Ok(s) && o in s.live
    ensures IsLive(s, o) && s.live[o] <= s.desc[s.homes[PageOf(o)]].size
  {
    hide ChainsOk, Sorted, PagesOk, PageOf, Taken;
  }

  /** What PagesOk says of one page. */
  lemma PageAt(s: State, d: nat)
    requires Ok(s) && d in s.slots
    ensures d in s.desc && BucketOk(s.mem, s.desc[d], s.slots[d])
    ensures s.desc[d].page in s.homes && s.homes[s.desc[d].page] == d
  {
    hide ChainsOk, Sorted, LiveOk, FreeChain, PageOf, BucketOk;
  }

  lemma OnePage(s: State, d: nat, e: nat)
    requires Ok(s) && d in s.slots && e in s.slots && d in s.desc && e in s.desc && s.desc[d].page == s.desc[e].page
    ensures d == e
  {
    hide Ok, BucketOk;
    PageAt(s, d);
    PageAt(s, e);
  }

  /** The slot size of a live object, which is at least the length asked for. */
  ghost function Room(s: State, o: nat): nat
    requires IsLive(s, o)
  {
    s.desc[s.homes[PageOf(o)]].size
  }

  /** The slots of live objects do not overlap, whatever their sizes. */
  lemma LiveApart(s: State, o: nat, p: nat)
    requires Ok(s) && o in s.live && p in s.live && o != p
    ensures IsLive(s, o) && IsLive(s, p) && s.live[o] <= Room(s, o) && s.live[p] <= Room(s, p)
    ensures o + Room(s, o) <= p || p + Room(s, p) <= o
  {
    LiveAt(s, o);
    LiveAt(s, p);
    hide Ok, IsSlot, PageOf;
    var d := LiveFits(s, o);
    var e := LiveFits(s, p);
    PageAt(s, d);
    PageAt(s, e);
    if d == e {
      SlotsApart(s.desc[d].page, s.desc[d].size, o, p);
    } else {
      if s.desc[d].page == s.desc[e].page { OnePage(s, d, e); }
      PagesApart(s.desc[d].page, s.desc[d].size, o, s.desc[e].page, s.desc[e].size, p);
    }
  }

  /** A slot and a live object elsewhere do not overlap. */
  lemma FreeApart(s: State, d: nat, f: nat, o: nat)
    requires Ok(s) && d in s.slots && d in s.desc && IsSlot(s.desc[d].page, s.desc[d].size, f) && o in s.live && o != f
    ensures f + 4 <= o || o + s.live[o] <= f
  {
    hide Ok, IsSlot, PageOf, FreeChain;
    var e := LiveFits(s, o);
    PageAt(s, d);
    Exact(s.desc[d].size);
    if d == e {
      SlotsApart(s.desc[d].page, s.desc[d].size, o, f);
    } else {
      if s.desc[d].page == s.desc[e].page { OnePage(s, d, e); }
      PagesApart(s.desc[d].page, s.desc[d].size, f, s.desc[e].page, s.desc[e].size, o);
    }
  }

  // ---------------------------------------------------------------- counting

  /** The objects of one page, by slot number. */
  ghost function LiveNumbers(s: State, d: nat): set<nat>
    requires d in s.slots && d in s.desc && IsSize(s.desc[d].size)
  {
    set k | 0 <= k < PerPage(s.desc[d].size) && Slot(s.desc[d].page, s.desc[d].size, k) in s.live
  }

  function Upto(n: nat): (r: set<nat>)
    ensures |r| == n && forall k: nat :: k in r <==> k < n
  {
    if n == 0 then {} else Upto(n - 1) + {n - 1}
  }

  ghost function NumberOf(page: nat, size: nat, o: nat): (k: nat)
    requires IsSlot(page, size, o)
    ensures k < PerPage(size) && o == Slot(page, size, k)
  {
    var k :| 0 <= k < PerPage(size) && o == Slot(page, size, k);
    k
  }

  lemma SlotsRise(page: nat, size: nat, i: nat, j: nat)
    requires IsSize(size) && i < j
    ensures Slot(page, size, i) < Slot(page, size, j)
  {
    Times(i + 1, j, size);
    assert (i + 1) * size == i * size + size;
  }

  lemma OneNumber(page: nat, size: nat, i: nat, j: nat)
    requires IsSize(size) && Slot(page, size, i) == Slot(page, size, j)
    ensures i == j
  {
    hide Slot;
    if i < j { SlotsRise(page, size, i, j); }
    if j < i { SlotsRise(page, size, j, i); }
  }

  ghost function Numbers(page: nat, size: nat, slots: seq<nat>): set<nat>
    requires forall i :: 0 <= i < |slots| ==> IsSlot(page, size, slots[i])
  {
    if slots == [] then {} else Numbers(page, size, slots[..|slots| - 1]) + {NumberOf(page, size, slots[|slots| - 1])}
  }

  lemma {:induction false} NumbersAre(page: nat, size: nat, slots: seq<nat>, k: nat)
    requires IsSize(size) && forall i :: 0 <= i < |slots| ==> IsSlot(page, size, slots[i])
    ensures k in Numbers(page, size, slots) <==> k < PerPage(size) && Slot(page, size, k) in slots
  {
    hide IsSlot, Slot;
    if slots != [] {
      var front, last := slots[..|slots| - 1], slots[|slots| - 1];
      NumbersAre(page, size, front, k);
      if Slot(page, size, k) == last { OneNumber(page, size, k, NumberOf(page, size, last)); }
      assert Slot(page, size, k) in slots <==> Slot(page, size, k) in front || Slot(page, size, k) == last;
    }
  }

  lemma {:induction false} NumbersCount(page: nat, size: nat, slots: seq<nat>)
    requires IsSize(size) && Distinct(slots) && forall i :: 0 <= i < |slots| ==> IsSlot(page, size, slots[i])
    ensures |Numbers(page, size, slots)| == |slots|
  {
    hide IsSlot, Slot;
    if slots != [] {
      var front, last := slots[..|slots| - 1], slots[|slots| - 1];
      NumbersCount(page, size, front);
      NumbersAre(page, size, front, NumberOf(page, size, last));
    }
  }

  /** refcnt is the number of live objects in the page. */
  lemma RefcntCountsLive(s: State, d: nat)
    requires Ok(s) && d in s.slots
    ensures d in s.desc && IsSize(s.desc[d].size) && s.desc[d].refcnt == |LiveNumbers(s, d)|
  {
    hide Ok, Slot, IsSlot, LiveNumbers, Numbers;
    PageAt(s, d);
    var page, size := s.desc[d].page, s.desc[d].size;
    var n := PerPage(size);
    var free, live := Numbers(page, size, s.slots[d]), LiveNumbers(s, d);
    NumbersCount(page, size, s.slots[d]);
    forall k: nat ensures (k in free || k in live <==> k < n) && !(k in free && k in live) { LiveOrFree(s, d, k); }
    Parts(free, live, n);
  }

  lemma LiveOrFree(s: State, d: nat, k: nat)
    requires Ok(s) && d in s.slots && d in s.desc && BucketOk(s.mem, s.desc[d], s.slots[d])
    ensures var free, live := Numbers(s.desc[d].page, s.desc[d].size, s.slots[d]), LiveNumbers(s, d);
            (k in free || k in live <==> k < PerPage(s.desc[d].size)) && !(k in free && k in live)
  {
    hide Ok, Slot, IsSlot, Numbers;
    NumbersAre(s.desc[d].page, s.desc[d].size, s.slots[d], k);
    if k < PerPage(s.desc[d].size) { SlotIsLive(s, d, k); }
  }

  lemma Parts(a: set<nat>, b: set<nat>, n: nat)
    requires forall k: nat :: (k in a || k in b <==> k < n) && !(k in a && k in b)
    ensures |a| + |b| == n
  {
    assert Upto(n) == a + b && a * b == {};
  }

  lemma SlotIsLive(s: State, d: nat, k: nat)
    requires Ok(s) && d in s.slots && d in s.desc && IsSize(s.desc[d].size) && k < PerPage(s.desc[d].size)
    ensures var o := Slot(s.desc[d].page, s.desc[d].size, k);
            IsSlot(s.desc[d].page, s.desc[d].size, o) && (o in s.live <==> o !in s.slots[d])
  {
    hide Slot, Ok, PageOf;
    var o := Slot(s.desc[d].page, s.desc[d].size, k);
    PageAt(s, d);
    if o !in s.slots[d] { assert Taken(s, d, o); TakenIsLive(s, d, o); }
    if o in s.live {
      var e := LiveFits(s, o);
      SlotInPage(s.desc[d].page, s.desc[d].size, o);
      OnePage(s, d, e);
    }
  }

  lemma TakenIsLive(s: State, d: nat, o: nat)
    requires Ok(s) && Taken(s, d, o)
    ensures o in s.live
  {
    PageAt(s, d);
    hide ChainsOk, Sorted, PagesOk, IsSlot, PageOf;
    SlotInPage(s.desc[d].page, s.desc[d].size, o);
    assert IsLive(s, o);
  }

  lemma EmptyHasNoLive(s: State, d: nat, o: nat)
    requires Ok(s) && d in s.slots && d in s.desc && s.desc[d].refcnt == 0
    ensures !Taken(s, d, o)
  {
    hide Slot, Ok;
    RefcntCountsLive(s, d);
    if IsSlot(s.desc[d].page, s.desc[d].size, o) {
      var k := NumberOf(s.desc[d].page, s.desc[d].size, o);
      assert k !in LiveNumbers(s, d);
      SlotIsLive(s, d, k);
    }
  }

  // ---------------------------------------------------------------- taking a slot

  /** The end of malloc: the first free slot of d becomes an object of the given length. */
  function Take(s: State, d: nat, len: nat): State
    requires d in s.slots && d in s.desc && s.slots[d] != []
  {
    var o := s.slots[d][0];
    s.(desc := s.desc[d := s.desc[d].(freeptr := Load(s.mem, o), refcnt := s.desc[d].refcnt + 1)],
       slots := s.slots[d := s.slots[d][1..]], live := s.live[o := len])
  }

  lemma TakeKeeps(s: State, d: nat, len: nat)
    requires Ok(s) && d in s.slots && d in s.desc && s.slots[d] != [] && len <= s.desc[d].size
    ensures Ok(Take(s, d, len)) && s.slots[d][0] !in s.live
  {
    FreeIsNotLive(s, d, 0);
    PageAt(s, d);
    hide ChainsOk, Sorted, PagesOk, LiveOk, Take, BucketOk;
    TakeLinks(s, d, len);
    TakePages(s, d, len);
    TakeLive(s, d, len);
  }

  lemma TakeLinks(s: State, d: nat, len: nat)
    requires ChainsOk(s) && Sorted(s) && d in s.slots && d in s.desc && s.slots[d] != []
    ensures ChainsOk(Take(s, d, len)) && Sorted(Take(s, d, len))
  {
    hide ChainsOk, Sorted;
    SameLinks(s, Take(s, d, len));
  }

  lemma FreeIsNotLive(s: State, d: nat, i: nat)
    requires Ok(s) && d in s.slots && d in s.desc && i < |s.slots[d]|
    ensures s.slots[d][i] !in s.live
  {
    hide Ok, Slot;
    var o := s.slots[d][i];
    PageAt(s, d);
    SlotIsLive(s, d, NumberOf(s.desc[d].page, s.desc[d].size, o));
  }

  lemma TakeBucket(mem: map<nat, Byte>, d: Desc, slots: seq<nat>)
    requires BucketOk(mem, d, slots) && slots != []
    ensures BucketOk(mem, d.(freeptr := Load(mem, slots[0]), refcnt := d.refcnt + 1), slots[1..])
  {
    hide IsSlot, Load;
  }

  lemma HomesSame(s: State, s': State)
    requires HomesOk(s) && s'.homes == s.homes && s'.slots.Keys == s.slots.Keys && s'.desc.Keys == s.desc.Keys
    requires forall e :: e in s.desc ==> s'.desc[e].page == s.desc[e].page
    ensures HomesOk(s')
  {
    hide PageOf;
  }

  lemma TakeBuckets(s: State, d: nat, len: nat)
    requires Buckets(s) && d in s.slots && d in s.desc && s.slots[d] != []
    ensures Buckets(Take(s, d, len))
  {
    hide BucketOk, Load;
    TakeBucket(s.mem, s.desc[d], s.slots[d]);
  }

  lemma TakePages(s: State, d: nat, len: nat)
    requires PagesOk(s) && d in s.slots && d in s.desc && s.slots[d] != []
    ensures PagesOk(Take(s, d, len))
  {
    hide Buckets, HomesOk, Load;
    TakeBuckets(s, d, len);
    HomesSame(s, Take(s, d, len));
  }

  lemma TakeLive(s: State, d: nat, len: nat)
    requires LiveOk(s) && d in s.slots && d in s.desc && s.slots[d] != [] && len <= s.desc[d].size
             && BucketOk(s.mem, s.desc[d], s.slots[d])
    requires s.desc[d].page in s.homes && s.homes[s.desc[d].page] == d
    ensures LiveOk(Take(s, d, len))
  {
    var o, s' := s.slots[d][0], Take(s, d, len);
    SlotInPage(s.desc[d].page, s.desc[d].size, o);
    TailOf(s.slots[d]);
    hide IsSlot, Distinct, PageOf, Load;
    forall x ensures IsLive(s', x) <==> IsLive(s, x) || x == o {}
  }

  lemma TailOf(s: seq<nat>)
    requires s != [] && Distinct(s)
    ensures forall x :: x in s[1..] <==> x in s && x != s[0]
  {
    forall x | x in s && x != s[0] ensures x in s[1..] {
      var i :| 0 <= i < |s| && s[i] == x;
      assert s[1..][i - 1] == x;
    }
  }

  lemma LinkedSame(desc: map<nat, Desc>, desc': map<nat, Desc>, chain: seq<nat>, head: nat)
    requires Linked(desc, chain, head) && forall i :: 0 <= i < |chain| ==>
             chain[i] in desc' && (chain[i] in desc ==> desc'[chain[i]].next == desc[chain[i]].next)
    ensures Linked(desc', chain, head)
  {
  }

  /** Chains are kept when only counts and free slots change. */
  lemma SameLinks(s: State, s': State)
    requires ChainsOk(s) && Sorted(s)
    requires s'.heads == s.heads && s'.spareHead == s.spareHead && s'.chains == s.chains && s'.spare == s.spare
    requires s'.desc.Keys == s.desc.Keys && s'.slots.Keys == s.slots.Keys
    requires forall e :: e in s.desc ==> s'.desc[e].next == s.desc[e].next && s'.desc[e].size == s.desc[e].size
    ensures ChainsOk(s') && Sorted(s')
  {
    hide BucketOf, SizeOf, IsSize, Linked;
    assert Sorted(s');
    hide Sorted;
    forall b | 0 <= b < BUCKETS ensures Linked(s'.desc, s'.chains[b], s'.heads[b]) {
      assert Linked(s.desc, s.chains[b], s.heads[b]);
      LinkedSame(s.desc, s'.desc, s.chains[b], s.heads[b]);
    }
    LinkedSame(s.desc, s'.desc, s.spare, s.spareHead);
  }
}
