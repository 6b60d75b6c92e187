/** buffer.c itself: buffer heads in an array, linked by index, changed in place. */
module BufferHeads {
  import opened BufferCache
  import opened BufferQueues

  const BLOCK_SIZE: int := 1024
  /** sizeof(struct buffer_head). */
  const HEAD_SIZE: int := 36

  /** Where buffer_init starts handing out blocks from. */
  function Top(bufferEnd: int): int {
    if bufferEnd == 0x100000 then 640 * 1024 else bufferEnd
  }

  /** The address of the i-th block: downwards from the top, jumping the adapter hole. */
  function Place(bufferEnd: int, i: nat): int {
    if i == 0 then Top(bufferEnd) - BLOCK_SIZE
    else (if Place(bufferEnd, i - 1) == 0x100000 then 0xA0000 else Place(bufferEnd, i - 1)) - BLOCK_SIZE
  }

  /** Blocks are in falling order without overlap, whole blocks apart, and clear of the hole. */
  lemma {:induction false} PlacesApart(bufferEnd: int, i: nat)
    requires bufferEnd % BLOCK_SIZE == 0 && (bufferEnd <= 0xA0000 || bufferEnd >= 0x100000)
    ensures Place(bufferEnd, i) + BLOCK_SIZE <= bufferEnd && Place(bufferEnd, i) % BLOCK_SIZE == 0
    ensures Place(bufferEnd, i) + BLOCK_SIZE <= 0xA0000 || 0x100000 <= Place(bufferEnd, i)
    ensures i > 0 ==> Place(bufferEnd, i) + BLOCK_SIZE <= Place(bufferEnd, i - 1)
  {
    if i > 0 { PlacesApart(bufferEnd, i - 1); }
  }

  lemma {:induction false} PlacesFall(bufferEnd: int, i: nat, j: nat)
    requires bufferEnd % BLOCK_SIZE == 0 && (bufferEnd <= 0xA0000 || bufferEnd >= 0x100000) && i < j
    ensures Place(bufferEnd, j) + BLOCK_SIZE <= Place(bufferEnd, i)
  {
    PlacesApart(bufferEnd, j);
    if i < j - 1 { PlacesFall(bufferEnd, i, j - 1); }
  }

  function Places(bufferEnd: int, n: nat): (s: seq<int>)
    ensures |s| == n && forall i :: 0 <= i < n ==> s[i] == Place(bufferEnd, i)
  {
    if n == 0 then [] else Places(bufferEnd, n - 1) + [Place(bufferEnd, n - 1)]
  }

  function UpTo(n: nat): (s: seq<nat>)
    ensures |s| == n && forall i :: 0 <= i < n ==> s[i] == i
  {
    if n == 0 then [] else UpTo(n - 1) + [n - 1]
  }

  function From(first: int, n: nat): (s: seq<int>)
    ensures |s| == n && forall i :: 0 <= i < n ==> s[i] == first + i
  {
    if n == 0 then [] else From(first, n - 1) + [first + n - 1]
  }

  function Fill<T>(v: T, n: nat): (s: seq<T>)
    ensures |s| == n && forall i :: 0 <= i < n ==> s[i] == v
  {
    if n == 0 then [] else Fill(v, n - 1) + [v]
  }

  const BLANK := Buffer(0, 0, 0, false, false, false)

  /** Every block given out lies above the whole table of heads. */
  lemma PlacesClear(start: nat, bufferEnd: int, n: nat)
    requires bufferEnd % BLOCK_SIZE == 0 && (bufferEnd <= 0xA0000 || bufferEnd >= 0x100000)
    requires n > 0 && Place(bufferEnd, n - 1) >= start + HEAD_SIZE * n
    ensures forall b :: 0 <= b < n ==> start + HEAD_SIZE * n <= Places(bufferEnd, n)[b]
  {
    forall b | 0 <= b < n ensures start + HEAD_SIZE * n <= Places(bufferEnd, n)[b] {
      if b < n - 1 { PlacesFall(bufferEnd, b, n - 1); }
    }
  }

  /** The links buffer_init leaves: one ring in address order and empty chains. */
  lemma InitialRing(n: nat)
    requires n > 0
    ensures RingLinked(From(1, n)[n - 1 := 0], From(-1, n)[0 := n - 1], 0, UpTo(n), n, NIL)
  {
  }

  lemma InitialChains(n: nat)
    ensures ChainsOk(Fill(BLANK, n), Fill(NIL, n), Fill(NIL, n), Fill(NIL, NR_HASH), Fill([], NR_HASH), NIL)
  {
    hide Hash;
  }

  lemma LabelsDecide(bufs: seq<Buffer>, bufs': seq<Buffer>, next: seq<int>, prev: seq<int>, hash: seq<int>,
                     chains: seq<seq<nat>>, out: int)
    requires ChainsOk(bufs, next, prev, hash, chains, out) && |bufs'| == |bufs|
    requires forall b :: 0 <= b < |bufs| && b != out ==> bufs'[b].dev == bufs[b].dev && bufs'[b].block == bufs[b].block
    ensures ChainsOk(bufs', next, prev, hash, chains, out)
  {
    hide Hash, ChainLinks, NoDup;
    forall h | 0 <= h < NR_HASH ensures ChainMembers(bufs', chains[h], h, out) {
      assert ChainMembers(bufs, chains[h], h, out);
    }
  }

  /** insert_into_queues finds the chain of this label empty. */
  ghost predicate Strays(dev: U16, block: U32, hash: seq<int>)
    requires |hash| == NR_HASH
  {
    dev != 0 && hash[Hash(dev, block)] == NIL
  }

  /** No other buffer with a device is on the chain of this label. */
  ghost predicate Alone(bufs: seq<Buffer>, bh: nat, dev: U16, block: U32) {
    forall b :: 0 <= b < |bufs| && b != bh && bufs[b].dev != 0 ==> Hash(bufs[b].dev, bufs[b].block) != Hash(dev, block)
  }

  /** b goes to the front of the chain of its label, if it has a device. */
  ghost predicate First(chains: seq<seq<nat>>, head: Buffer, b: nat, chains': seq<seq<nat>>)
    requires |chains| == NR_HASH
  {
    var h := Hash(head.dev, head.block);
    chains' == if head.dev == 0 then chains else chains[h := [b] + chains[h]]
  }

  lemma ChainSizes(bufs: seq<Buffer>, next: seq<int>, prev: seq<int>, hash: seq<int>, chains: seq<seq<nat>>, out: int)
    requires ChainsOk(bufs, next, prev, hash, chains, out)
    ensures |next| == |prev| == |bufs| && |hash| == |chains| == NR_HASH
  {
  }

  lemma EmptyIff(was: seq<Buffer>, bufs: seq<Buffer>, next: seq<int>, prev: seq<int>, hash: seq<int>,
                 chains: seq<seq<nat>>,
                 bh: nat, dev: U16, block: U32)
    requires ChainsOk(bufs, next, prev, hash, chains, bh) && bh < |bufs| == |was|
    requires forall b :: 0 <= b < |bufs| && b != bh ==> bufs[b] == was[b]
    ensures |hash| == NR_HASH && (hash[Hash(dev, block)] == NIL <==> Alone(was, bh, dev, block))
  {
    hide Hash, NoDup;
    var h := Hash(dev, block);
    assert ChainLinks(next, prev, chains[h], hash[h]) && ChainMembers(bufs, chains[h], h, bh);
    if chains[h] != [] { assert bufs[chains[h][0]] == was[chains[h][0]]; }
  }

  class Buffers {
    var bufs: seq<Buffer>
    var data: seq<int>
    var next: seq<int>
    var prev: seq<int>
    var nextFree: seq<int>
    var prevFree: seq<int>
    var hash: seq<int>
    var freeList: int
    /** What was stored through a null b_next, in order: into the word at address 20, which is part of no head. */
    var outside: seq<int>
    ghost var ring: seq<nat>
    ghost var chains: seq<seq<nat>>

    /** All queues are in order, apart from buffer out, which is on none of them. */
    ghost predicate Linked(out: int)
      reads this
    {
      |bufs| > 0 && |data| == |bufs| &&
      ChainsOk(bufs, next, prev, hash, chains, out) && RingLinked(nextFree, prevFree, freeList, ring, |bufs|, out)
    }

    ghost predicate Valid()
      reads this
    {
      Linked(NIL)
    }

    ghost function Abs(): Cache
      reads this
    {
      Cache(bufs, ring)
    }

    constructor Init(start: nat, bufferEnd: int)
      requires bufferEnd % BLOCK_SIZE == 0 && (bufferEnd <= 0xA0000 || bufferEnd >= 0x100000)
      requires Top(bufferEnd) - BLOCK_SIZE >= start + HEAD_SIZE
      ensures Valid() && Unique(bufs) && RingOk(Abs()) && ring == UpTo(|bufs|) && outside == []
      ensures forall b :: 0 <= b < |bufs| ==> bufs[b] == BLANK
      ensures forall b :: 0 <= b < |bufs| ==> data[b] == Place(bufferEnd, b) && start + HEAD_SIZE * |bufs| <= data[b]
      ensures Place(bufferEnd, |bufs|) < start + HEAD_SIZE * (|bufs| + 1)
    {
      bufs, data, next, prev, nextFree, prevFree := [], [], [], [], [], [];
      hash, freeList, ring, chains, outside := [], 0, [], [], [];
      new;
      var n := LayHeads(start, bufferEnd);
      CloseRing(n);
      hide *;
      PlacesClear(start, bufferEnd, n);
    }

    /** The first and last head are joined, and the hash table starts empty. */
    method CloseRing(n: nat)
      requires n > 0 && bufs == Fill(BLANK, n) && |data| == n && next == Fill(NIL, n) && prev == Fill(NIL, n)
      requires nextFree == From(1, n) && prevFree == From(-1, n)
      modifies this`freeList, this`prevFree, this`nextFree, this`hash, this`chains, this`ring
      ensures Valid() && Unique(bufs) && RingOk(Abs()) && ring == UpTo(n)
    {
      hide *;
      freeList := 0;
      prevFree := prevFree[freeList := n - 1];
      nextFree := nextFree[n - 1 := freeList];
      hash := Fill(NIL, NR_HASH);
      chains := Fill([], NR_HASH);
      ring := UpTo(n);
      Initially(n);
    }

    /** One buffer head at a time from below, one block at a time from above, until they meet. */
    method LayHeads(start: nat, bufferEnd: int) returns (n: nat)
      requires bufferEnd % BLOCK_SIZE == 0 && (bufferEnd <= 0xA0000 || bufferEnd >= 0x100000)
      requires Top(bufferEnd) - BLOCK_SIZE >= start + HEAD_SIZE
      requires bufs == [] && data == [] && next == [] && prev == [] && nextFree == [] && prevFree == []
      modifies this`bufs, this`data, this`next, this`prev, this`nextFree, this`prevFree
      ensures bufs == Fill(BLANK, n) && data == Places(bufferEnd, n) && next == Fill(NIL, n) && prev == Fill(NIL, n)
      ensures nextFree == From(1, n) && prevFree == From(-1, n)
      ensures n > 0 && Place(bufferEnd, n - 1) >= start + HEAD_SIZE * n
              && Place(bufferEnd, n) < start + HEAD_SIZE * (n + 1)
    {
      var b := Top(bufferEnd) - BLOCK_SIZE;
      n := 0;
      while b >= start + HEAD_SIZE * (n + 1)
        invariant bufs == Fill(BLANK, n) && data == Places(bufferEnd, n) && next == Fill(NIL, n) && prev == Fill(NIL, n)
        invariant nextFree == From(1, n) && prevFree == From(-1, n)
        invariant b == Place(bufferEnd, n) && (if n == 0 then b >= start + HEAD_SIZE
                  else Place(bufferEnd, n - 1) >= start + HEAD_SIZE * n)
        decreases b - start
      {
        bufs, data := bufs + [BLANK], data + [b];
        next, prev := next + [NIL], prev + [NIL];
        prevFree, nextFree := prevFree + [n - 1], nextFree + [n + 1];
        PlacesApart(bufferEnd, n + 1);
        n := n + 1;
        b := (if b == 0x100000 then 0xA0000 else b) - BLOCK_SIZE;
      }
    }

    lemma Initially(n: nat)
      requires n > 0 && bufs == Fill(BLANK, n) && |data| == n && next == Fill(NIL, n) && prev == Fill(NIL, n)
      requires nextFree == From(1, n)[n - 1 := 0] && prevFree == From(-1, n)[0 := n - 1] && freeList == 0
      requires hash == Fill(NIL, NR_HASH) && chains == Fill([], NR_HASH) && ring == UpTo(n)
      ensures Valid() && Unique(bufs) && RingOk(Abs())
    {
      InitialRing(n);
      InitialChains(n);
    }

    /** Take the buffer off its hash chain and off the free ring. */
    method RemoveFromQueues(bh: nat) returns (corrupted: bool)
      requires Valid() && bh < |bufs|
      modifies this`next, this`prev, this`hash, this`nextFree, this`prevFree, this`freeList, this`ring, this`chains
      ensures !corrupted && Linked(bh) && ring == Without(old(ring), bh)
    {
      Unchain(bh);
      corrupted := Unring(bh);
    }

    method Unchain(bh: nat)
      requires Valid() && bh < |bufs|
      modifies this`next, this`prev, this`hash, this`chains
      ensures ChainsOk(bufs, next, prev, hash, chains, bh)
    {
      hide Hash, ChainsOk, RingLinked, Cut;
      ghost var next0, prev0, hash0 := next, prev, hash;
      var h := Hash(bufs[bh].dev, bufs[bh].block);
      ghost var k := Home(bh);
      if next[bh] != NIL { prev := prev[next[bh] := prev[bh]]; }
      if prev[bh] != NIL { next := next[prev[bh] := next[bh]]; }
      if hash[h] == bh { hash := hash[h := next[bh]]; }
      if bufs[bh].dev != 0 {
        UnchainKeeps(bufs, next0, prev0, hash0, chains, bh, next, prev, hash, k);
        chains := chains[h := Cut(chains[h], k)];
      }
    }

    /** Where the buffer is on its chain, and what its links can be. */
    lemma Home(bh: nat) returns (k: nat)
      requires Valid() && bh < |bufs|
      ensures |next| == |prev| == |bufs| && |hash| == |chains| == NR_HASH
      ensures next[bh] == NIL || (0 <= next[bh] < |bufs| && next[bh] != bh)
      ensures prev[bh] == NIL || (0 <= prev[bh] < |bufs| && prev[bh] != bh)
      ensures var h := Hash(bufs[bh].dev, bufs[bh].block);
              if bufs[bh].dev != 0 then k < |chains[h]| && chains[h][k] == bh
              else next[bh] == NIL && prev[bh] == NIL && hash[h] != bh && ChainsOk(bufs, next, prev, hash, chains, bh)
    {
      hide Hash;
      var h := Hash(bufs[bh].dev, bufs[bh].block);
      k := 0;
      if bufs[bh].dev != 0 {
        k :| 0 <= k < |chains[h]| && chains[h][k] == bh;
        assert ChainLinks(next, prev, chains[h], hash[h]) && ChainMembers(bufs, chains[h], h, NIL);
        LinksOf(bufs, next, prev, chains[h], hash[h], h, k);
        LinkAt(next, prev, chains[h], hash[h], k);
        if k > 0 { Differ(chains[h], k, k - 1); }
        if k + 1 < |chains[h]| { Differ(chains[h], k, k + 1); }
      } else {
        NotFirst(bh, h);
        Bystander(bh);
      }
    }

    /** A buffer without a device heads no chain. */
    lemma NotFirst(bh: nat, h: nat)
      requires Valid() && bh < |bufs| && bufs[bh].dev == 0 && h < NR_HASH
      ensures next[bh] == NIL && prev[bh] == NIL && hash[h] != bh
    {
      assert ChainLinks(next, prev, chains[h], hash[h]) && ChainMembers(bufs, chains[h], h, NIL);
    }

    /** A buffer without a device is on no chain, so leaving it out changes nothing. */
    lemma Bystander(bh: nat)
      requires Valid() && bh < |bufs| && bufs[bh].dev == 0
      ensures ChainsOk(bufs, next, prev, hash, chains, bh)
    {
      hide Hash, ChainLinks, NoDup;
      forall h | 0 <= h < NR_HASH ensures ChainMembers(bufs, chains[h], h, bh) {
        assert ChainMembers(bufs, chains[h], h, NIL);
      }
    }

    method Unring(bh: nat) returns (corrupted: bool)
      requires RingLinked(nextFree, prevFree, freeList, ring, |bufs|, NIL) && bh < |bufs|
      modifies this`nextFree, this`prevFree, this`freeList, this`ring
      ensures !corrupted && RingLinked(nextFree, prevFree, freeList, ring, |bufs|, bh) && ring == Without(old(ring), bh)
    {
      hide NoDup, RingLinks;
      RingHasAll(Abs(), bh);
      ghost var k :| 0 <= k < |ring| && ring[k] == bh;
      UnringKeeps(nextFree, prevFree, freeList, ring, |bufs|, k);
      WithoutAt(ring, k);
      corrupted := prevFree[bh] == NIL || nextFree[bh] == NIL;
      nextFree := nextFree[prevFree[bh] := nextFree[bh]];
      prevFree := prevFree[nextFree[bh] := prevFree[bh]];
      if freeList == bh { freeList := nextFree[bh]; }
      ring := Cut(ring, k);
    }

    /**
     * Put the buffer at the tail of the free ring and, if it has a device, first on its
     * chain.  Something is stored outside the heads exactly when that chain was empty.
     */
    method InsertIntoQueues(bh: nat)
      requires Linked(bh) && bh < |bufs|
      modifies this`next, this`prev, this`hash, this`nextFree, this`prevFree, this`ring, this`chains, this`outside
      ensures Valid() && ring == old(ring) + [bh]
      ensures |old(hash)| == |old(chains)| == NR_HASH && First(old(chains), bufs[bh], bh, chains)
      ensures outside == if Strays(bufs[bh].dev, bufs[bh].block, old(hash)) then old(outside) + [bh] else old(outside)
    {
      hide ChainsOk, RingLinked, Hash, First, Strays;
      ChainSizes(bufs, next, prev, hash, chains, bh);
      Enring(bh);
      Enchain(bh);
    }

    /** A store into b_prev of the head that at points to; null points at no head. */
    method StorePrev(at: int, v: int)
      requires at == NIL || 0 <= at < |prev|
      modifies this`prev, this`outside
      ensures if at == NIL then prev == old(prev) && outside == old(outside) + [v]
              else prev == old(prev)[at := v] && outside == old(outside)
    {
      if at == NIL { outside := outside + [v]; } else { prev := prev[at := v]; }
    }

    method Enring(bh: nat)
      requires RingLinked(nextFree, prevFree, freeList, ring, |bufs|, bh) && bh < |bufs|
      modifies this`nextFree, this`prevFree, this`ring
      ensures RingLinked(nextFree, prevFree, freeList, ring, |bufs|, NIL) && ring == old(ring) + [bh]
    {
      hide NoDup, RingLinks;
      EnringKeeps(nextFree, prevFree, freeList, ring, |bufs|, bh);
      nextFree := nextFree[bh := freeList];
      prevFree := prevFree[bh := prevFree[freeList]];
      nextFree := nextFree[prevFree[freeList] := bh];
      prevFree := prevFree[freeList := bh];
      ring := ring + [bh];
    }

    /** The last store goes through b_next whether or not the chain was empty. */
    method Enchain(bh: nat)
      requires ChainsOk(bufs, next, prev, hash, chains, bh) && bh < |bufs|
      modifies this`next, this`prev, this`hash, this`chains, this`outside
      ensures ChainsOk(bufs, next, prev, hash, chains, NIL)
      ensures |old(hash)| == |old(chains)| == NR_HASH && First(old(chains), bufs[bh], bh, chains)
      ensures outside == if Strays(bufs[bh].dev, bufs[bh].block, old(hash)) then old(outside) + [bh] else old(outside)
    {
      hide Hash, ChainsOk;
      ghost var next0, prev0 := next, prev;
      ChainSizes(bufs, next, prev, hash, chains, bh);
      prev := prev[bh := NIL];
      next := next[bh := NIL];
      if bufs[bh].dev == 0 {
        Detached(bufs, next0, prev0, hash, chains, bh);
        return;
      }
      var h := Hash(bufs[bh].dev, bufs[bh].block);
      EnchainKeeps(bufs, next0, prev0, hash, chains, bh);
      FirstInRange(bufs, next0, prev0, hash, chains, bh, h);
      next := next[bh := hash[h]];
      hash := hash[h := bh];
      StorePrev(next[bh], bh);
      assert next == next0[bh := old(hash)[h]];
      chains := chains[h := [bh] + chains[h]];
    }

    /** find_buffer agrees with a scan of all buffers. */
    method FindBuffer(dev: U16, block: U32) returns (r: int)
      requires Valid() && Unique(bufs)
      ensures r == match Find(bufs, dev, block) case Some(b) => b case None => NIL
    {
      hide Hash, ChainsOk, RingLinked, Find, Unique;
      var h := Hash(dev, block);
      Entry(h);
      r := hash[h];
      ghost var i := 0;
      while r != NIL
        invariant 0 <= i <= |chains[h]| && r == At(chains[h], i)
        invariant forall j :: 0 <= j < i ==>
                    chains[h][j] < |bufs| && !(bufs[chains[h][j]].dev == dev && bufs[chains[h][j]].block == block)
        decreases |chains[h]| - i
      {
        Walk(h, i);
        if bufs[r].dev == dev && bufs[r].block == block {
          FoundIsTheOne(bufs, dev, block, r);
          return;
        }
        r := next[r];
        i := i + 1;
      }
      NowhereElse(dev, block);
    }

    lemma Entry(h: nat)
      requires Valid() && h < NR_HASH
      ensures |hash| == |chains| == NR_HASH && |next| == |bufs| && hash[h] == At(chains[h], 0)
    {
      assert ChainLinks(next, prev, chains[h], hash[h]);
    }

    lemma Walk(h: nat, i: nat)
      requires Valid() && h < NR_HASH && |chains| == NR_HASH && i < |chains[h]|
      ensures |next| == |bufs| && chains[h][i] < |bufs| && bufs[chains[h][i]].dev != 0
              && next[chains[h][i]] == At(chains[h], i + 1)
    {
      assert ChainLinks(next, prev, chains[h], hash[h]) && ChainMembers(bufs, chains[h], h, NIL);
    }

    /** A label missing from its chain is missing from the cache. */
    lemma NowhereElse(dev: U16, block: U32)
      requires Valid()
      requires forall j :: 0 <= j < |chains[Hash(dev, block)]| ==>
                 var b := chains[Hash(dev, block)][j]; b < |bufs| && !(bufs[b].dev == dev && bufs[b].block == block)
      ensures Find(bufs, dev, block) == None
    {
      hide Hash, ChainLinks, NoDup;
      forall b | 0 <= b < |bufs| ensures !Matches(bufs[b], dev, block) {
        if bufs[b].dev != 0 && Hash(bufs[b].dev, bufs[b].block) == Hash(dev, block) {
          assert b in chains[Hash(dev, block)];
        }
      }
    }

    /** The free-list scan of getblk. */
    method PickFree() returns (bh: int)
      requires Valid()
      ensures bh == match Best(bufs, ring) case Some(b) => b case None => NIL
    {
      hide Hash, ChainsOk, NoDup;
      bh := NIL;
      var tmp := freeList;
      ghost var i := 0;
      assert ring[..1] == [ring[0]];
      while true
        invariant 0 <= i < |ring| && tmp == ring[i]
        invariant bh == match Best(bufs, ring[..i]) case Some(b) => b case None => NIL
        decreases |ring| - i
      {
        assert ring[..i + 1][..i] == ring[..i] && ring[..i + 1][i] == tmp;
        if bufs[tmp].count == 0 {
          if bh == NIL || Badness(bufs[tmp]) < Badness(bufs[bh]) {
            bh := tmp;
            if Badness(bufs[tmp]) == 0 {
              BestMayStop(bufs, ring, i + 1);
              break;
            }
          }
        }
        assert nextFree[ring[i]] == ring[Succ(i, |ring|)];
        tmp := nextFree[tmp];
        i := i + 1;
        if tmp == freeList {
          BackAtStart(i);
          assert ring[..i] == ring;
          break;
        }
      }
    }

    /** Following b_next_free comes back to free_list only after the whole ring. */
    lemma BackAtStart(i: nat)
      requires Valid() && 0 < i <= |ring| && ring[Succ(i - 1, |ring|)] == freeList
      ensures i == |ring|
    {
      hide Hash, ChainsOk, RingLinks, NoDup;
      if i < |ring| { Differ(ring, 0, i); }
    }

    /** getblk from "repeat" to its first sleep, with get_hash_table inside it. */
    method Look(dev: U16, block: U32) returns (r: Looked)
      requires Valid() && Unique(bufs)
      modifies this`bufs
      ensures Valid() && Unique(bufs) && RingOk(old(Abs())) && r == LookUp(old(Abs()), dev, block)
      ensures Abs() == if r.Cached? then Grab(old(Abs()), r.b) else old(Abs())
      ensures match r case Cached(b) => true case Candidate(b) => TakesBest(bufs, Some(b))
                      case AllBusy => TakesBest(bufs, None)
    {
      hide ChainsOk, RingLinks, NoDup, Find, Best, TakesBest;
      BestOfAll(Abs());
      var bh := FindBuffer(dev, block);
      if bh != NIL {
        ghost var before := bufs;
        bufs := bufs[bh := bufs[bh].(count := (bufs[bh].count + 1) % 0x100)];
        LabelsDecide(before, bufs, next, prev, hash, chains, NIL);
        UniqueByLabels(before, bufs);
        r := Cached(bh);
      } else {
        bh := PickFree();
        r := if bh == NIL then AllBusy else Candidate(bh);
      }
    }

    /** getblk after its last sleep: the candidate is refused or takes the new label. */
    method Finish(bh: nat, dev: U16, block: U32) returns (r: Tried)
      requires Valid() && Unique(bufs) && bh < |bufs|
      modifies this
      ensures Valid() && Unique(bufs) && r == Try(old(Abs()), bh, dev, block)
      ensures Abs() == if r == Labelled then Label(old(Abs()), bh, dev, block) else old(Abs())
      ensures |bufs| == |old(bufs)| && (r == Labelled ==>
                && bufs[bh].dev == dev && bufs[bh].block == block && bufs[bh].count == 1
                && !bufs[bh].dirt && !bufs[bh].lock && !bufs[bh].uptodate && ring != [] && ring[|ring| - 1] == bh)
      ensures forall b :: 0 <= b < |bufs| && (b != bh || r != Labelled) ==> bufs[b] == old(bufs)[b]
      ensures data == old(data)
      ensures outside == if r == Labelled && dev != 0
              && Alone(old(bufs), bh, dev, block) then old(outside) + [bh] else old(outside)
    {
      hide ChainsOk, RingLinked, NoDup, Find, Without, Unique;
      if bufs[bh].lock { return Locked; }
      if bufs[bh].count != 0 { return InUse; }
      if bufs[bh].dirt { return NeedsSync; }
      var other := FindBuffer(dev, block);
      if other != NIL { return Appeared; }
      LabelKeepsUnique(Abs(), bh, dev, block);
      Relabel(bh, dev, block);
      r := Labelled;
    }

    method Relabel(bh: nat, dev: U16, block: U32)
      requires Valid() && bh < |bufs|
      modifies this
      ensures Valid() && Abs() == Label(old(Abs()), bh, dev, block) && data == old(data)
      ensures |bufs| == |old(bufs)| && bufs[bh] == Buffer(dev, block, 1, false, old(bufs)[bh].lock, false)
      ensures outside == if dev != 0 && Alone(old(bufs), bh, dev, block) then old(outside) + [bh] else old(outside)
    {
      hide ChainsOk, RingLinked, Without;
      ghost var before := bufs;
      bufs := bufs[bh := bufs[bh].(count := 1, dirt := false, uptodate := false)];
      LabelsDecide(before, bufs, next, prev, hash, chains, NIL);
      var corrupted := RemoveFromQueues(bh);
      before := bufs;
      bufs := bufs[bh := bufs[bh].(dev := dev, block := block)];
      LabelsDecide(before, bufs, next, prev, hash, chains, bh);
      EmptyIff(old(bufs), bufs, next, prev, hash, chains, bh, dev, block);
      InsertIntoQueues(bh);
    }

    /** brelse once the buffer is unlocked; false is its panic. */
    method Release(bh: nat) returns (ok: bool)
      requires Valid() && Unique(bufs) && bh < |bufs|
      modifies this`bufs
      ensures Valid() && Unique(bufs) && ok == (old(bufs)[bh].count > 0) && Abs() == Drop(old(Abs()), bh)
    {
      hide ChainsOk, RingLinked;
      ok := bufs[bh].count > 0;
      ghost var before := bufs;
      bufs := bufs[bh := bufs[bh].(count := (bufs[bh].count + 0xff) % 0x100)];
      LabelsDecide(before, bufs, next, prev, hash, chains, NIL);
      UniqueByLabels(before, bufs);
    }
  }

  /** A buffer without a device rejoins with null links and no chain. */
  lemma Detached(bufs: seq<Buffer>, next: seq<int>, prev: seq<int>, hash: seq<int>, chains: seq<seq<nat>>, b: nat)
    requires ChainsOk(bufs, next, prev, hash, chains, b) && b < |bufs| && bufs[b].dev == 0
    ensures ChainsOk(bufs, next[b := NIL], prev[b := NIL], hash, chains, NIL)
  {
    hide Hash, NoDup, ChainLinks;
    forall h | 0 <= h < NR_HASH
      ensures ChainMembers(bufs, chains[h], h, NIL) && ChainLinks(next[b := NIL], prev[b := NIL], chains[h], hash[h])
    {
      assert ChainMembers(bufs, chains[h], h, b) && ChainLinks(next, prev, chains[h], hash[h]);
      ChainApart(next, prev, next[b := NIL], prev[b := NIL], chains[h], hash[h]);
    }
  }

  lemma FirstInRange(bufs: seq<Buffer>, next: seq<int>, prev: seq<int>, hash: seq<int>, chains: seq<seq<nat>>, b: nat,
                     h: nat)
    requires ChainsOk(bufs, next, prev, hash, chains, b) && h < NR_HASH
    ensures |next| == |prev| == |bufs| && |hash| == |chains| == NR_HASH
    ensures hash[h] == NIL || (0 <= hash[h] < |bufs| && hash[h] != b)
  {
    hide Hash;
    assert ChainLinks(next, prev, chains[h], hash[h]) && ChainMembers(bufs, chains[h], h, b);
    FirstOf(bufs, next, prev, chains[h], hash[h], h, b);
  }

  lemma BlankIsFree(c: Cache, dev: U16, block: U32)
    requires RingOk(c) && forall b :: 0 <= b < |c.bufs| ==> c.bufs[b] == BLANK
    ensures var r := LookUp(c, dev, block);
            r.Candidate? && Try(c, r.b, dev, block) == Labelled && (dev != 0 ==> Alone(c.bufs, r.b, dev, block))
  {
    hide Hash;
    var t := c.ring[|c.ring| - 1];
    assert c.bufs[t].count == 0;
  }

  /** The first getblk for a device after buffer_init stores outside the heads, whatever block it asks for. */
  method FirstGetblk(start: nat, bufferEnd: int, dev: U16, block: U32) returns (c: Buffers, b: nat)
    requires bufferEnd % BLOCK_SIZE == 0 && (bufferEnd <= 0xA0000 || bufferEnd >= 0x100000)
    requires Top(bufferEnd) - BLOCK_SIZE >= start + HEAD_SIZE && dev != 0
    ensures c.Valid() && Unique(c.bufs) && Find(c.bufs, dev, block) == Some(b) && c.outside == [b]
  {
    hide ChainsOk, RingLinked, Find, Best, Hash, Unique, LookUp;
    c := new Buffers.Init(start, bufferEnd);
    BlankIsFree(c.Abs(), dev, block);
    var r := c.Look(dev, block);
    b := r.b;
    var t := c.Finish(b, dev, block);
    FoundIsTheOne(c.bufs, dev, block, b);
  }
}
