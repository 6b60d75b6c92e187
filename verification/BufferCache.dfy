/** The buffer cache as values: what one atomic stretch of getblk does between two sleeps. */
module BufferCache {
  const NR_HASH: nat := 307

  type U8 = x: nat | x < 0x100
  type U16 = x: nat | x < 0x1_0000
  type U32 = x: nat | x < 0x1_0000_0000

  datatype Option<T> = None | Some(value: T)

  /** The fields of a buffer_head that callers see; b_count is an unsigned char. */
  datatype Buffer = Buffer(dev: U16, block: U32, count: U8, dirt: bool, lock: bool, uptodate: bool)

  /** All buffers, and the order of the free ring read from free_list. */
  datatype Cache = Cache(bufs: seq<Buffer>, ring: seq<nat>)

  function Hash(dev: U16, block: U32): (h: nat)
    ensures h < NR_HASH
  {
    ((dev as bv32) ^ (block as bv32)) as nat % NR_HASH
  }

  /** A lookup of device 0 never succeeds: buffers without a device are on no hash chain. */
  predicate Matches(b: Buffer, dev: U16, block: U32) {
    dev != 0 && b.dev == dev && b.block == block
  }

  /** A scan of every buffer, the reference for find_buffer. */
  function Find(bufs: seq<Buffer>, dev: U16, block: U32): (r: Option<nat>)
    ensures r.Some? ==> r.value < |bufs| && Matches(bufs[r.value], dev, block)
    ensures r.None? ==> forall b :: 0 <= b < |bufs| ==> !Matches(bufs[b], dev, block)
  {
    if bufs == [] then None
    else if Matches(bufs[|bufs| - 1], dev, block) then Some(|bufs| - 1)
    else Find(bufs[..|bufs| - 1], dev, block)
  }

  /** At most one buffer carries a given device and block. */
  ghost predicate Unique(bufs: seq<Buffer>) {
    forall a, b :: 0 <= a < |bufs| && 0 <= b < |bufs| && a != b && bufs[a].dev != 0 ==>
      !(bufs[a].dev == bufs[b].dev && bufs[a].block == bufs[b].block)
  }

  ghost predicate NoDup(s: seq<nat>) {
    forall i, j :: 0 <= i < j < |s| ==> s[i] != s[j]
  }

  ghost predicate Below(s: seq<nat>, n: nat) {
    forall i :: 0 <= i < |s| ==> s[i] < n
  }

  /** The ring names every buffer exactly once. */
  ghost predicate RingOk(c: Cache) {
    |c.ring| == |c.bufs| > 0 && NoDup(c.ring) && Below(c.ring, |c.bufs|)
  }

  function Badness(b: Buffer): nat {
    (if b.dirt then 2 else 0) + (if b.lock then 1 else 0)
  }

  /** The buffer the free-list scan settles on: the first unused one of least badness. */
  function Best(bufs: seq<Buffer>, ring: seq<nat>): (r: Option<nat>)
    requires forall i :: 0 <= i < |ring| ==> ring[i] < |bufs|
    ensures r.Some? ==> r.value < |bufs| && bufs[r.value].count == 0
  {
    if ring == [] then None else
      var r := Best(bufs, ring[..|ring| - 1]);
      var t := ring[|ring| - 1];
      if bufs[t].count != 0 then r
      else if r.None? || Badness(bufs[t]) < Badness(bufs[r.value]) then Some(t)
      else r
  }

  /** What Best means: nothing unused is better, and nothing unused before it is as good. */
  ghost predicate IsBest(bufs: seq<Buffer>, ring: seq<nat>, r: Option<nat>)
    requires forall i :: 0 <= i < |ring| ==> ring[i] < |bufs|
  {
    match r
    case None => forall j :: 0 <= j < |ring| ==> bufs[ring[j]].count != 0
    case Some(b) =>
      exists k :: 0 <= k < |ring| && ring[k] == b && bufs[b].count == 0 &&
        (forall j :: 0 <= j < |ring| && bufs[ring[j]].count == 0 ==>
          Badness(bufs[b]) <= Badness(bufs[ring[j]]) && (j < k ==> Badness(bufs[b]) < Badness(bufs[ring[j]])))
  }

  lemma {:induction false} BestIsBest(bufs: seq<Buffer>, ring: seq<nat>)
    requires forall i :: 0 <= i < |ring| ==> ring[i] < |bufs|
    ensures IsBest(bufs, ring, Best(bufs, ring))
  {
    if ring != [] {
      var front := ring[..|ring| - 1];
      BestIsBest(bufs, front);
      var t := ring[|ring| - 1];
      var r := Best(bufs, front);
      forall j | 0 <= j < |ring| ensures j < |front| ==> ring[j] == front[j] {}
      if bufs[t].count == 0 && (r.None? || Badness(bufs[t]) < Badness(bufs[r.value])) {
        assert ring[|ring| - 1] == t;
      } else if r.Some? {
        var k :| 0 <= k < |front| && front[k] == r.value && bufs[r.value].count == 0 &&
          (forall j :: 0 <= j < |front| && bufs[front[j]].count == 0 ==>
            Badness(bufs[r.value]) <= Badness(bufs[front[j]])
                && (j < k ==> Badness(bufs[r.value]) < Badness(bufs[front[j]])));
        assert ring[k] == r.value;
      }
    }
  }

  /** a is to be taken rather than b: a clean buffer before a dirty one, and then an unlocked one before a locked. */
  predicate NoWorse(a: Buffer, b: Buffer) {
    (a.dirt ==> b.dirt) && (a.dirt == b.dirt && a.lock ==> b.lock)
  }

  /** The scan settles on no buffer only if all are used, else on the first that is no worse than any unused one. */
  lemma BestPrefers(bufs: seq<Buffer>, ring: seq<nat>)
    requires forall i :: 0 <= i < |ring| ==> ring[i] < |bufs|
    ensures match Best(bufs, ring)
            case None => forall j :: 0 <= j < |ring| ==> bufs[ring[j]].count != 0
            case Some(b) =>
              exists k :: 0 <= k < |ring| && ring[k] == b && bufs[b].count == 0 &&
                (forall j :: 0 <= j < |ring| && bufs[ring[j]].count == 0 ==>
                  NoWorse(bufs[b], bufs[ring[j]]) && (j < k ==> !NoWorse(bufs[ring[j]], bufs[b])))
  {
    hide Best;
    BestIsBest(bufs, ring);
  }

  /** Nothing is better than badness 0, so the scan may stop there. */
  lemma {:induction false} BestMayStop(bufs: seq<Buffer>, ring: seq<nat>, k: nat)
    requires forall i :: 0 <= i < |ring| ==> ring[i] < |bufs|
    requires k <= |ring| && Best(bufs, ring[..k]).Some? && Badness(bufs[Best(bufs, ring[..k]).value]) == 0
    ensures Best(bufs, ring) == Best(bufs, ring[..k])
  {
    if k < |ring| {
      var front := ring[..|ring| - 1];
      assert front[..k] == ring[..k];
      BestMayStop(bufs, front, k);
    } else {
      assert ring[..k] == ring;
    }
  }

  function Without(s: seq<nat>, b: nat): seq<nat> {
    if s == [] then [] else if s[0] == b then s[1..] else [s[0]] + Without(s[1..], b)
  }

  /** s with its k-th element taken out. */
  function Cut(s: seq<nat>, k: nat): (r: seq<nat>)
    requires k < |s|
    ensures |r| == |s| - 1
  {
    s[..k] + s[k + 1..]
  }

  lemma CutAt(s: seq<nat>, k: nat, i: nat)
    requires k < |s| && i < |s| - 1
    ensures Cut(s, k)[i] == if i < k then s[i] else s[i + 1]
  {
  }

  lemma Differ(s: seq<nat>, i: nat, j: nat)
    requires NoDup(s) && i < |s| && j < |s| && i != j
    ensures s[i] != s[j]
  {
  }

  /** Taking out one of distinct elements leaves the others, distinct, in order. */
  lemma CutIsDistinct(s: seq<nat>, k: nat, n: nat)
    requires k < |s| && NoDup(s) && Below(s, n)
    ensures NoDup(Cut(s, k)) && Below(Cut(s, k), n)
    ensures forall i :: 0 <= i < |Cut(s, k)| ==> Cut(s, k)[i] != s[k]
  {
    hide NoDup, Cut;
    var r := Cut(s, k);
    forall i | 0 <= i < |r| ensures r[i] < n && r[i] != s[k] {
      CutAt(s, k, i);
      Differ(s, k, if i < k then i else i + 1);
    }
    assert NoDup(r) by { CutNoDup(s, k); }
  }

  lemma CutNoDup(s: seq<nat>, k: nat)
    requires k < |s| && NoDup(s)
    ensures NoDup(Cut(s, k))
  {
    hide Cut;
    var r := Cut(s, k);
    forall i, j | 0 <= i < j < |r| ensures r[i] != r[j] {
      CutAt(s, k, i);
      CutAt(s, k, j);
      Differ(s, if i < k then i else i + 1, if j < k then j else j + 1);
    }
  }

  lemma TailNoDup(s: seq<nat>)
    requires s != [] && NoDup(s)
    ensures NoDup(s[1..])
  {
  }

  lemma CutTail(s: seq<nat>, k: nat)
    requires 0 < k < |s|
    ensures Cut(s, k) == [s[0]] + Cut(s[1..], k - 1)
  {
  }

  lemma {:induction false} WithoutAt(s: seq<nat>, k: nat)
    requires k < |s| && NoDup(s)
    ensures Without(s, s[k]) == Cut(s, k)
  {
    if k > 0 {
      TailNoDup(s);
      Differ(s, 0, k);
      CutTail(s, k);
      hide NoDup, Cut;
      WithoutAt(s[1..], k - 1);
    }
  }

  /** What get_hash_table and the free-list scan find before the first sleep. */
  datatype Looked = Cached(b: nat) | Candidate(b: nat) | AllBusy

  function LookUp(c: Cache, dev: U16, block: U32): (r: Looked)
    requires RingOk(c)
    ensures !r.AllBusy? ==> r.b < |c.bufs|
  {
    match Find(c.bufs, dev, block)
    case Some(b) => Cached(b)
    case None => match Best(c.bufs, c.ring) case Some(b) => Candidate(b) case None => AllBusy
  }

  /** b_count++ on an unsigned char. */
  function Grab(c: Cache, b: nat): Cache
    requires b < |c.bufs|
  {
    c.(bufs := c.bufs[b := c.bufs[b].(count := (c.bufs[b].count + 1) % 0x100)])
  }

  /** b_count-- on an unsigned char. */
  function Drop(c: Cache, b: nat): Cache
    requires b < |c.bufs|
  {
    c.(bufs := c.bufs[b := c.bufs[b].(count := (c.bufs[b].count + 0xff) % 0x100)])
  }

  /** What getblk does with its candidate once no sleep is left. */
  datatype Tried = Locked | InUse | NeedsSync | Appeared | Labelled

  function Try(c: Cache, b: nat, dev: U16, block: U32): Tried
    requires b < |c.bufs|
  {
    if c.bufs[b].lock then Locked
    else if c.bufs[b].count != 0 then InUse
    else if c.bufs[b].dirt then NeedsSync
    else if Find(c.bufs, dev, block).Some? then Appeared
    else Labelled
  }

  /** The buffer takes its new label and moves to the tail of the ring. */
  function Label(c: Cache, b: nat, dev: U16, block: U32): Cache
    requires b < |c.bufs|
  {
    Cache(c.bufs[b := Buffer(dev, block, 1, false, c.bufs[b].lock, false)], Without(c.ring, b) + [b])
  }

  lemma LabelKeepsRing(c: Cache, b: nat, dev: U16, block: U32)
    requires RingOk(c) && b in c.ring
    ensures RingOk(Label(c, b, dev, block))
  {
    var k :| 0 <= k < |c.ring| && c.ring[k] == b;
    WithoutAt(c.ring, k);
    CutIsDistinct(c.ring, k, |c.bufs|);
    hide Cut, Without;
    AddIsDistinct(Cut(c.ring, k), b, |c.bufs|);
  }

  lemma AddIsDistinct(s: seq<nat>, b: nat, n: nat)
    requires NoDup(s) && Below(s, n) && b < n && forall i :: 0 <= i < |s| ==> s[i] != b
    ensures NoDup(s + [b]) && Below(s + [b], n)
  {
  }

  lemma LabelKeepsUnique(c: Cache, b: nat, dev: U16, block: U32)
    requires Unique(c.bufs) && b < |c.bufs| && Find(c.bufs, dev, block).None?
    ensures Unique(Label(c, b, dev, block).bufs)
  {
    var bufs := Label(c, b, dev, block).bufs;
    forall x, y | 0 <= x < |bufs| && 0 <= y < |bufs| && x != y && bufs[x].dev != 0
      ensures !(bufs[x].dev == bufs[y].dev && bufs[x].block == bufs[y].block)
    {
      assert !Matches(c.bufs[x], dev, block) && !Matches(c.bufs[y], dev, block);
    }
  }

  /** Only labels matter to uniqueness. */
  lemma UniqueByLabels(bufs: seq<Buffer>, bufs': seq<Buffer>)
    requires Unique(bufs) && |bufs'| == |bufs|
    requires forall b :: 0 <= b < |bufs| ==> bufs'[b].dev == bufs[b].dev && bufs'[b].block == bufs[b].block
    ensures Unique(bufs')
  {
    forall x, y | 0 <= x < |bufs'| && 0 <= y < |bufs'| && x != y && bufs'[x].dev != 0
      ensures !(bufs'[x].dev == bufs'[y].dev && bufs'[x].block == bufs'[y].block)
    {
      assert bufs[x].dev != 0;
    }
  }

  /** With unique labels, any buffer that matches is the one the scan returns. */
  lemma FoundIsTheOne(bufs: seq<Buffer>, dev: U16, block: U32, b: nat)
    requires Unique(bufs) && b < |bufs| && Matches(bufs[b], dev, block)
    ensures Find(bufs, dev, block) == Some(b)
  {
  }

  /** A ring of n distinct buffers out of n misses none. */
  lemma {:induction false} RingHasAll(c: Cache, b: nat)
    requires RingOk(c) && b < |c.bufs|
    ensures b in c.ring
  {
    if b !in c.ring {
      AtMost(c.ring + [b], |c.bufs|);
    }
  }

  lemma {:induction false} AtMost(s: seq<nat>, n: nat)
    requires NoDup(s) && Below(s, n)
    ensures |s| <= n
  {
    if s != [] {
      assert s[0] < n;
      if n - 1 in s {
        var k :| 0 <= k < |s| && s[k] == n - 1;
        AtMost(s[..k] + s[k + 1..], n - 1);
      } else {
        AtMost(s, n - 1);
      }
    }
  }

  /** r is an unused buffer that is no worse than any other, and None only if there is none. */
  ghost predicate TakesBest(bufs: seq<Buffer>, r: Option<nat>) {
    match r
    case None => forall b :: 0 <= b < |bufs| ==> bufs[b].count != 0
    case Some(x) =>
      && x < |bufs| && bufs[x].count == 0
      && forall b :: 0 <= b < |bufs| && bufs[b].count == 0 ==> NoWorse(bufs[x], bufs[b])
  }

  /** The whole cache is searched, since every buffer is on the ring. */
  lemma BestOfAll(c: Cache)
    requires RingOk(c)
    ensures TakesBest(c.bufs, Best(c.bufs, c.ring))
  {
    hide Best, NoWorse;
    BestPrefers(c.bufs, c.ring);
    var r := Best(c.bufs, c.ring);
    forall b | 0 <= b < |c.bufs| && c.bufs[b].count == 0 ensures r.Some? && NoWorse(c.bufs[r.value], c.bufs[b]) {
      RingHasAll(c, b);
      var j :| 0 <= j < |c.ring| && c.ring[j] == b;
    }
  }
}
