/** Writing file data and giving up a file's zones, on values. */
module ZoneFiles {
  import opened ZoneTree

  // ---------------------------------------------------------------- writing data

  /** The zone of leaf q gets new contents. */
  function PutBlock(fs: Fs, q: Place, b: Block): (r: Fs)
    requires Shape(fs) && Wf(|fs.inodes|, q) && 0 < ZoneAt(fs, q) < |fs.data|
    ensures Shape(r)
  {
    fs.(data := fs.data[ZoneAt(fs, q) := b])
  }

  lemma {:induction false} PutBlockZone(fs: Fs, q: Place, b: Block, p: Place)
    requires Shape(fs) && Injective(fs) && Wf(|fs.inodes|, q) && !IsNode(q) && 0 < ZoneAt(fs, q) < |fs.data|
             && Wf(|fs.inodes|, p)
    ensures ZoneAt(PutBlock(fs, q, b), p) == ZoneAt(fs, p)
    decreases p
  {
    hide GetShort, Injective;
    if p.Entry? {
      PutBlockZone(fs, q, b, p.parent);
      if ZoneAt(fs, p.parent) == ZoneAt(fs, q) { OnePlace(fs, p.parent, q); }
    }
  }

  /** Only the bytes of that one block of that one file change. */
  lemma PutBlockByte(fs: Fs, ino: nat, block: nat, b: Block, other: nat, pos: nat)
    requires Shape(fs) && Injective(fs) && ino < |fs.inodes| && block < BLOCKS
             && 0 < ZoneAt(fs, LeafOf(ino, block)) < |fs.data|
    requires other < |fs.inodes| && pos < BLOCKS * BLOCK_SIZE
    ensures ByteAt(PutBlock(fs, LeafOf(ino, block), b), other, pos) ==
            if other == ino && pos / BLOCK_SIZE == block then b[pos % BLOCK_SIZE] else ByteAt(fs, other, pos)
  {
    hide GetShort, Injective, LeafOf, ZoneAt;
    var q, p := LeafOf(ino, block), LeafOf(other, pos / BLOCK_SIZE);
    PutBlockZone(fs, q, b, p);
    if ZoneAt(fs, p) == ZoneAt(fs, q) {
      OnePlace(fs, p, q);
      LeafOfIsInjective(other, pos / BLOCK_SIZE, ino, block);
    }
  }

  lemma PutBlockKeeps(fs: Fs, q: Place, b: Block)
    requires Inv(fs) && Wf(|fs.inodes|, q) && !IsNode(q) && 0 < ZoneAt(fs, q) < |fs.data|
    ensures Inv(PutBlock(fs, q, b))
  {
    var fs' := PutBlock(fs, q, b);
    hide ZoneAt;
    forall p | Wf(|fs.inodes|, p) ensures ZoneAt(fs', p) == ZoneAt(fs, p) { PutBlockZone(fs, q, b, p); }
    forall z | fs.first <= z < |fs.data| ensures Marked(fs', z) <==> Referenced(fs', z) {
      assert Referenced(fs', z) <==> Referenced(fs, z);
    }
  }

  // ---------------------------------------------------------------- subtrees

  predicate Inside(p: Place, top: Place) {
    p == top || (p.Entry? && Inside(p.parent, top))
  }

  /** Some place of the subtree at top names z. */
  ghost predicate Under(fs: Fs, z: nat, top: Place)
    requires Shape(fs)
  {
    exists p :: Wf(|fs.inodes|, p) && Inside(p, top) && ZoneAt(fs, p) == z
  }

  /** z is named under one of the first i entries of top. */
  ghost predicate UnderFirst(fs: Fs, z: nat, top: Place, i: nat)
    requires Shape(fs)
  {
    exists k :: 0 <= k < i && Under(fs, z, Entry(top, k))
  }

  /** z is one of the zones of inode ino. */
  ghost predicate OwnedBy(fs: Fs, z: nat, ino: nat)
    requires Shape(fs)
  {
    exists p :: Wf(|fs.inodes|, p) && Owner(p) == ino && ZoneAt(fs, p) == z
  }

  lemma {:induction false} NothingInsideLeaf(n: nat, p: Place, leaf: Place)
    requires Wf(n, p) && Inside(p, leaf) && !IsNode(leaf)
    ensures p == leaf
    decreases p
  {
    if p != leaf { NothingInsideLeaf(n, p.parent, leaf); }
  }

  lemma LeafUnder(fs: Fs, z: nat, leaf: Place)
    requires Shape(fs) && Wf(|fs.inodes|, leaf) && !IsNode(leaf)
    ensures Under(fs, z, leaf) <==> ZoneAt(fs, leaf) == z
  {
    hide ZoneAt;
    assert Inside(leaf, leaf);
    if Under(fs, z, leaf) {
      var p :| Wf(|fs.inodes|, p) && Inside(p, leaf) && ZoneAt(fs, p) == z;
      NothingInsideLeaf(|fs.inodes|, p, leaf);
    }
  }

  /** The entry of top on the way down to p. */
  lemma {:induction false} EntryTo(n: nat, p: Place, top: Place) returns (k: nat)
    requires Wf(n, p) && Inside(p, top) && p != top
    ensures k < FAN && Inside(p, Entry(top, k))
    decreases p
  {
    if p.parent == top { k := p.k; } else { k := EntryTo(n, p.parent, top); }
  }

  lemma {:induction false} InsideTrans(p: Place, q: Place, top: Place)
    requires Inside(p, q) && Inside(q, top)
    ensures Inside(p, top)
    decreases p
  {
    if p != q { InsideTrans(p.parent, q, top); }
  }

  lemma NodeUnder(fs: Fs, z: nat, top: Place)
    requires Shape(fs) && Wf(|fs.inodes|, top)
    ensures Under(fs, z, top) <==> ZoneAt(fs, top) == z || UnderFirst(fs, z, top, FAN)
  {
    hide ZoneAt, Wf;
    assert Inside(top, top);
    if Under(fs, z, top) {
      var p :| Wf(|fs.inodes|, p) && Inside(p, top) && ZoneAt(fs, p) == z;
      if p != top {
        var k := EntryTo(|fs.inodes|, p, top);
        assert Under(fs, z, Entry(top, k));
      }
    }
    if UnderFirst(fs, z, top, FAN) {
      var k :| 0 <= k < FAN && Under(fs, z, Entry(top, k));
      var p :| Wf(|fs.inodes|, p) && Inside(p, Entry(top, k)) && ZoneAt(fs, p) == z;
      assert Inside(Entry(top, k), top);
      InsideTrans(p, Entry(top, k), top);
    }
  }

  function Depth(p: Place): nat {
    if p.Root? then 0 else 1 + Depth(p.parent)
  }

  lemma {:induction false} InsideDepth(p: Place, top: Place)
    requires Inside(p, top)
    ensures Depth(top) <= Depth(p) && (Depth(top) == Depth(p) ==> p == top)
    decreases p
  {
    if p != top { InsideDepth(p.parent, top); }
  }

  /** Subtrees of the same depth are the same or disjoint. */
  lemma {:induction false} InsideOne(p: Place, a: Place, b: Place)
    requires Inside(p, a) && Inside(p, b) && Depth(a) == Depth(b)
    ensures a == b
    decreases p
  {
    InsideDepth(p, a);
    InsideDepth(p, b);
    if p != a && p != b { InsideOne(p.parent, a, b); }
  }

  /** No zone lies under two places of the same depth. */
  lemma UnderOne(fs: Fs, z: nat, a: Place, b: Place)
    requires Shape(fs) && Injective(fs) && z != 0 && Under(fs, z, a) && Under(fs, z, b) && Depth(a) == Depth(b)
    ensures a == b
  {
    hide ZoneAt, Injective;
    var p :| Wf(|fs.inodes|, p) && Inside(p, a) && ZoneAt(fs, p) == z;
    var q :| Wf(|fs.inodes|, q) && Inside(q, b) && ZoneAt(fs, q) == z;
    OnePlace(fs, p, q);
    InsideOne(p, a, b);
  }

  /** Under a place without a zone there is no zone. */
  lemma {:induction false} NothingUnderZero(fs: Fs, p: Place, top: Place)
    requires Shape(fs) && Wf(|fs.inodes|, p) && Wf(|fs.inodes|, top) && Inside(p, top) && ZoneAt(fs, top) == 0
    ensures ZoneAt(fs, p) == 0
    decreases p
  {
    hide GetShort;
    if p != top { NothingUnderZero(fs, p.parent, top); }
  }

  lemma UnderZero(fs: Fs, z: nat, top: Place)
    requires Shape(fs) && Wf(|fs.inodes|, top) && ZoneAt(fs, top) == 0 && z != 0
    ensures !Under(fs, z, top)
  {
    hide ZoneAt, Wf;
    forall p | Wf(|fs.inodes|, p) && Inside(p, top) ensures ZoneAt(fs, p) == 0 { NothingUnderZero(fs, p, top); }
  }

  lemma UnderIsReferenced(fs: Fs, z: nat, top: Place)
    requires Shape(fs) && Under(fs, z, top)
    ensures Referenced(fs, z)
  {
    hide ZoneAt, Wf;
  }

  lemma {:induction false} RootOf(n: nat, p: Place) returns (k: nat)
    requires Wf(n, p)
    ensures k < 9 && Inside(p, Root(Owner(p), k))
    decreases p
  {
    if p.Root? { k := p.k; } else { k := RootOf(n, p.parent); }
  }

  lemma {:induction false} InsideOwner(p: Place, top: Place)
    requires Inside(p, top)
    ensures Owner(p) == Owner(top)
    decreases p
  {
    if p != top { InsideOwner(p.parent, top); }
  }

  /** z is named under one of the first i entries of i_zone. */
  ghost predicate UnderRoots(fs: Fs, z: nat, ino: nat, i: nat)
    requires Shape(fs)
  {
    exists k :: 0 <= k < i && Under(fs, z, Root(ino, k))
  }

  lemma OwnedIsUnder(fs: Fs, z: nat, ino: nat)
    requires Shape(fs)
    ensures OwnedBy(fs, z, ino) <==> UnderRoots(fs, z, ino, 9)
  {
    hide ZoneAt, Wf;
    if OwnedBy(fs, z, ino) {
      var p :| Wf(|fs.inodes|, p) && Owner(p) == ino && ZoneAt(fs, p) == z;
      var k := RootOf(|fs.inodes|, p);
      assert Under(fs, z, Root(ino, k));
    }
    if UnderRoots(fs, z, ino, 9) {
      var k :| 0 <= k < 9 && Under(fs, z, Root(ino, k));
      var p :| Wf(|fs.inodes|, p) && Inside(p, Root(ino, k)) && ZoneAt(fs, p) == z;
      InsideOwner(p, Root(ino, k));
    }
  }

  // ---------------------------------------------------------------- clearing bits

  /** The bit of zone z in a map laid out as that of fs. */
  predicate BitOf(fs: Fs, bits: seq<bool>, z: nat)
    requires fs.first <= z < |fs.data| && |fs.data| - fs.first < |bits|
  {
    bits[z - fs.first + 1]
  }

  ghost predicate Fits(fs: Fs, bits: seq<bool>) {
    Shape(fs) && |bits| == |fs.bits|
  }

  /** Every zone under top has its bit set. */
  ghost predicate SetUnder(fs: Fs, bits: seq<bool>, top: Place)
    requires Fits(fs, bits)
  {
    forall z :: fs.first <= z < |fs.data| && Under(fs, z, top) ==> BitOf(fs, bits, z)
  }

  /** now is was with exactly the bits of the zones under top cleared. */
  ghost predicate ClearedUnder(fs: Fs, was: seq<bool>, now: seq<bool>, top: Place)
    requires Fits(fs, was)
  {
    |now| == |was| && forall z :: fs.first <= z < |fs.data| ==>
        (BitOf(fs, now, z) <==> BitOf(fs, was, z) && !Under(fs, z, top))
  }

  ghost predicate ClearedFirst(fs: Fs, was: seq<bool>, now: seq<bool>, top: Place, i: nat)
    requires Fits(fs, was)
  {
    |now| == |was| && forall z :: fs.first <= z < |fs.data| ==>
        (BitOf(fs, now, z) <==> BitOf(fs, was, z) && !UnderFirst(fs, z, top, i))
  }

  ghost predicate ClearedRoots(fs: Fs, was: seq<bool>, now: seq<bool>, ino: nat, i: nat)
    requires Fits(fs, was)
  {
    |now| == |was| && forall z :: fs.first <= z < |fs.data| ==>
        (BitOf(fs, now, z) <==> BitOf(fs, was, z) && !UnderRoots(fs, z, ino, i))
  }

  lemma FirstGrows(fs: Fs, was: seq<bool>, mid: seq<bool>, now: seq<bool>, top: Place, i: nat)
    requires Fits(fs, was) && ClearedFirst(fs, was, mid, top, i) && ClearedUnder(fs, mid, now, Entry(top, i))
    ensures ClearedFirst(fs, was, now, top, i + 1)
  {
    hide Under, BitOf;
    forall z | fs.first <= z < |fs.data| ensures UnderFirst(fs, z, top, i + 1) <==>
        UnderFirst(fs, z, top, i) || Under(fs, z, Entry(top, i)) {}
    hide UnderFirst;
  }

  lemma RootsGrow(fs: Fs, was: seq<bool>, mid: seq<bool>, now: seq<bool>, ino: nat, i: nat)
    requires Fits(fs, was) && ClearedRoots(fs, was, mid, ino, i) && ClearedUnder(fs, mid, now, Root(ino, i))
    ensures ClearedRoots(fs, was, now, ino, i + 1)
  {
    hide Under, BitOf;
    forall z | fs.first <= z < |fs.data| ensures UnderRoots(fs, z, ino, i + 1) <==>
        UnderRoots(fs, z, ino, i) || Under(fs, z, Root(ino, i)) {}
    hide UnderRoots;
  }

  /** Bits under a later entry are still set when earlier entries have been freed. */
  lemma StillSet(fs: Fs, was: seq<bool>, mid: seq<bool>, top: Place, i: nat)
    requires Inv(fs) && Fits(fs, was) && SetUnder(fs, was, top) && ClearedFirst(fs, was, mid, top, i) && i < FAN
             && Wf(|fs.inodes|, top)
    ensures SetUnder(fs, mid, Entry(top, i))
  {
    hide Under, BitOf, Injective;
    forall z | fs.first <= z < |fs.data| && Under(fs, z, Entry(top, i)) ensures BitOf(fs, mid, z) {
      assert UnderFirst(fs, z, top, FAN);
      NodeUnder(fs, z, top);
      if UnderFirst(fs, z, top, i) {
        var k :| 0 <= k < i && Under(fs, z, Entry(top, k));
        UnderOne(fs, z, Entry(top, k), Entry(top, i));
      }
    }
  }

  lemma RootsStillSet(fs: Fs, was: seq<bool>, mid: seq<bool>, ino: nat, i: nat)
    requires Inv(fs) && Fits(fs, was) && was == fs.bits && ClearedRoots(fs, was, mid, ino, i) && i < 9
    ensures SetUnder(fs, mid, Root(ino, i))
  {
    hide Under, InRange, Injective, Referenced;
    forall z | fs.first <= z < |fs.data| && Under(fs, z, Root(ino, i)) ensures BitOf(fs, mid, z) {
      UnderIsReferenced(fs, z, Root(ino, i));
      assert Marked(fs, z);
      if UnderRoots(fs, z, ino, i) {
        var k :| 0 <= k < i && Under(fs, z, Root(ino, k));
        UnderOne(fs, z, Root(ino, k), Root(ino, i));
      }
    }
  }

  /** The zone of a place itself is not one of the zones under its entries. */
  lemma TopIsApart(fs: Fs, top: Place)
    requires Shape(fs) && Injective(fs) && Wf(|fs.inodes|, top) && ZoneAt(fs, top) != 0
    ensures !UnderFirst(fs, ZoneAt(fs, top), top, FAN) && Under(fs, ZoneAt(fs, top), top)
  {
    hide ZoneAt, Injective;
    assert Inside(top, top);
    forall k, q | 0 <= k < FAN && Wf(|fs.inodes|, q) && Inside(q, Entry(top, k))
        ensures ZoneAt(fs, q) != ZoneAt(fs, top) {
      InsideDepth(q, Entry(top, k));
      if ZoneAt(fs, q) == ZoneAt(fs, top) { OnePlace(fs, q, top); }
    }
  }

  /** Clearing the bit of a leaf's zone clears what is under the leaf. */
  lemma ClearLeaf(fs: Fs, was: seq<bool>, leaf: Place)
    requires Inv(fs) && Fits(fs, was) && Wf(|fs.inodes|, leaf) && !IsNode(leaf) && ZoneAt(fs, leaf) != 0
    ensures 0 < ZoneAt(fs, leaf) - fs.first + 1 < |was|
    ensures ClearedUnder(fs, was, was[ZoneAt(fs, leaf) - fs.first + 1 := false], leaf)
    ensures Under(fs, ZoneAt(fs, leaf), leaf)
  {
    hide ZoneAt, Under, Injective, Conserved;
    forall z | fs.first <= z < |fs.data| ensures Under(fs, z, leaf) <==>
        ZoneAt(fs, leaf) == z { LeafUnder(fs, z, leaf); }
  }

  /** Clearing the bit of a node after those of its entries clears what is under it. */
  lemma ClearNode(fs: Fs, was: seq<bool>, mid: seq<bool>, top: Place)
    requires Inv(fs) && Fits(fs, was) && Wf(|fs.inodes|, top) && ZoneAt(fs, top) != 0 && SetUnder(fs, was, top)
    requires ClearedFirst(fs, was, mid, top, FAN)
    ensures 0 < ZoneAt(fs, top) - fs.first + 1 < |mid| && mid[ZoneAt(fs, top) - fs.first + 1]
    ensures ClearedUnder(fs, was, mid[ZoneAt(fs, top) - fs.first + 1 := false], top)
  {
    hide ZoneAt, Under, UnderFirst, Injective, Conserved;
    TopIsApart(fs, top);
    forall z | fs.first <= z < |fs.data| ensures Under(fs, z, top) <==>
        ZoneAt(fs, top) == z || UnderFirst(fs, z, top, FAN) { NodeUnder(fs, z, top); }
    assert BitOf(fs, mid, ZoneAt(fs, top));
  }

  /** A place without a zone has nothing to clear. */
  lemma ClearNothing(fs: Fs, was: seq<bool>, top: Place)
    requires Fits(fs, was) && Wf(|fs.inodes|, top) && ZoneAt(fs, top) == 0
    ensures ClearedUnder(fs, was, was, top)
  {
    hide ZoneAt, Under;
    forall z | fs.first <= z < |fs.data| ensures !Under(fs, z, top) { UnderZero(fs, z, top); }
  }

  // ---------------------------------------------------------------- truncation

  /** fs' is fs with inode ino emptied and exactly its zones given back. */
  ghost predicate Truncated(fs: Fs, ino: nat, fs': Fs)
    requires Shape(fs) && ino < |fs.inodes|
  {
    && Shape(fs') && fs'.first == fs.first && fs'.data == fs.data
    && fs'.inodes == fs.inodes[ino := Inode([0, 0, 0, 0, 0, 0, 0, 0, 0], 0)]
    && forall z :: fs.first <= z < |fs.data| ==> (Marked(fs', z) <==> Marked(fs, z) && !OwnedBy(fs, z, ino))
  }

  lemma {:induction false} TruncatedZone(fs: Fs, ino: nat, fs': Fs, p: Place)
    requires Shape(fs) && ino < |fs.inodes| && Truncated(fs, ino, fs') && Wf(|fs.inodes|, p)
    ensures ZoneAt(fs', p) == if Owner(p) == ino then 0 else ZoneAt(fs, p)
    decreases p
  {
    hide Marked, OwnedBy;
    if p.Entry? { TruncatedZone(fs, ino, fs', p.parent); }
  }

  /** After truncate the file is all zeros, every other file is as before, and no zone is lost. */
  lemma TruncateKeeps(fs: Fs, ino: nat, fs': Fs)
    requires Inv(fs) && ino < |fs.inodes| && Truncated(fs, ino, fs')
    ensures Inv(fs')
    ensures forall i, pos :: 0 <= i < |fs.inodes| && 0 <= pos < BLOCKS * BLOCK_SIZE ==>
              ByteAt(fs', i, pos) == if i == ino then 0 else ByteAt(fs, i, pos)
  {
    hide GetShort, LeafOf, Marked;
    forall p | Wf(|fs.inodes|, p) ensures ZoneAt(fs', p) == if Owner(p) == ino then 0
        else ZoneAt(fs, p) { TruncatedZone(fs, ino, fs', p); }
    hide ZoneAt;
    forall z | fs.first <= z < |fs.data| ensures Marked(fs', z) <==> Referenced(fs', z) {
      if Referenced(fs, z) {
        var p :| Wf(|fs.inodes|, p) && ZoneAt(fs, p) == z;
        assert Owner(p) == ino ==> OwnedBy(fs, z, ino);
        forall q | Wf(|fs.inodes|, q) && ZoneAt(fs', q) == z ensures Owner(p) != ino { OnePlace(fs, p, q); }
        assert Owner(p) != ino ==> ZoneAt(fs', p) == z;
        if OwnedBy(fs, z, ino) {
          var q :| Wf(|fs.inodes|, q) && Owner(q) == ino && ZoneAt(fs, q) == z;
          OnePlace(fs, p, q);
        }
      }
    }
  }
}
