/** Allocating zones: new_block and the creating half of _bmap, on values. */
module ZoneAlloc {
  import opened ZoneTree

  /** The first clear bit, or |bits|. */
  function FirstZero(bits: seq<bool>): (j: nat)
    ensures j <= |bits| && (j < |bits| ==> !bits[j]) && forall i :: 0 <= i < j ==> bits[i]
  {
    if bits == [] then 0 else if !bits[0] then 0 else 1 + FirstZero(bits[1..])
  }

  datatype Got = Got(fs: Fs, z: Zone)

  /**
   * new_block: take the first clear bit of the map.  The bit is set before the zone is
   * compared with s_nzones, so a bit past the last zone can end up set.
   */
  function NewBlock(fs: Fs): (r: Got)
    requires Shape(fs)
    ensures Shape(r.fs)
  {
    var j := FirstZero(fs.bits);
    if j >= |fs.bits| then Got(fs, 0) else
      var fs1 := fs.(bits := fs.bits[j := true]);
      var z := j + fs.first - 1;
      if z >= |fs.data| then Got(fs1, 0)
      else Got(fs1.(data := fs.data[z := Zeros()]), z)
  }

  /** new_block hands out only unreferenced zones of the data range, cleared, and fails only when none is left. */
  lemma NewBlockIsFresh(fs: Fs)
    requires Inv(fs)
    ensures var r := NewBlock(fs);
            && |r.fs.data| == |fs.data| && r.fs.first == fs.first && r.fs.inodes == fs.inodes
            && if r.z == 0 then r.fs.data == fs.data && Full(fs)
               && (forall w :: fs.first <= w < |fs.data| ==> Marked(r.fs, w))
               else && fs.first <= r.z < |fs.data| && !Marked(fs, r.z) && !Referenced(fs, r.z)
                    && r.fs.data == fs.data[r.z := Zeros()]
                    && (forall w :: fs.first <= w < |fs.data| ==> (Marked(r.fs, w) <==> w == r.z || Marked(fs, w)))
  {
    hide FirstZero, InRange, Injective, Referenced;
    var j := FirstZero(fs.bits);
    if j < |fs.bits| && j + fs.first - 1 < |fs.data| {
      assert j != 0;
      assert !Marked(fs, j + fs.first - 1);
    } else {
      forall w | fs.first <= w < |fs.data| ensures Marked(fs, w) { assert fs.bits[w - fs.first + 1]; }
    }
  }

  /** Some bit is clear, and every clear bit stands for a zone past s_nzones. */
  ghost predicate OnlyPastTheEnd(fs: Fs) {
    (exists j :: 0 <= j < |fs.bits| && !fs.bits[j]) &&
    forall j :: 0 <= j < |fs.bits| && !fs.bits[j] ==> |fs.data| <= j + fs.first - 1
  }

  /** new_block fails and takes a bit all the same exactly when the only clear bits lie past s_nzones. */
  lemma FailureTakesABit(fs: Fs)
    requires Shape(fs)
    ensures NewBlock(fs).z == 0 && NewBlock(fs).fs != fs <==> OnlyPastTheEnd(fs)
    ensures OnlyPastTheEnd(fs) ==> exists j ::
              0 <= j < |fs.bits| && !fs.bits[j] && NewBlock(fs).fs == fs.(bits := fs.bits[j := true])
  {
    hide FirstZero;
    var j := FirstZero(fs.bits);
    if j < |fs.bits| {
      assert j != 0;
      assert fs.bits[j := true][j] != fs.bits[j];
      assert NewBlock(fs).fs.bits[j];
    }
  }

  /** A device with one data zone, zone 4, and one file, still empty, as a map of one block describes it. */
  function SmallDisk(): (fs: Fs)
    ensures Unused(fs) && |fs.data| == fs.first + 1 == 5 && |fs.bits| == 8192 && |fs.inodes| == 1
    ensures forall j :: 0 < j < |fs.bits| ==> !fs.bits[j]
  {
    Fs(4, seq(8192, j => j == 0), seq(5, _ => Zeros()), [Inode([0, 0, 0, 0, 0, 0, 0, 0, 0], 0)])
  }

  /** On it the first block of the file takes the only zone; the next new_block fails, and takes bit 2. */
  lemma SecondBlockTakesABit()
    ensures Inv(SmallDisk()) && Vacant(SmallDisk(), Root(0, 0))
    ensures var r := Allocate(SmallDisk(), Root(0, 0));
            && r.z == 4 && Inv(r.fs) && Full(r.fs) && OnlyPastTheEnd(r.fs)
            && NewBlock(r.fs) == Got(r.fs.(bits := r.fs.bits[2 := true]), 0) && !r.fs.bits[2]
  {
    var fs := SmallDisk();
    UnusedIsFine(fs);
    AllocateKeeps(fs, Root(0, 0));
    SmallDiskStep(fs);
  }

  lemma SmallDiskStep(fs: Fs)
    requires Unused(fs) && |fs.data| == fs.first + 1 == 5 && |fs.bits| == 8192 && |fs.inodes| == 1
    requires forall j :: 0 < j < |fs.bits| ==> !fs.bits[j]
    ensures var r := Allocate(fs, Root(0, 0));
            && r.z == 4 && Shape(r.fs) && Full(r.fs) && OnlyPastTheEnd(r.fs)
            && NewBlock(r.fs) == Got(r.fs.(bits := r.fs.bits[2 := true]), 0) && !r.fs.bits[2]
  {
    hide FirstZero;
    FirstZeroIs(fs.bits, 1);
    var r := Allocate(fs, Root(0, 0));
    assert r.fs.bits == fs.bits[1 := true];
    FirstZeroIs(r.fs.bits, 2);
    assert !r.fs.bits[2];
  }

  lemma FirstZeroIs(bits: seq<bool>, j: nat)
    requires j < |bits| && !bits[j] && forall i :: 0 <= i < j ==> bits[i]
    ensures FirstZero(bits) == j
  {
    hide FirstZero;
    var k := FirstZero(bits);
    assert !bits[j];
    assert k <= j;
    assert !bits[k];
  }

  /** Clearing a zone nothing names leaves every place and every file as it was. */
  lemma {:induction false} ClearUnnamed(fs: Fs, fs': Fs, z: Zone, p: Place)
    requires Shape(fs) && Shape(fs') && !Referenced(fs, z) && z < |fs.data| && fs'.data == fs.data[z := Zeros()]
    requires fs'.inodes == fs.inodes && Wf(|fs.inodes|, p)
    ensures ZoneAt(fs', p) == ZoneAt(fs, p)
    decreases p
  {
    hide GetShort;
    if p.Entry? {
      ClearUnnamed(fs, fs', z, p.parent);
      assert ZoneAt(fs, p.parent) != z;
    }
  }

  /** Take a new block and name it at p. */
  function Allocate(fs: Fs, p: Place): (r: Got)
    requires Shape(fs) && Vacant(fs, p)
    ensures Shape(r.fs)
  {
    var n := NewBlock(fs);
    // The second test never fails where zones are conserved: clearing a free zone moves no entry.
    if n.z == 0 || !(p.Entry? ==> 0 < ZoneAt(n.fs, p.parent) < |n.fs.data|) then n else Got(SetAt(n.fs, p, n.z), n.z)
  }

  /** The state after new_block succeeded and before the zone is named. */
  lemma NewBlockReady(fs: Fs, p: Place)
    requires Inv(fs) && Vacant(fs, p) && NewBlock(fs).z != 0
    ensures var n := NewBlock(fs);
            && Fresh(n.fs, n.z) && Vacant(n.fs, p) && InRange(n.fs) && Injective(n.fs) && SameViews(fs, n.fs)
            && (forall q :: Wf(|fs.inodes|, q) ==> ZoneAt(n.fs, q) == ZoneAt(fs, q))
  {
    hide NewBlock, GetShort, LeafOf;
    var n := NewBlock(fs);
    NewBlockIsFresh(fs);
    forall q | Wf(|fs.inodes|, q) ensures ZoneAt(n.fs, q) == ZoneAt(fs, q) && ZoneAt(fs, q) != n.z {
      ClearUnnamed(fs, n.fs, n.z, q);
    }
    hide ZoneAt;
    assert SameViews(fs, n.fs);
  }

  lemma AllocateKeeps(fs: Fs, p: Place)
    requires Inv(fs) && Vacant(fs, p)
    ensures var r := Allocate(fs, p);
            && |r.fs.inodes| == |fs.inodes| && |r.fs.data| == |fs.data| && r.fs.first == fs.first
            && Inv(r.fs) && SameViews(fs, r.fs) && SameSizes(fs, r.fs)
            && (if r.z == 0 then Full(r.fs) else fs.first <= r.z < |fs.data| && ZoneAt(r.fs, p) == r.z)
  {
    hide NewBlock, SetAt, ZoneAt, ByteAt, InRange, Injective, Marked;
    var n := NewBlock(fs);
    NewBlockIsFresh(fs);
    if n.z == 0 {
      NothingNew(fs, n.fs);
    } else {
      NewBlockReady(fs, p);
      SetAtSizes(n.fs, p, n.z);
      SetAtKeepsRange(n.fs, p, n.z);
      SetAtZone(n.fs, p, n.z, p);
      AllocateViews(fs, n.fs, p, n.z);
      AllocateConserves(fs, n.fs, p, n.z);
    }
  }

  ghost predicate SameSizes(fs: Fs, fs': Fs) {
    |fs'.inodes| == |fs.inodes| && forall i :: 0 <= i < |fs.inodes| ==> fs'.inodes[i].size == fs.inodes[i].size
  }

  /** A failed new_block changes nothing but bits that stand for no zone. */
  lemma NothingNew(fs: Fs, fs': Fs)
    requires Inv(fs) && Shape(fs') && fs'.data == fs.data && fs'.inodes == fs.inodes && fs'.first == fs.first
    requires Full(fs) && forall w :: fs.first <= w < |fs.data| ==> Marked(fs', w)
    ensures Inv(fs') && Full(fs') && SameViews(fs, fs') && SameSizes(fs, fs')
  {
    hide GetShort, LeafOf, Marked;
    forall q | Wf(|fs.inodes|, q) ensures ZoneAt(fs', q) == ZoneAt(fs, q) { SameZones(fs, fs', q); }
    hide ZoneAt;
    forall z | fs.first <= z < |fs.data| ensures Referenced(fs', z) {
      assert Marked(fs, z) && Referenced(fs, z);
      var q :| Wf(|fs.inodes|, q) && ZoneAt(fs, q) == z;
      assert ZoneAt(fs', q) == z;
    }
  }

  lemma {:induction false} SameZones(fs: Fs, fs': Fs, p: Place)
    requires Shape(fs) && Shape(fs') && fs'.data == fs.data && fs'.inodes == fs.inodes && Wf(|fs.inodes|, p)
    ensures ZoneAt(fs', p) == ZoneAt(fs, p)
    decreases p
  {
    if p.Entry? { SameZones(fs, fs', p.parent); }
  }

  lemma AllocateViews(fs: Fs, fs1: Fs, p: Place, z: Zone)
    requires Shape(fs) && Shape(fs1) && |fs1.inodes| == |fs.inodes| && SameViews(fs, fs1)
    requires Injective(fs1) && Fresh(fs1, z) && Vacant(fs1, p)
    ensures |SetAt(fs1, p, z).inodes| == |fs.inodes| && SameViews(fs, SetAt(fs1, p, z))
  {
    hide SetAt, ZoneAt, ByteAt, Injective;
    SetAtSizes(fs1, p, z);
    forall ino, pos | 0 <= ino < |fs.inodes| && 0 <= pos < BLOCKS * BLOCK_SIZE
      ensures ByteAt(SetAt(fs1, p, z), ino, pos) == ByteAt(fs, ino, pos)
    {
      SetAtBytes(fs1, p, z, ino, pos);
    }
  }

  lemma AllocateConserves(fs: Fs, fs1: Fs, p: Place, z: Zone)
    requires Inv(fs) && Shape(fs1) && |fs1.inodes| == |fs.inodes| && |fs1.data| == |fs.data| && fs1.first == fs.first
    requires Injective(fs1) && Fresh(fs1, z) && Vacant(fs1, p)
    requires forall q :: Wf(|fs.inodes|, q) ==> ZoneAt(fs1, q) == ZoneAt(fs, q)
    requires forall w :: fs.first <= w < |fs.data| ==> (Marked(fs1, w) <==> w == z || Marked(fs, w))
    ensures Conserved(SetAt(fs1, p, z))
  {
    hide SetAt, ZoneAt, InRange, Injective;
    var fs' := SetAt(fs1, p, z);
    SetAtSizes(fs1, p, z);
    forall w | fs'.first <= w < |fs'.data| ensures Marked(fs', w) <==> Referenced(fs', w) {
      SetAtReferences(fs1, p, z, w);
      assert Referenced(fs1, w) <==> Referenced(fs, w);
    }
  }

  /** The creating half of _bmap: give every place on the way to p a zone. */
  function CreateAt(fs: Fs, p: Place): (r: Got)
    requires Shape(fs) && Wf(|fs.inodes|, p)
    ensures Shape(r.fs) && |r.fs.inodes| == |fs.inodes|
  {
    match p
    case Root(_, _) => Ensure(fs, p)
    case Entry(q, _) =>
      var up := CreateAt(fs, q);
      if up.z == 0 then up else Ensure(up.fs, p)
  }

  /** The zone of p, allocated if there is none. */
  function Ensure(fs: Fs, p: Place): (r: Got)
    requires Shape(fs) && Wf(|fs.inodes|, p)
    ensures Shape(r.fs) && |r.fs.inodes| == |fs.inodes|
  {
    if ZoneAt(fs, p) != 0 then Got(fs, ZoneAt(fs, p))
    else if p.Entry? && !(0 < ZoneAt(fs, p.parent) < |fs.data|) then Got(fs, 0)
    else Allocate(fs, p)
  }

  /** What create_block promises. */
  ghost predicate Created(fs: Fs, p: Place, r: Got)
    requires Shape(fs) && Wf(|fs.inodes|, p)
  {
    && Inv(r.fs) && |r.fs.inodes| == |fs.inodes| && |r.fs.data| == |fs.data| && r.fs.first == fs.first
    && SameViews(fs, r.fs) && SameSizes(fs, r.fs)
    && (if r.z == 0 then Full(r.fs) else fs.first <= r.z < |fs.data| && ZoneAt(r.fs, p) == r.z)
  }

  lemma {:induction false} CreateKeeps(fs: Fs, p: Place)
    requires Inv(fs) && Wf(|fs.inodes|, p)
    ensures Created(fs, p, CreateAt(fs, p))
    decreases p
  {
    hide ZoneAt, Allocate, Injective, Conserved, ByteAt, Shape;
    var up := if p.Entry? then CreateAt(fs, p.parent) else Got(fs, 0);
    if p.Entry? { CreateKeeps(fs, p.parent); }
    if p.Root? || up.z != 0 {
      if ZoneAt(up.fs, p) == 0 { AllocateKeeps(up.fs, p); }
    }
  }
}
