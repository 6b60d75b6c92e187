/** Zones of a Minix file system: where an inode keeps them and what its bytes are. */
module ZoneTree {
  const BLOCK_SIZE: nat := 1024
  /** Entries of an indirect block. */
  const FAN: nat := 512
  /** Blocks _bmap can address; it panics beyond. */
  const BLOCKS: nat := 7 + 512 + 512 * 512

  type Byte = x: nat | x < 0x100
  type Zone = x: nat | x < 0x1_0000
  type Block = b: seq<Byte> | |b| == BLOCK_SIZE witness seq(BLOCK_SIZE, _ => 0)

  datatype Inode = Inode(zone: seq<Zone>, size: nat)

  /** One mounted device: its zone bitmap, its zones and its inodes. */
  datatype Fs = Fs(first: nat, bits: seq<bool>, data: seq<Block>, inodes: seq<Inode>)

  /** A slot that can name a zone: one of i_zone, or an entry of an indirect block. */
  datatype Place = Root(ino: nat, k: nat) | Entry(parent: Place, k: nat)

  /** Places whose zone is an indirect block rather than file data. */
  predicate IsNode(p: Place) {
    match p
    case Root(_, k) => k == 7 || k == 8
    case Entry(q, _) => q.Root? && q.k == 8
  }

  predicate Wf(n: nat, p: Place) {
    match p
    case Root(ino, k) => ino < n && k < 9
    case Entry(q, k) => k < FAN && IsNode(q) && Wf(n, q)
  }

  function Owner(p: Place): nat {
    match p case Root(ino, _) => ino case Entry(q, _) => Owner(q)
  }

  /** The unsigned short at index k, least significant byte first. */
  function GetShort(b: Block, k: nat): Zone
    requires k < FAN
  {
    (b[2 * k] as int) + 0x100 * (b[2 * k + 1] as int)
  }

  function SetShort(b: Block, k: nat, v: Zone): Block
    requires k < FAN
  {
    b[2 * k := v % 0x100][2 * k + 1 := v / 0x100]
  }

  lemma GetSet(b: Block, k: nat, v: Zone, j: nat)
    requires k < FAN && j < FAN
    ensures GetShort(SetShort(b, k, v), j) == if j == k then v else GetShort(b, j)
  {
  }

  function Zeros(): (b: Block)
    ensures forall i :: 0 <= i < BLOCK_SIZE ==> b[i] == 0
  {
    seq(BLOCK_SIZE, _ => 0)
  }

  lemma ZeroShort(k: nat)
    requires k < FAN
    ensures GetShort(Zeros(), k) == 0
  {
  }

  /** first is s_firstdatazone and |data| is s_nzones; bit j stands for zone j + first - 1. */
  ghost predicate Shape(fs: Fs) {
    && 0 < fs.first <= |fs.data| < 0x1_0000
    && |fs.data| - fs.first < |fs.bits| && fs.bits[0]
    && forall i :: 0 <= i < |fs.inodes| ==> |fs.inodes[i].zone| == 9
  }

  function ZoneAt(fs: Fs, p: Place): Zone
    requires Shape(fs) && Wf(|fs.inodes|, p)
  {
    match p
    case Root(ino, k) => fs.inodes[ino].zone[k]
    case Entry(q, k) =>
      var z := ZoneAt(fs, q);
      if z == 0 || z >= |fs.data| then 0 else GetShort(fs.data[z], k)
  }

  ghost predicate InRange(fs: Fs)
    requires Shape(fs)
  {
    forall p :: Wf(|fs.inodes|, p) ==> ZoneAt(fs, p) == 0 || fs.first <= ZoneAt(fs, p) < |fs.data|
  }

  /** No zone is named twice. */
  ghost predicate Injective(fs: Fs)
    requires Shape(fs)
  {
    forall p, q :: Wf(|fs.inodes|, p) && Wf(|fs.inodes|, q) && ZoneAt(fs, p) == ZoneAt(fs, q) != 0 ==> p == q
  }

  ghost predicate Referenced(fs: Fs, z: nat)
    requires Shape(fs)
  {
    exists p :: Wf(|fs.inodes|, p) && ZoneAt(fs, p) == z
  }

  predicate Marked(fs: Fs, z: nat)
    requires Shape(fs) && fs.first <= z < |fs.data|
  {
    fs.bits[z - fs.first + 1]
  }

  /** A data zone's bit is set exactly when some place names the zone. */
  ghost predicate Conserved(fs: Fs)
    requires Shape(fs)
  {
    forall z :: fs.first <= z < |fs.data| ==> (Marked(fs, z) <==> Referenced(fs, z))
  }

  ghost predicate Inv(fs: Fs) {
    Shape(fs) && InRange(fs) && Injective(fs) && Conserved(fs)
  }

  /** A device on which nothing is stored yet. */
  ghost predicate Unused(fs: Fs) {
    && Shape(fs) && (forall z :: fs.first <= z < |fs.data| ==> !Marked(fs, z))
    && forall i, k :: 0 <= i < |fs.inodes| && 0 <= k < 9 ==> fs.inodes[i].zone[k] == 0
  }

  lemma UnusedIsFine(fs: Fs)
    requires Unused(fs)
    ensures Inv(fs)
  {
    forall p | Wf(|fs.inodes|, p) ensures ZoneAt(fs, p) == 0 { UnusedZone(fs, p); }
  }

  lemma {:induction false} UnusedZone(fs: Fs, p: Place)
    requires Unused(fs) && Wf(|fs.inodes|, p)
    ensures ZoneAt(fs, p) == 0
    decreases p
  {
    if p.Entry? { UnusedZone(fs, p.parent); }
  }

  /** Every data zone is taken. */
  ghost predicate Full(fs: Fs)
    requires Shape(fs)
  {
    forall z :: fs.first <= z < |fs.data| ==> Marked(fs, z)
  }

  // ---------------------------------------------------------------- the flat view

  lemma MiddleIs(ino: nat, k: nat)
    requires k < FAN
    ensures var q := Entry(Root(ino, 8), k); IsNode(q) && Owner(q) == ino && forall n :: ino < n ==> Wf(n, q)
  {
    assert forall n :: ino < n ==> Wf(n, Root(ino, 8));
  }

  /** The place that names the zone of one block of a file. */
  function LeafOf(ino: nat, block: nat): (p: Place)
    requires block < BLOCKS
    ensures !IsNode(p) && Owner(p) == ino
    ensures forall n :: ino < n ==> Wf(n, p)
  {
    if block < 7 then Root(ino, block)
    else if block < 7 + FAN then Entry(Root(ino, 7), block - 7)
    else
      var q := Entry(Root(ino, 8), (block - 7 - FAN) / FAN);
      MiddleIs(ino, (block - 7 - FAN) / FAN);
      Entry(q, (block - 7 - FAN) % FAN)
  }

  /**
   * Where the zone of a block is kept: in i_zone itself, as a short of the block i_zone[7] names, or
   * as one of a block that a short of the block i_zone[8] names, all in file order, low byte first.
   */
  lemma BlockLayout(fs: Fs, ino: nat, block: nat)
    requires Inv(fs) && ino < |fs.inodes| && block < BLOCKS
    ensures var z, i := ZoneAt(fs, LeafOf(ino, block)), fs.inodes[ino].zone;
            if block < 7 then z == i[block]
            else if block < 519 then z == ShortIn(fs, i[7], 2 * (block - 7))
            else z == ShortIn(fs, ShortIn(fs, i[8], 2 * ((block - 519) / 512)), 2 * ((block - 519) % 512))
  {
    hide Injective, Conserved;
    assert Wf(|fs.inodes|, Root(ino, 7)) && Wf(|fs.inodes|, Root(ino, 8)) && Wf(|fs.inodes|, LeafOf(ino, block));
    if block >= 519 { assert Wf(|fs.inodes|, Entry(Root(ino, 8), (block - 519) / 512)); }
  }

  /** The short at a byte offset of zone z, and 0 when there is no such zone. */
  function ShortIn(fs: Fs, z: nat, at: nat): nat
    requires at + 1 < BLOCK_SIZE
  {
    if z == 0 || z >= |fs.data| then 0 else fs.data[z][at] as int + 0x100 * (fs.data[z][at + 1] as int)
  }

  lemma LeafOfIsInjective(i: nat, a: nat, j: nat, b: nat)
    requires a < BLOCKS && b < BLOCKS && LeafOf(i, a) == LeafOf(j, b)
    ensures i == j && a == b
  {
    if a >= 7 + FAN {
      assert a - 7 - FAN == (a - 7 - FAN) / FAN * FAN + (a - 7 - FAN) % FAN;
      assert b - 7 - FAN == (b - 7 - FAN) / FAN * FAN + (b - 7 - FAN) % FAN;
    }
  }

  /** A byte of a file; blocks without a zone read as zero. */
  function ByteAt(fs: Fs, ino: nat, pos: nat): Byte
    requires Shape(fs) && ino < |fs.inodes| && pos < BLOCKS * BLOCK_SIZE
  {
    var z := ZoneAt(fs, LeafOf(ino, pos / BLOCK_SIZE));
    if z == 0 || z >= |fs.data| then 0 else fs.data[z][pos % BLOCK_SIZE]
  }

  /** The whole file as one array of bytes, as far as _bmap can address it. */
  function View(fs: Fs, ino: nat): (v: seq<Byte>)
    requires Shape(fs) && ino < |fs.inodes|
    ensures |v| == BLOCKS * BLOCK_SIZE && forall pos :: 0 <= pos < |v| ==> v[pos] == ByteAt(fs, ino, pos)
  {
    seq(BLOCKS * BLOCK_SIZE, pos requires 0 <= pos < BLOCKS * BLOCK_SIZE => ByteAt(fs, ino, pos))
  }

  /** The same file contents for every inode. */
  ghost predicate SameViews(fs: Fs, fs': Fs)
    requires Shape(fs) && Shape(fs') && |fs'.inodes| == |fs.inodes|
  {
    forall ino, pos :: 0 <= ino < |fs.inodes| && 0 <= pos < BLOCKS * BLOCK_SIZE ==>
        ByteAt(fs', ino, pos) == ByteAt(fs, ino, pos)
  }

  // ---------------------------------------------------------------- naming a new zone

  function SetAt(fs: Fs, p: Place, z: Zone): (r: Fs)
    requires Shape(fs) && Wf(|fs.inodes|, p) && (p.Entry? ==> 0 < ZoneAt(fs, p.parent) < |fs.data|)
    ensures Shape(r)
  {
    match p
    case Root(ino, k) => fs.(inodes := fs.inodes[ino := fs.inodes[ino].(zone := fs.inodes[ino].zone[k := z])])
    case Entry(q, k) => var w := ZoneAt(fs, q); fs.(data := fs.data[w := SetShort(fs.data[w], k, z)])
  }

  /** z is a zone that nothing names and that reads as zeros. */
  ghost predicate Fresh(fs: Fs, z: Zone)
    requires Shape(fs)
  {
    fs.first <= z < |fs.data| && !Referenced(fs, z) && fs.data[z] == Zeros()
  }

  /** p may be given a zone: it has none, and the block it is kept in exists. */
  ghost predicate Vacant(fs: Fs, p: Place)
    requires Shape(fs)
  {
    Wf(|fs.inodes|, p) && ZoneAt(fs, p) == 0 && (p.Entry? ==> 0 < ZoneAt(fs, p.parent) < |fs.data|)
  }

  /** Giving a fresh zone to one place changes what no other place names. */
  lemma {:induction false} SetAtZone(fs: Fs, p: Place, z: Zone, q: Place)
    requires Shape(fs) && Injective(fs) && Fresh(fs, z) && Vacant(fs, p) && Wf(|fs.inodes|, q)
    ensures ZoneAt(SetAt(fs, p, z), q) == if q == p then z else ZoneAt(fs, q)
    decreases q
  {
    hide GetShort, SetShort, Injective;
    if q.Entry? {
      SetAtZone(fs, p, z, q.parent);
      ZeroShort(q.k);
      if p.Entry? {
        var w := ZoneAt(fs, p.parent);
        GetSet(fs.data[w], p.k, z, q.k);
        if ZoneAt(fs, q.parent) == w { OnePlace(fs, p.parent, q.parent); }
      }
    }
  }

  lemma OnePlace(fs: Fs, p: Place, q: Place)
    requires Shape(fs) && Injective(fs) && Wf(|fs.inodes|, p) && Wf(|fs.inodes|, q)
             && ZoneAt(fs, p) == ZoneAt(fs, q) != 0
    ensures p == q
  {
  }

  /** The bytes of files do not change when a place is given a fresh zone. */
  lemma SetAtBytes(fs: Fs, p: Place, z: Zone, ino: nat, pos: nat)
    requires Shape(fs) && Injective(fs) && Fresh(fs, z) && Vacant(fs, p) && ino < |fs.inodes|
             && pos < BLOCKS * BLOCK_SIZE
    ensures ByteAt(SetAt(fs, p, z), ino, pos) == ByteAt(fs, ino, pos)
  {
    hide GetShort, SetShort, Injective, LeafOf;
    var q := LeafOf(ino, pos / BLOCK_SIZE);
    SetAtZone(fs, p, z, q);
    if p.Entry? && ZoneAt(fs, q) == ZoneAt(fs, p.parent) { OnePlace(fs, p.parent, q); }
  }

  lemma SetAtKeepsRange(fs: Fs, p: Place, z: Zone)
    requires Shape(fs) && InRange(fs) && Injective(fs) && Fresh(fs, z) && Vacant(fs, p)
    ensures InRange(SetAt(fs, p, z)) && Injective(SetAt(fs, p, z))
  {
    hide SetAt, ZoneAt;
    var fs' := SetAt(fs, p, z);
    SetAtSizes(fs, p, z);
    forall q | Wf(|fs'.inodes|, q) ensures ZoneAt(fs', q) == 0 || fs'.first <= ZoneAt(fs', q) < |fs'.data| {
      SetAtZone(fs, p, z, q);
    }
    forall q, r | Wf(|fs'.inodes|, q) && Wf(|fs'.inodes|, r) && ZoneAt(fs', q) == ZoneAt(fs', r) != 0 ensures q == r {
      SetAtZone(fs, p, z, q);
      SetAtZone(fs, p, z, r);
    }
  }

  lemma SetAtSizes(fs: Fs, p: Place, z: Zone)
    requires Shape(fs) && Vacant(fs, p)
    ensures var r := SetAt(fs, p, z);
            |r.inodes| == |fs.inodes| && |r.data| == |fs.data| && r.first == fs.first && r.bits == fs.bits
    ensures var r := SetAt(fs, p, z); forall i :: 0 <= i < |fs.inodes| ==> r.inodes[i].size == fs.inodes[i].size
  {
  }

  lemma SetAtReferences(fs: Fs, p: Place, z: Zone, w: nat)
    requires Shape(fs) && Injective(fs) && Fresh(fs, z) && Vacant(fs, p) && w != 0
    ensures Referenced(SetAt(fs, p, z), w) <==> w == z || Referenced(fs, w)
  {
    hide SetAt, ZoneAt, Injective;
    var fs' := SetAt(fs, p, z);
    SetAtSizes(fs, p, z);
    forall q | Wf(|fs.inodes|, q) ensures ZoneAt(fs', q) == if q == p then z else ZoneAt(fs, q) {
      SetAtZone(fs, p, z, q);
    }
    assert ZoneAt(fs', p) == z;
  }
}
