/** inode.c, bitmap.c, truncate.c and file_dev.c on one mounted device, changed in place. */
module MinixFile {
  import opened ZoneTree
  import opened ZoneFiles
  import Z = ZoneAlloc

  /** Bits of one zone map block, and the number of such blocks a superblock can hold. */
  const MAP_BITS: nat := 8192
  const Z_MAP_SLOTS: nat := 8

  function PutBytes(b: Block, off: nat, chunk: seq<Byte>): Block
    requires off + |chunk| <= BLOCK_SIZE
  {
    b[..off] + chunk + b[off + |chunk|..]
  }

  /** v with the bytes from pos on replaced. */
  function Overwrite(v: seq<Byte>, pos: nat, bytes: seq<Byte>): seq<Byte>
    requires pos + |bytes| <= |v|
  {
    v[..pos] + bytes + v[pos + |bytes|..]
  }

  function Max(a: int, b: int): int {
    if a < b then b else a
  }

  /** fs is fs0 with bytes written at pos of file ino, and no other byte of any file changed. */
  ghost predicate Written(fs0: Fs, fs: Fs, ino: nat, pos: nat, bytes: seq<Byte>) {
    && Shape(fs0) && Shape(fs) && |fs.inodes| == |fs0.inodes| && ino < |fs.inodes|
       && (bytes != [] ==> pos + |bytes| <= BLOCKS * BLOCK_SIZE)
    && forall i, p :: 0 <= i < |fs.inodes| && 0 <= p < BLOCKS * BLOCK_SIZE ==>
         ByteAt(fs, i, p) == if i == ino && pos <= p < pos + |bytes| then bytes[p - pos] else ByteAt(fs0, i, p)
  }

  /** Only the size of ino may have changed. */
  ghost predicate Sized(fs0: Fs, fs: Fs, ino: nat, size: nat) {
    |fs.inodes| == |fs0.inodes| && forall i :: 0 <= i < |fs.inodes| ==>
        fs.inodes[i].size == if i == ino then size else fs0.inodes[i].size
  }

  lemma WrittenMore(fs0: Fs, fs1: Fs, fs2: Fs, ino: nat, pos0: nat, done: seq<Byte>, chunk: seq<Byte>)
    requires Written(fs0, fs1, ino, pos0, done) && Injective(fs1) && chunk != []
    requires var pos := pos0 + |done|;
             && pos / BLOCK_SIZE < BLOCKS && pos % BLOCK_SIZE + |chunk| <= BLOCK_SIZE
             && 0 < ZoneAt(fs1, LeafOf(ino, pos / BLOCK_SIZE)) < |fs1.data|
    requires var pos := pos0 + |done|;
             var leaf := LeafOf(ino, pos / BLOCK_SIZE);
             fs2 == PutBlock(fs1, leaf, PutBytes(fs1.data[ZoneAt(fs1, leaf)], pos % BLOCK_SIZE, chunk))
    ensures Written(fs0, fs2, ino, pos0, done + chunk)
  {
    hide ZoneAt, Injective, LeafOf, ByteAt, Shape, PutBlock, PutBytes;
    var pos := pos0 + |done|;
    var block, off := pos / BLOCK_SIZE, pos % BLOCK_SIZE;
    var leaf := LeafOf(ino, block);
    var old1 := fs1.data[ZoneAt(fs1, leaf)];
    var b := PutBytes(old1, off, chunk);
    PutBlockSizes(fs1, leaf, b);
    assert pos == block * BLOCK_SIZE + off;
    forall i, p | 0 <= i < |fs2.inodes| && 0 <= p < BLOCKS * BLOCK_SIZE
      ensures ByteAt(fs2, i, p) == if i == ino && pos0 <= p < pos0 + |done + chunk| then (done + chunk)[p - pos0]
              else ByteAt(fs0, i, p)
    {
      PutBlockByte(fs1, ino, block, b, i, p);
      if i == ino && p / BLOCK_SIZE == block {
        SameBlock(p, pos);
        PutBytesAt(old1, off, chunk, p % BLOCK_SIZE);
        ByteOfBlock(fs1, ino, p);
      } else {
        OtherBlock(p, pos, |chunk|);
      }
    }
  }

  lemma PutBlockSizes(fs: Fs, q: Place, b: Block)
    requires Shape(fs) && Wf(|fs.inodes|, q) && 0 < ZoneAt(fs, q) < |fs.data|
    ensures Shape(PutBlock(fs, q, b)) && PutBlock(fs, q, b).inodes == fs.inodes
  {
  }

  lemma PutBytesAt(b: Block, off: nat, chunk: seq<Byte>, i: nat)
    requires off + |chunk| <= BLOCK_SIZE && i < BLOCK_SIZE
    ensures PutBytes(b, off, chunk)[i] == if off <= i < off + |chunk| then chunk[i - off] else b[i]
  {
  }

  lemma SameBlock(p: nat, pos: nat)
    requires p / BLOCK_SIZE == pos / BLOCK_SIZE
    ensures p % BLOCK_SIZE - pos % BLOCK_SIZE == p - pos
  {
  }

  lemma OtherBlock(p: nat, pos: nat, c: nat)
    requires pos % BLOCK_SIZE + c <= BLOCK_SIZE
    ensures p / BLOCK_SIZE != pos / BLOCK_SIZE ==> !(pos <= p < pos + c)
  {
  }

  lemma ByteOfBlock(fs: Fs, ino: nat, p: nat)
    requires Shape(fs) && ino < |fs.inodes| && p < BLOCKS * BLOCK_SIZE
    ensures var z := ZoneAt(fs, LeafOf(ino, p / BLOCK_SIZE));
            0 < z < |fs.data| ==> ByteAt(fs, ino, p) == fs.data[z][p % BLOCK_SIZE]
  {
    hide LeafOf;
  }

  lemma WrittenThrough(fs0: Fs, fs1: Fs, fs2: Fs, ino: nat, pos: nat, bytes: seq<Byte>)
    requires Written(fs0, fs1, ino, pos, bytes) && Shape(fs2) && |fs2.inodes| == |fs1.inodes| && SameViews(fs1, fs2)
    ensures Written(fs0, fs2, ino, pos, bytes)
  {
    hide ByteAt, Shape;
  }

  /** What Written says of whole files. */
  lemma WrittenViews(fs0: Fs, fs: Fs, ino: nat, pos: nat, bytes: seq<Byte>)
    requires Written(fs0, fs, ino, pos, bytes) && pos + |bytes| <= BLOCKS * BLOCK_SIZE
    ensures View(fs, ino) == Overwrite(View(fs0, ino), pos, bytes)
    ensures forall i :: 0 <= i < |fs.inodes| && i != ino ==> View(fs, i) == View(fs0, i)
  {
    hide ByteAt, Shape;
    var v, w := View(fs, ino), Overwrite(View(fs0, ino), pos, bytes);
    forall p | 0 <= p < |v| ensures v[p] == w[p] { assert v[p] == ByteAt(fs, ino, p); }
    forall i | 0 <= i < |fs.inodes| && i != ino ensures View(fs, i) == View(fs0, i) {
      forall p | 0 <= p < |v| ensures View(fs, i)[p] == View(fs0, i)[p] { assert View(fs, i)[p] == ByteAt(fs, i, p); }
    }
  }

  /** struct file: the position, and whether O_APPEND is set. */
  class File {
    var pos: nat
    const append: bool

    constructor (append: bool)
      ensures pos == 0 && this.append == append
    {
      this.pos, this.append := 0, append;
    }
  }

  class Device {
    const first: nat
    var bits: seq<bool>
    var data: seq<Block>
    var inodes: seq<Inode>

    ghost function Abs(): Fs
      reads this
    {
      Fs(first, bits, data, inodes)
    }

    /** The zone map is a whole number of blocks, at most eight. */
    ghost predicate MapOk()
      reads this
    {
      |bits| % MAP_BITS == 0 && |bits| <= Z_MAP_SLOTS * MAP_BITS
    }

    ghost predicate Valid()
      reads this
    {
      Inv(Abs()) && MapOk()
    }

    /** A device as it is found mounted. */
    constructor (fs: Fs)
      requires Inv(fs) && |fs.bits| % MAP_BITS == 0 && |fs.bits| <= Z_MAP_SLOTS * MAP_BITS
      ensures Valid() && Abs() == fs
    {
      first, bits, data, inodes := fs.first, fs.bits, fs.data, fs.inodes;
    }

    // -------------------------------------------------------------- bitmap.c

    /** The first clear bit of map block i, or 8192. */
    method FindFirstZero(i: nat) returns (j: nat)
      requires MAP_BITS * (i + 1) <= |bits|
      ensures j <= MAP_BITS && (j < MAP_BITS ==> !bits[MAP_BITS * i + j])
      ensures forall k :: MAP_BITS * i <= k < MAP_BITS * i + j ==> bits[k]
    {
      j := 0;
      while j < MAP_BITS && bits[MAP_BITS * i + j]
        invariant j <= MAP_BITS && forall k :: MAP_BITS * i <= k < MAP_BITS * i + j ==> bits[k]
      {
        j := j + 1;
      }
    }

    /** The search of new_block through the map blocks: bit i * 8192 + j is the first clear one. */
    method SearchMap() returns (i: nat, j: nat)
      requires MapOk()
      ensures if i >= Z_MAP_SLOTS || j >= MAP_BITS then Z.FirstZero(bits) == |bits|
              else i * MAP_BITS + j < |bits| && Z.FirstZero(bits) == i * MAP_BITS + j
    {
      i, j := 0, MAP_BITS;
      ghost var m := |bits| / MAP_BITS;
      while i < Z_MAP_SLOTS
        invariant i <= Z_MAP_SLOTS && j == MAP_BITS
        invariant forall k :: 0 <= k < MAP_BITS * i && k < |bits| ==> bits[k]
      {
        if i * MAP_BITS < |bits| {
          assert i < m;
          j := FindFirstZero(i);
          if j < MAP_BITS {
            FirstIs(bits, i * MAP_BITS + j);
            return;
          }
        }
        i := i + 1;
      }
      FirstIs(bits, |bits|);
    }

    /** new_block refines its specification; its "bit already set" panic cannot happen. */
    method NewBlock() returns (z: Zone, panicked: bool)
      requires Shape(Abs()) && MapOk()
      modifies this`bits, this`data
      ensures !panicked && Z.Got(Abs(), z) == Z.NewBlock(old(Abs())) && MapOk()
    {
      hide Z.FirstZero;
      var i, j := SearchMap();
      if i >= Z_MAP_SLOTS || j >= MAP_BITS { return 0, false; }
      panicked := bits[i * MAP_BITS + j];
      bits := bits[i * MAP_BITS + j := true];
      j := j + i * MAP_BITS + first - 1;
      if j >= |data| { return 0, panicked; }
      data := data[j := Zeros()];
      z := j;
    }

    /** free_block; count is b_count of the block's buffer once get_hash_table has found it, 0 if it has none. */
    method FreeBlock(z: Zone, count: nat) returns (panicked: bool)
      requires Shape(Abs())
      modifies this`bits
      ensures panicked <==> !(first <= z < |data|) || (count <= 1 && !old(bits)[z - first + 1])
      ensures bits == if panicked || count > 1 then old(bits) else old(bits)[z - first + 1 := false]
    {
      if z < first || z >= |data| { return true; }
      if count != 0 && count != 1 { return false; }
      panicked := !bits[z - first + 1];
      bits := bits[z - first + 1 := false];
    }

    // -------------------------------------------------------------- inode.c

    /** i_zone[k], given a new block if create is set and there is none. */
    method RootZone(ino: nat, k: nat, create: bool) returns (z: Zone)
      requires Valid() && ino < |inodes| && k < 9
      modifies this
      ensures MapOk() && Shape(Abs()) && |inodes| == old(|inodes|)
      ensures if create then Z.Got(Abs(), z) == Z.Ensure(old(Abs()), Root(ino, k))
              else Abs() == old(Abs()) && z == ZoneAt(Abs(), Root(ino, k))
    {
      z := inodes[ino].zone[k];
      if create && z == 0 {
        var panicked;
        z, panicked := NewBlock();
        assert inodes[ino].zone[k := 0] == inodes[ino].zone;
        inodes := inodes[ino := inodes[ino].(zone := inodes[ino].zone[k := z])];
        assert z == 0 ==> inodes == old(inodes);
      }
    }

    /** Entry k of the indirect block that place q names, given a new block if create is set. */
    method EntryZone(w: Zone, ghost q: Place, k: nat, create: bool) returns (z: Zone)
      requires Valid() && Wf(|inodes|, q) && IsNode(q) && w == ZoneAt(Abs(), q) && w != 0 && k < FAN
      modifies this`bits, this`data
      ensures MapOk() && Shape(Abs())
      ensures if create then Z.Got(Abs(), z) == Z.Ensure(old(Abs()), Entry(q, k))
              else Abs() == old(Abs()) && z == ZoneAt(Abs(), Entry(q, k))
    {
      hide Injective, Conserved, GetShort, SetShort;
      ghost var fs0 := Abs();
      assert 0 < w < |data|;
      z := GetShort(data[w], k);
      if create && z == 0 {
        var panicked;
        z, panicked := NewBlock();
        if z != 0 {
          assert Vacant(fs0, Entry(q, k));
          Z.NewBlockReady(fs0, Entry(q, k));
          data := data[w := SetShort(data[w], k, z)];
        }
      }
    }

    /** _bmap: the zone of one block of a file, created on the way if asked. */
    method Bmap(ino: nat, block: int, create: bool) returns (z: Zone, panicked: bool)
      requires Valid() && ino < |inodes|
      modifies this
      ensures Valid() && (panicked <==> block < 0 || block >= BLOCKS)
      ensures panicked || !create ==> Abs() == old(Abs())
      ensures !panicked && create ==> Z.Got(Abs(), z) == Z.CreateAt(old(Abs()), LeafOf(ino, block))
      ensures !panicked && !create ==> z == ZoneAt(Abs(), LeafOf(ino, block))
    {
      hide Inv, Shape, Z.Ensure, GetShort;
      if block < 0 || block >= BLOCKS { return 0, true; }
      panicked := false;
      ghost var fs0 := Abs();
      if block < 7 {
        Z.CreateKeeps(fs0, Root(ino, block));
        z := RootZone(ino, block, create);
        return;
      }
      var b := block - 7;
      if b < FAN {
        Z.CreateKeeps(fs0, Root(ino, 7));
        Z.CreateKeeps(fs0, Entry(Root(ino, 7), b));
        z := RootZone(ino, 7, create);
        if z == 0 { return; }
        z := EntryZone(z, Root(ino, 7), b, create);
        return;
      }
      b := b - FAN;
      ghost var mid := Entry(Root(ino, 8), b / FAN);
      Z.CreateKeeps(fs0, Root(ino, 8));
      Z.CreateKeeps(fs0, mid);
      Z.CreateKeeps(fs0, Entry(mid, b % FAN));
      z := RootZone(ino, 8, create);
      if z == 0 { return; }
      z := EntryZone(z, Root(ino, 8), b / FAN, create);
      if z == 0 { return; }
      z := EntryZone(z, mid, b % FAN, create);
    }

    // -------------------------------------------------------------- truncate.c

    /** Frees the block of a place whose entries are data, and all of those. */
    method FreeInd(ghost fs: Fs, ghost top: Place, block: Zone) returns (panicked: bool)
      requires Inv(fs) && Fits(fs, bits) && Shape(Abs()) && data == fs.data && first == fs.first
      requires Wf(|fs.inodes|, top) && IsNode(top) && !IsNode(Entry(top, 0)) && block == ZoneAt(fs, top)
               && SetUnder(fs, bits, top)
      modifies this`bits
      ensures !panicked && Fits(fs, bits) && Shape(Abs()) && ClearedUnder(fs, old(bits), bits, top)
    {
      hide Inv, SetUnder, ClearedUnder, ClearedFirst, ZoneAt, GetShort;
      panicked := false;
      if block == 0 {
        ClearNothing(fs, bits, top);
        return;
      }
      ghost var was := bits;
      EntriesAre(fs, top);
      NoneYet(fs, was, top);
      var i := 0;
      while i < FAN
        invariant i <= FAN && !panicked && Fits(fs, bits) && Shape(Abs()) && ClearedFirst(fs, was, bits, top, i)
      {
        ghost var mid := bits;
        StillSet(fs, was, mid, top, i);
        if GetShort(data[block], i) != 0 {
          LeafSet(fs, mid, Entry(top, i));
          panicked := FreeBlock(GetShort(data[block], i), 0);
        } else {
          ClearNothing(fs, mid, Entry(top, i));
        }
        FirstGrows(fs, was, mid, bits, top, i);
        i := i + 1;
      }
      ClearNode(fs, was, bits, top);
      panicked := FreeBlock(block, 0);
    }

    /** Frees the block of a place whose entries are indirect blocks, and all under it. */
    method FreeDind(ghost fs: Fs, ghost top: Place, block: Zone) returns (panicked: bool)
      requires Inv(fs) && Fits(fs, bits) && Shape(Abs()) && data == fs.data && first == fs.first
      requires Wf(|fs.inodes|, top) && top.Root? && top.k == 8 && block == ZoneAt(fs, top) && SetUnder(fs, bits, top)
      modifies this`bits
      ensures !panicked && Fits(fs, bits) && Shape(Abs()) && ClearedUnder(fs, old(bits), bits, top)
    {
      hide Inv, SetUnder, ClearedUnder, ClearedFirst, ZoneAt, GetShort;
      panicked := false;
      if block == 0 {
        ClearNothing(fs, bits, top);
        return;
      }
      ghost var was := bits;
      EntriesAre(fs, top);
      NoneYet(fs, was, top);
      var i := 0;
      while i < FAN
        invariant i <= FAN && !panicked && Fits(fs, bits) && Shape(Abs()) && ClearedFirst(fs, was, bits, top, i)
      {
        ghost var mid := bits;
        StillSet(fs, was, mid, top, i);
        if GetShort(data[block], i) != 0 {
          panicked := FreeInd(fs, Entry(top, i), GetShort(data[block], i));
        } else {
          ClearNothing(fs, mid, Entry(top, i));
        }
        FirstGrows(fs, was, mid, bits, top, i);
        i := i + 1;
      }
      ClearNode(fs, was, bits, top);
      panicked := FreeBlock(block, 0);
    }

    /** truncate; plain says that the inode is a regular file or a directory. */
    method Truncate(ino: nat, plain: bool) returns (panicked: bool)
      requires Valid() && ino < |inodes|
      modifies this`bits, this`inodes
      ensures Valid() && !panicked
      ensures if plain then Truncated(old(Abs()), ino, Abs()) else Abs() == old(Abs())
    {
      panicked := false;
      if !plain { return; }
      ghost var fs := Abs();
      panicked := FreeDirect(ino);
      hide Inv, ClearedUnder, ClearedRoots, SetUnder, ZoneAt;
      ghost var mid := bits;
      RootsStillSet(fs, fs.bits, mid, ino, 7);
      RootsAre(fs, ino);
      panicked := FreeInd(fs, Root(ino, 7), inodes[ino].zone[7]);
      RootsGrow(fs, fs.bits, mid, bits, ino, 7);
      mid := bits;
      RootsStillSet(fs, fs.bits, mid, ino, 8);
      panicked := FreeDind(fs, Root(ino, 8), inodes[ino].zone[8]);
      RootsGrow(fs, fs.bits, mid, bits, ino, 8);
      inodes := inodes[ino := inodes[ino].(zone := inodes[ino].zone[7 := 0][8 := 0])];
      inodes := inodes[ino := inodes[ino].(size := 0)];
      assert inodes[ino].zone == [0, 0, 0, 0, 0, 0, 0, 0, 0];
      assert inodes == fs.inodes[ino := inodes[ino]];
      AllCleared(fs, ino, Abs());
      TruncateKeeps(fs, ino, Abs());
    }

    /** The loop of truncate over the direct zones. */
    method FreeDirect(ino: nat) returns (panicked: bool)
      requires Valid() && ino < |inodes|
      modifies this`bits, this`inodes
      ensures !panicked && Fits(old(Abs()), bits) && Shape(Abs()) && ClearedRoots(old(Abs()), old(bits), bits, ino, 7)
      ensures inodes == old(inodes)[ino := old(inodes)[ino].(zone := [0, 0, 0, 0, 0, 0, 0]
              + old(inodes)[ino].zone[7..])]
    {
      ghost var fs := Abs();
      ghost var zone := inodes[ino].zone;
      hide Inv, ClearedUnder, ClearedRoots, SetUnder, ZoneAt, Shape;
      NoRootYet(fs, ino);
      RootsAre(fs, ino);
      panicked := false;
      var i := 0;
      while i < 7
        invariant i <= 7 && !panicked && Fits(fs, bits) && Shape(Abs()) && ClearedRoots(fs, fs.bits, bits, ino, i)
        invariant |inodes| == |fs.inodes| && |inodes[ino].zone| == 9
        invariant forall k :: 0 <= k < 9 ==> inodes[ino].zone[k] == if k < i then 0 else zone[k]
        invariant inodes == fs.inodes[ino := fs.inodes[ino].(zone := inodes[ino].zone)]
      {
        ghost var mid := bits;
        RootsStillSet(fs, fs.bits, mid, ino, i);
        if inodes[ino].zone[i] != 0 {
          LeafSet(fs, mid, Root(ino, i));
          panicked := FreeBlock(inodes[ino].zone[i], 0);
          ZoneKeepsShape(ino, i);
          inodes := inodes[ino := inodes[ino].(zone := inodes[ino].zone[i := 0])];
        } else {
          ClearNothing(fs, mid, Root(ino, i));
        }
        RootsGrow(fs, fs.bits, mid, bits, ino, i);
        i := i + 1;
      }
      assert inodes[ino].zone == [0, 0, 0, 0, 0, 0, 0] + zone[7..];
    }

    // -------------------------------------------------------------- file_dev.c

    /** Copy chars bytes of a block out to the reader. */
    method CopyOut(z: Zone, nr: nat, chars: nat) returns (out: seq<Byte>)
      requires z < |data| && nr + chars <= BLOCK_SIZE
      ensures out == data[z][nr..nr + chars]
    {
      out := [];
      var p := nr;
      while p < nr + chars
        invariant nr <= p <= nr + chars && out == data[z][nr..p]
      {
        out := out + [data[z][p]];
        p := p + 1;
      }
    }

    method ZeroOut(chars: nat) returns (out: seq<Byte>)
      ensures |out| == chars && forall k :: 0 <= k < chars ==> out[k] == 0
    {
      out := [];
      while |out| < chars
        invariant |out| <= chars && forall k :: 0 <= k < |out| ==> out[k] == 0
      {
        out := out + [0];
      }
    }

    /** file_read delivers exactly the bytes of the flat file. */
    method FileRead(ino: nat, filp: File, count: int) returns (buf: seq<Byte>, r: int, panicked: bool)
      requires Valid() && ino < |inodes|
      modifies this, filp
      ensures Valid() && Abs() == old(Abs())
      ensures panicked <==> count > 0 && old(filp.pos) + count > BLOCKS * BLOCK_SIZE
      ensures !panicked ==> |buf| == r == Max(count, 0) && filp.pos == old(filp.pos) + r
      ensures !panicked && count > 0 ==> buf == View(Abs(), ino)[old(filp.pos)..old(filp.pos) + count]
    {
      hide Inv, Shape, ZoneAt, LeafOf, Reads, View;
      ghost var fs := Abs();
      ghost var pos0 := filp.pos;
      InvParts(fs);
      ReadsNothing(fs, ino, pos0);
      buf, r, panicked := [], 0, false;
      if count <= 0 { return [], 0, false; }
      var left := count;
      while left > 0
        invariant 0 <= left <= count && |buf| == count - left && filp.pos == pos0 + |buf|
        invariant Valid() && Abs() == fs && ino < |inodes| && Shape(fs)
        invariant |buf| > 0 ==> pos0 + |buf| <= BLOCKS * BLOCK_SIZE
        invariant Reads(fs, ino, pos0, buf)
      {
        var z;
        z, panicked := Bmap(ino, filp.pos / BLOCK_SIZE, false);
        if panicked {
          PastTheEnd(filp.pos, left);
          return;
        }
        var nr := filp.pos % BLOCK_SIZE;
        var chars := if BLOCK_SIZE - nr < left then BLOCK_SIZE - nr else left;
        var out;
        if z != 0 {
          ZoneInRange(fs, LeafOf(ino, filp.pos / BLOCK_SIZE));
          out := CopyOut(z, nr, chars);
        } else {
          out := ZeroOut(chars);
        }
        ReadsMore(fs, ino, pos0, buf, out, z);
        filp.pos := filp.pos + chars;
        left := left - chars;
        buf := buf + out;
      }
      r := count;
      ReadsView(fs, ino, pos0, buf);
    }

    /** Store bytes from the writer into a block, one at a time. */
    method CopyIn(z: Zone, off: nat, bytes: seq<Byte>)
      requires z < |data| && off + |bytes| <= BLOCK_SIZE
      modifies this`data
      ensures data == old(data)[z := PutBytes(old(data)[z], off, bytes)]
    {
      ghost var b := data[z];
      assert PutBytes(b, off, bytes[..0]) == b;
      var i := 0;
      while i < |bytes|
        invariant i <= |bytes| && z < |data| && data == old(data)[z := PutBytes(b, off, bytes[..i])]
      {
        ghost var now := data[z];
        data := data[z := data[z][off + i := bytes[i]]];
        assert now[off + i := bytes[i]] == PutBytes(b, off, bytes[..i + 1]);
        i := i + 1;
      }
      assert bytes[..i] == bytes;
    }

    /** One turn of the loop of file_write: as much as fits into the block at pos. */
    method WriteChunk(ino: nat, pos: nat, chunk: seq<Byte>, ghost fs0: Fs, ghost pos0: nat, ghost done: seq<Byte>)
      returns (ok: bool, panicked: bool)
      requires Valid() && ino < |inodes| && chunk != [] && pos % BLOCK_SIZE + |chunk| <= BLOCK_SIZE
      requires Written(fs0, Abs(), ino, pos0, done) && pos == pos0 + |done|
      modifies this
      ensures Valid() && (panicked <==> pos / BLOCK_SIZE >= BLOCKS) && (ok ==> !panicked)
      ensures Written(fs0, Abs(), ino, pos0, if ok then done + chunk else done)
      ensures Sized(old(Abs()), Abs(), ino, if ok then Max(old(inodes)[ino].size, pos + |chunk|)
              else old(inodes)[ino].size)
      ensures !ok && !panicked ==> Full(Abs())
    {
      hide Inv, Shape, Z.CreateAt, ZoneAt, Written, PutBlock, PutBytes;
      ghost var before := Abs();
      var z;
      z, panicked := Bmap(ino, pos / BLOCK_SIZE, true);
      ok := z != 0 && !panicked;
      if panicked { return; }
      ghost var leaf := LeafOf(ino, pos / BLOCK_SIZE);
      Z.CreateKeeps(before, leaf);
      ghost var fs1 := Abs();
      CreatedWrites(fs0, before, ino, pos0, done, leaf, Z.Got(fs1, z));
      if !ok { return; }
      if pos + |chunk| > inodes[ino].size {
        inodes := inodes[ino := inodes[ino].(size := pos + |chunk|)];
        SizeIsApart(fs1, Abs(), ino);
        WrittenResized(fs0, fs1, Abs(), ino, pos0, done);
      }
      ghost var fs2 := Abs();
      InvParts(fs2);
      assert ZoneAt(fs2, leaf) == z;
      CopyIn(z, pos % BLOCK_SIZE, chunk);
      PutIs(fs2, leaf, PutBytes(fs2.data[z], pos % BLOCK_SIZE, chunk));
      PutBlockKeeps(fs2, leaf, PutBytes(fs2.data[z], pos % BLOCK_SIZE, chunk));
      WrittenMore(fs0, fs2, Abs(), ino, pos0, done, chunk);
    }

    /**
     * file_write changes exactly the bytes it reports, in this file only, and the size
     * becomes the larger of the old size and the end of what was written.
     */
    method FileWrite(ino: nat, filp: File, buf: seq<Byte>, count: int) returns (n: nat, r: int, panicked: bool)
      requires Valid() && ino < |inodes| && count <= |buf|
      modifies this, filp
      ensures var pos0 := if filp.append then old(inodes)[ino].size else old(filp.pos);
              && Valid() && n <= Max(count, 0) && r == (if n > 0 then n else -1)
              && Written(old(Abs()), Abs(), ino, pos0, buf[..n])
              && Sized(old(Abs()), Abs(), ino, if n > 0 then Max(old(inodes)[ino].size, pos0 + n)
                 else old(inodes)[ino].size)
              && (panicked ==> n < count && pos0 + n >= BLOCKS * BLOCK_SIZE)
              && (!panicked && n < count ==> Full(Abs()) && pos0 + n < BLOCKS * BLOCK_SIZE)
              && (!panicked ==> filp.pos == if filp.append then old(filp.pos) else pos0 + n)
    {
      hide Inv, Written, Z.CreateAt;
      ghost var fs0 := Abs();
      var pos := if filp.append then inodes[ino].size else filp.pos;
      ghost var pos0 := pos;
      n, panicked := 0, false;
      WrittenNothing(fs0, ino, pos0);
      assert buf[..0] == [];
      while n < count
        invariant n <= Max(count, 0) && pos == pos0 + n && Valid() && ino < |inodes| && !panicked
        invariant Written(fs0, Abs(), ino, pos0, buf[..n])
        invariant Sized(fs0, Abs(), ino, if n > 0 then Max(fs0.inodes[ino].size, pos) else fs0.inodes[ino].size)
        invariant filp.pos == old(filp.pos)
      {
        var c := BLOCK_SIZE - pos % BLOCK_SIZE;
        if c > count - n { c := count - n; }
        var ok;
        assert buf[..n] + buf[n..n + c] == buf[..n + c];
        ok, panicked := WriteChunk(ino, pos, buf[n..n + c], fs0, pos0, buf[..n]);
        if !ok { break; }
        pos := pos + c;
        n := n + c;
      }
      if !filp.append { filp.pos := pos; }
      r := if n > 0 then n else -1;
    }

    lemma ZoneKeepsShape(ino: nat, k: nat)
      requires Shape(Abs()) && ino < |inodes| && k < 9
      ensures |inodes[ino].zone| == 9 && Shape(Abs().(inodes :=
              inodes[ino := inodes[ino].(zone := inodes[ino].zone[k := 0])]))
    {
    }
  }

  ghost predicate Reads(fs: Fs, ino: nat, pos: nat, buf: seq<Byte>)
    requires Shape(fs) && ino < |fs.inodes|
  {
    (buf != [] ==> pos + |buf| <= BLOCKS * BLOCK_SIZE) &&
    forall k :: 0 <= k < |buf| ==> buf[k] == ByteAt(fs, ino, pos + k)
  }

  lemma ReadsNothing(fs: Fs, ino: nat, pos: nat)
    requires Shape(fs) && ino < |fs.inodes|
    ensures Reads(fs, ino, pos, [])
  {
  }

  lemma ReadsMore(fs: Fs, ino: nat, pos0: nat, buf: seq<Byte>, out: seq<Byte>, z: Zone)
    requires Inv(fs) && ino < |fs.inodes| && Reads(fs, ino, pos0, buf)
    requires var pos := pos0 + |buf|;
             && pos / BLOCK_SIZE < BLOCKS && pos % BLOCK_SIZE + |out| <= BLOCK_SIZE
                && z == ZoneAt(fs, LeafOf(ino, pos / BLOCK_SIZE))
             && (if z == 0 then forall k :: 0 <= k < |out| ==> out[k] == 0
                 else z < |fs.data| && out == fs.data[z][pos % BLOCK_SIZE..pos % BLOCK_SIZE + |out|])
    ensures Reads(fs, ino, pos0, buf + out) && (out != [] ==> pos0 + |buf + out| <= BLOCKS * BLOCK_SIZE)
  {
    hide ZoneAt, LeafOf, Inv;
    InvParts(fs);
    var pos := pos0 + |buf|;
    forall k | 0 <= k < |out| ensures pos + k < BLOCKS * BLOCK_SIZE && out[k] == ByteAt(fs, ino, pos + k) {
      WithinBlock(pos, k, |out|);
    }
    forall k | 0 <= k < |buf + out| ensures (buf + out)[k] == ByteAt(fs, ino, pos0 + k) {
      if k >= |buf| { assert (buf + out)[k] == out[k - |buf|]; }
    }
    if buf + out != [] && out != [] { WithinBlock(pos, |out| - 1, |out|); }
  }

  lemma WithinBlock(pos: nat, k: nat, c: nat)
    requires pos % BLOCK_SIZE + c <= BLOCK_SIZE && k < c && pos / BLOCK_SIZE < BLOCKS
    ensures (pos + k) / BLOCK_SIZE == pos / BLOCK_SIZE && (pos + k) % BLOCK_SIZE == pos % BLOCK_SIZE + k
            && pos + k < BLOCKS * BLOCK_SIZE
  {
  }

  lemma ReadsView(fs: Fs, ino: nat, pos: nat, buf: seq<Byte>)
    requires Shape(fs) && ino < |fs.inodes| && Reads(fs, ino, pos, buf) && buf != []
    ensures buf == View(fs, ino)[pos..pos + |buf|]
  {
    hide ByteAt, Shape;
    forall k | 0 <= k < |buf| ensures buf[k] == View(fs, ino)[pos..pos + |buf|][k] { assert buf[k]
        == ByteAt(fs, ino, pos + k); }
  }

  lemma PastTheEnd(pos: nat, left: nat)
    requires pos / BLOCK_SIZE >= BLOCKS && left > 0
    ensures pos + left > BLOCKS * BLOCK_SIZE
  {
  }

  lemma ZoneInRange(fs: Fs, p: Place)
    requires Inv(fs) && Wf(|fs.inodes|, p) && ZoneAt(fs, p) != 0
    ensures fs.first <= ZoneAt(fs, p) < |fs.data|
  {
  }

  lemma InvParts(fs: Fs)
    requires Inv(fs)
    ensures Shape(fs) && Injective(fs)
  {
  }

  lemma WrittenNothing(fs: Fs, ino: nat, pos: nat)
    requires Inv(fs) && ino < |fs.inodes|
    ensures Written(fs, fs, ino, pos, [])
  {
    hide InRange, Injective, Conserved;
  }

  /** Creating a block leaves all bytes written so far as they are. */
  lemma CreatedWrites(fs0: Fs, fs: Fs, ino: nat, pos: nat, bytes: seq<Byte>, leaf: Place, r: Z.Got)
    requires Inv(fs) && Wf(|fs.inodes|, leaf) && Z.Created(fs, leaf, r) && Written(fs0, fs, ino, pos, bytes)
    ensures Inv(r.fs) && Written(fs0, r.fs, ino, pos, bytes) && |r.fs.inodes| == |fs.inodes|
    ensures forall i :: 0 <= i < |fs.inodes| ==> r.fs.inodes[i].size == fs.inodes[i].size
    ensures if r.z == 0 then Full(r.fs) else 0 < r.z < |r.fs.data| && ZoneAt(r.fs, leaf) == r.z
  {
    hide ByteAt, Shape, InRange, Injective, Conserved, ZoneAt, Full;
    InvParts(fs);
    InvParts(r.fs);
    WrittenThrough(fs0, fs, r.fs, ino, pos, bytes);
    FirstIsPositive(fs);
  }

  lemma FirstIsPositive(fs: Fs)
    requires Inv(fs)
    ensures fs.first > 0
  {
  }

  /** Zones and bytes do not depend on sizes. */
  lemma {:induction false} ResizedZone(fs: Fs, fs': Fs, ino: nat, p: Place)
    requires Shape(fs) && Shape(fs') && ino < |fs.inodes| == |fs'.inodes| && fs'.data == fs.data && Wf(|fs.inodes|, p)
    requires fs'.inodes == fs.inodes[ino := fs.inodes[ino].(size := fs'.inodes[ino].size)]
    ensures ZoneAt(fs', p) == ZoneAt(fs, p)
    decreases p
  {
    if p.Entry? { ResizedZone(fs, fs', ino, p.parent); }
  }

  lemma SizeIsApart(fs: Fs, fs': Fs, ino: nat)
    requires Inv(fs) && ino < |fs.inodes| && fs'.data == fs.data && fs'.bits == fs.bits && fs'.first == fs.first
    requires |fs'.inodes| == |fs.inodes| && fs'.inodes
             == fs.inodes[ino := fs.inodes[ino].(size := fs'.inodes[ino].size)]
    ensures Inv(fs') && SameViews(fs, fs')
    ensures forall p :: Wf(|fs.inodes|, p) ==> ZoneAt(fs', p) == ZoneAt(fs, p)
  {
    hide LeafOf;
    forall p | Wf(|fs.inodes|, p) ensures ZoneAt(fs', p) == ZoneAt(fs, p) { ResizedZone(fs, fs', ino, p); }
    hide ZoneAt;
    forall z | fs.first <= z < |fs.data| ensures Marked(fs', z) <==> Referenced(fs', z) {
      assert Referenced(fs', z) <==> Referenced(fs, z);
    }
  }

  lemma WrittenResized(fs0: Fs, fs1: Fs, fs2: Fs, ino: nat, pos: nat, bytes: seq<Byte>)
    requires Written(fs0, fs1, ino, pos, bytes) && Inv(fs1) && Inv(fs2) && |fs2.inodes| == |fs1.inodes|
             && SameViews(fs1, fs2)
    ensures Written(fs0, fs2, ino, pos, bytes)
  {
    hide ByteAt, InRange, Injective, Conserved, Shape;
    WrittenThrough(fs0, fs1, fs2, ino, pos, bytes);
  }

  lemma PutIs(fs: Fs, leaf: Place, b: Block)
    requires Inv(fs) && Wf(|fs.inodes|, leaf) && 0 < ZoneAt(fs, leaf) < |fs.data|
    ensures PutBlock(fs, leaf, b) == Fs(fs.first, fs.bits, fs.data[ZoneAt(fs, leaf) := b], fs.inodes)
  {
  }

  /** The entries of a block are what its places name. */
  lemma EntriesAre(fs: Fs, top: Place)
    requires Inv(fs) && Wf(|fs.inodes|, top) && IsNode(top) && ZoneAt(fs, top) != 0
    ensures fs.first <= ZoneAt(fs, top) < |fs.data|
    ensures forall i :: 0 <= i < FAN ==> ZoneAt(fs, Entry(top, i)) == GetShort(fs.data[ZoneAt(fs, top)], i)
  {
    hide GetShort, Injective, Conserved;
  }

  lemma RootsAre(fs: Fs, ino: nat)
    requires Inv(fs) && ino < |fs.inodes|
    ensures |fs.inodes[ino].zone| == 9 && forall k :: 0 <= k < 9 ==> ZoneAt(fs, Root(ino, k)) == fs.inodes[ino].zone[k]
  {
    hide Injective, Conserved, InRange;
  }

  lemma NoneYet(fs: Fs, was: seq<bool>, top: Place)
    requires Fits(fs, was)
    ensures ClearedFirst(fs, was, was, top, 0)
  {
    hide Under;
  }

  lemma NoRootYet(fs: Fs, ino: nat)
    requires Inv(fs)
    ensures Fits(fs, fs.bits) && ClearedRoots(fs, fs.bits, fs.bits, ino, 0)
  {
    hide Under, Injective, InRange, Conserved;
  }

  /** What free_block meets when it is given the zone of a data place. */
  lemma LeafSet(fs: Fs, bits: seq<bool>, leaf: Place)
    requires Inv(fs) && Fits(fs, bits) && Wf(|fs.inodes|, leaf) && !IsNode(leaf) && ZoneAt(fs, leaf) != 0
             && SetUnder(fs, bits, leaf)
    ensures fs.first <= ZoneAt(fs, leaf) < |fs.data| && ZoneAt(fs, leaf) - fs.first + 1 < |bits|
            && bits[ZoneAt(fs, leaf) - fs.first + 1]
    ensures ClearedUnder(fs, bits, bits[ZoneAt(fs, leaf) - fs.first + 1 := false], leaf)
  {
    hide ZoneAt, Injective, Conserved, Under;
    ClearLeaf(fs, bits, leaf);
    assert BitOf(fs, bits, ZoneAt(fs, leaf));
  }

  lemma AllCleared(fs: Fs, ino: nat, fs': Fs)
    requires Inv(fs) && ino < |fs.inodes| && Shape(fs') && fs'.first == fs.first && fs'.data == fs.data
    requires fs'.inodes == fs.inodes[ino := Inode([0, 0, 0, 0, 0, 0, 0, 0, 0], 0)]
    requires Fits(fs, fs.bits) && ClearedRoots(fs, fs.bits, fs'.bits, ino, 9)
    ensures Truncated(fs, ino, fs')
  {
    hide Injective, Conserved, InRange, OwnedBy, UnderRoots;
    forall z | fs.first <= z < |fs.data| ensures Marked(fs', z) <==> Marked(fs, z) && !OwnedBy(fs, z, ino) {
      OwnedIsUnder(fs, z, ino);
      assert BitOf(fs, fs'.bits, z) <==> BitOf(fs, fs.bits, z) && !UnderRoots(fs, z, ino, 9);
    }
  }

  lemma {:induction false} FirstIs(bits: seq<bool>, j: nat)
    requires j <= |bits| && (forall k :: 0 <= k < j ==> bits[k]) && (j < |bits| ==> !bits[j])
    ensures Z.FirstZero(bits) == j
  {
    if j > 0 { FirstIs(bits[1..], j - 1); }
  }
}
