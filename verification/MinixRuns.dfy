/** Whole runs of file operations against one flat byte array per file. */
module MinixRuns {
  import opened ZoneTree
  import opened MinixFile
  import ZF = ZoneFiles

  const LIMIT: nat := BLOCKS * BLOCK_SIZE

  datatype Op =
    | Write(ino: nat, pos: nat, bytes: seq<Byte>)
    | Append(ino: nat, bytes: seq<Byte>)
    | Read(ino: nat, pos: nat, count: nat)
    | Empty(ino: nat)

  datatype Result = Wrote(n: nat) | Delivered(buf: seq<Byte>) | Emptied

  /** A file as its users see it. */
  datatype Flat = Flat(bytes: seq<Byte>, size: nat)

  function Files(fs: Fs): (files: seq<Flat>)
    requires Shape(fs)
    ensures |files| == |fs.inodes| && forall i :: 0 <= i < |files| ==> files[i] == Flat(View(fs, i), fs.inodes[i].size)
  {
    seq(|fs.inodes|, i requires 0 <= i < |fs.inodes| => Flat(View(fs, i), fs.inodes[i].size))
  }

  ghost predicate Sound(files: seq<Flat>) {
    forall i :: 0 <= i < |files| ==> |files[i].bytes| == LIMIT
  }

  /** Bytes past the end of a file are zero. */
  ghost predicate TailsZero(files: seq<Flat>) {
    forall i, p :: 0 <= i < |files| && files[i].size <= p < |files[i].bytes| ==> files[i].bytes[p] == 0
  }

  function Store(f: Flat, pos: nat, bytes: seq<Byte>): Flat {
    if bytes == [] || pos + |bytes| > |f.bytes| then f
    else Flat(Overwrite(f.bytes, pos, bytes), if pos + |bytes| > f.size then pos + |bytes| else f.size)
  }

  function Position(files: seq<Flat>, op: Op): nat
    requires op.ino < |files|
  {
    match op case Write(_, pos, _) => pos case Append(ino, _) => files[ino].size case _ => 0
  }

  /** A write that stored less than it was given. */
  predicate Short(op: Op, r: Result) {
    (op.Write? || op.Append?) && r.Wrote? && r.n < |op.bytes|
  }

  /** The result r is one that flat files allow for op; a write goes no further than _bmap can address. */
  ghost predicate Allowed(files: seq<Flat>, op: Op, r: Result)
    requires op.ino < |files| && Sound(files)
  {
    match op
    case Write(_, _, bytes) => WriteAllowed(Position(files, op), bytes, r)
    case Append(_, bytes) => WriteAllowed(Position(files, op), bytes, r)
    case Read(ino, pos, count) =>
      r.Delivered? && if count == 0 then r.buf == []
        else pos + count <= LIMIT && r.buf == files[ino].bytes[pos..pos + count]
    case Empty(_) => r.Emptied?
  }

  predicate WriteAllowed(pos: nat, bytes: seq<Byte>, r: Result) {
    && r.Wrote? && r.n <= |bytes| && (r.n > 0 ==> pos + r.n <= LIMIT) && (r.n < |bytes| ==> pos + r.n < LIMIT)
  }

  /** op asks for a block that _bmap cannot address. */
  predicate Past(files: seq<Flat>, op: Op)
    requires op.ino < |files|
  {
    match op
    case Write(_, pos, bytes) => bytes != [] && pos + |bytes| > LIMIT
    case Append(ino, bytes) => bytes != [] && files[ino].size + |bytes| > LIMIT
    case Read(_, pos, count) => count > 0 && pos + count > LIMIT
    case Empty(_) => false
  }

  /** What fits below the limit of n bytes at pos. */
  function Below(pos: nat, n: nat): (r: nat)
    ensures r <= n
  {
    if pos >= LIMIT then 0 else if pos + n > LIMIT then LIMIT - pos else n
  }

  /** The flat files at a panic of _bmap: everything below the limit has been written. */
  function AtPanic(files: seq<Flat>, op: Op): seq<Flat>
    requires op.ino < |files|
  {
    match op
    case Write(ino, pos, bytes) => files[ino := Store(files[ino], pos, bytes[..Below(pos, |bytes|)])]
    case Append(ino, bytes) => files[ino := Store(files[ino], files[ino].size,
        bytes[..Below(files[ino].size, |bytes|)])]
    case _ => files
  }

  /** The flat files after op ended with r. */
  ghost function Effect(files: seq<Flat>, op: Op, r: Result): (files': seq<Flat>)
    requires op.ino < |files| && Sound(files) && Allowed(files, op, r)
    ensures |files'| == |files| && Sound(files')
  {
    match op
    case Write(ino, pos, bytes) => files[ino := Store(files[ino], pos, bytes[..r.n])]
    case Append(ino, bytes) => files[ino := Store(files[ino], files[ino].size, bytes[..r.n])]
    case Read(_, _, _) => files
    case Empty(ino) => files[ino := Flat(Blank(), 0)]
  }

  function Blank(): (b: seq<Byte>)
    ensures |b| == LIMIT && forall p :: 0 <= p < LIMIT ==> b[p] == 0
  {
    seq(LIMIT, _ => 0)
  }

  /** rs are results that flat files allow for ops, one after the other. */
  ghost predicate AllowedRun(files: seq<Flat>, ops: seq<Op>, rs: seq<Result>)
    requires Sound(files)
    decreases |ops|
  {
    if ops == [] then rs == []
      else
        rs != [] && ops[0].ino < |files| && Allowed(files, ops[0], rs[0])
        && AllowedRun(Effect(files, ops[0], rs[0]), ops[1..], rs[1..])
  }

  ghost function EffectRun(files: seq<Flat>, ops: seq<Op>, rs: seq<Result>): (files': seq<Flat>)
    requires Sound(files) && AllowedRun(files, ops, rs)
    ensures |files'| == |files| && Sound(files')
    decreases |ops|
  {
    if ops == [] then files else EffectRun(Effect(files, ops[0], rs[0]), ops[1..], rs[1..])
  }

  /** Files never expose anything past their end: whatever is skipped over reads as zero. */
  lemma {:induction false} TailsStayZero(files: seq<Flat>, ops: seq<Op>, rs: seq<Result>)
    requires Sound(files) && AllowedRun(files, ops, rs) && TailsZero(files)
    ensures TailsZero(EffectRun(files, ops, rs))
    decreases |ops|
  {
    if ops != [] {
      TailStaysZero(files, ops[0], rs[0]);
      TailsStayZero(Effect(files, ops[0], rs[0]), ops[1..], rs[1..]);
    }
  }

  lemma TailStaysZero(files: seq<Flat>, op: Op, r: Result)
    requires op.ino < |files| && Sound(files) && Allowed(files, op, r) && TailsZero(files)
    ensures TailsZero(Effect(files, op, r))
  {
    var files' := Effect(files, op, r);
    forall i, p | 0 <= i < |files'| && files'[i].size <= p < |files'[i].bytes| ensures files'[i].bytes[p] == 0 {
      assert i != op.ino || op.Read? ==> files'[i] == files[i];
    }
  }

  /** op took the device from fs to fs' with result r: on flat files, and short only when no zone is left. */
  ghost predicate Did(fs: Fs, op: Op, r: Result, fs': Fs) {
    && Inv(fs) && Inv(fs') && op.ino < |fs.inodes| == |fs'.inodes| && Sound(Files(fs))
    && Allowed(Files(fs), op, r) && Files(fs') == Effect(Files(fs), op, r)
    && (Short(op, r) ==> Full(fs'))
  }

  /** One operation on the device is one step of the flat files, unless _bmap panics. */
  method Apply(d: Device, op: Op) returns (r: Result, panicked: bool)
    requires d.Valid() && op.ino < |d.inodes|
    modifies d
    ensures d.Valid() && |d.inodes| == old(|d.inodes|)
    ensures Shape(old(d.Abs())) && Sound(Files(old(d.Abs())))
    ensures !panicked ==> Did(old(d.Abs()), op, r, d.Abs())
    ensures panicked ==> Past(Files(old(d.Abs())), op) && Files(d.Abs()) == AtPanic(Files(old(d.Abs())), op)
  {
    hide Inv, Written, View, ZF.Truncated;
    ghost var fs := d.Abs();
    InvParts(fs);
    var filp := new File(op.Append?);
    match op
    case Write(ino, pos, bytes) =>
      filp.pos := pos;
      var n, _, p := d.FileWrite(ino, filp, bytes, |bytes|);
      r, panicked := Wrote(n), p;
      StoreIsWrite(fs, d.Abs(), ino, pos, bytes[..n]);
    case Append(ino, bytes) =>
      var n, _, p := d.FileWrite(ino, filp, bytes, |bytes|);
      r, panicked := Wrote(n), p;
      StoreIsWrite(fs, d.Abs(), ino, fs.inodes[ino].size, bytes[..n]);
    case Read(ino, pos, count) =>
      filp.pos := pos;
      var buf, _, p := d.FileRead(ino, filp, count);
      r, panicked := Delivered(buf), p;
    case Empty(ino) =>
      panicked := d.Truncate(ino, true);
      r := Emptied;
      EmptyIsTruncate(fs, d.Abs(), ino);
  }

  lemma StoreIsWrite(fs: Fs, fs': Fs, ino: nat, pos: nat, bytes: seq<Byte>)
    requires Inv(fs) && Inv(fs') && Written(fs, fs', ino, pos, bytes) && ino < |fs.inodes|
    requires Sized(fs, fs', ino, if |bytes| > 0 then Max(fs.inodes[ino].size, pos + |bytes|) else fs.inodes[ino].size)
    ensures Files(fs') == Files(fs)[ino := Store(Files(fs)[ino], pos, bytes)]
    ensures bytes != [] ==> pos + |bytes| <= LIMIT
  {
    hide InRange, Injective, Conserved, Written, View;
    if bytes == [] { UnwrittenViews(fs, fs', ino, pos); }
        else { BoundOf(fs, fs', ino, pos, bytes); WrittenViews(fs, fs', ino, pos, bytes); }
    forall i | 0 <= i < |fs.inodes| ensures Files(fs')[i] == Files(fs)[ino := Store(Files(fs)[ino], pos, bytes)][i] {}
  }

  lemma BoundOf(fs: Fs, fs': Fs, ino: nat, pos: nat, bytes: seq<Byte>)
    requires Written(fs, fs', ino, pos, bytes) && bytes != []
    ensures pos + |bytes| <= LIMIT
  {
  }

  lemma UnwrittenViews(fs: Fs, fs': Fs, ino: nat, pos: nat)
    requires Written(fs, fs', ino, pos, [])
    ensures forall i :: 0 <= i < |fs.inodes| ==> View(fs', i) == View(fs, i)
  {
    hide ByteAt, Shape;
    forall i | 0 <= i < |fs.inodes| ensures View(fs', i) == View(fs, i) {
      forall p | 0 <= p < LIMIT ensures View(fs', i)[p]
          == View(fs, i)[p] { assert View(fs', i)[p] == ByteAt(fs', i, p); }
    }
  }

  lemma EmptyIsTruncate(fs: Fs, fs': Fs, ino: nat)
    requires Inv(fs) && Inv(fs') && ino < |fs.inodes| && ZF.Truncated(fs, ino, fs')
    ensures Files(fs') == Files(fs)[ino := Flat(Blank(), 0)]
  {
    ZF.TruncateKeeps(fs, ino, fs');
    hide ByteAt, Inv;
    InvParts(fs);
    InvParts(fs');
    forall i | 0 <= i < |fs.inodes| ensures Files(fs')[i] == Files(fs)[ino := Flat(Blank(), 0)][i] {
      forall p | 0 <= p < LIMIT ensures View(fs', i)[p] == if i == ino then 0
          else View(fs, i)[p] { assert View(fs', i)[p] == ByteAt(fs', i, p); }
      assert View(fs', i) == if i == ino then Blank() else View(fs, i);
    }
  }

  /** The devices in between: each operation led from one to the next. */
  ghost predicate Trace(states: seq<Fs>, ops: seq<Op>, rs: seq<Result>) {
    |states| == |rs| + 1 && |rs| <= |ops| && forall k :: 0 <= k < |rs| ==> Did(states[k], ops[k], rs[k], states[k + 1])
  }

  /**
   * Any sequence of operations is a sequence of steps on flat files.  It stops early only
   * where an operation reaches past the limit, with everything below the limit written.
   */
  method Replay(d: Device, ops: seq<Op>) returns (rs: seq<Result>, panicked: bool, ghost states: seq<Fs>)
    requires d.Valid() && forall k :: 0 <= k < |ops| ==> ops[k].ino < |d.inodes|
    modifies d
    ensures d.Valid() && Trace(states, ops, rs) && states[0] == old(d.Abs()) && |d.inodes| == old(|d.inodes|)
    ensures !panicked ==> |rs| == |ops| && d.Abs() == states[|rs|]
    ensures panicked ==> |rs| < |ops| && Stopped(states[|rs|], ops[|rs|], d.Abs())
  {
    hide Inv, Files, Allowed, Effect, Did, AtPanic, Past;
    InvParts(d.Abs());
    rs, panicked, states := [], false, [d.Abs()];
    var i := 0;
    while i < |ops|
      invariant i <= |ops| && |rs| == i && d.Valid() && |d.inodes| == old(|d.inodes|) && !panicked
      invariant Trace(states, ops, rs) && states[0] == old(d.Abs()) && states[i] == d.Abs()
    {
      ghost var fs := d.Abs();
      var r, p := Apply(d, ops[i]);
      if p {
        panicked := true;
        IsStopped(fs, ops[i], d.Abs());
        return;
      }
      rs, states := rs + [r], states + [d.Abs()];
      i := i + 1;
    }
  }

  /** The device after _bmap panicked in op. */
  ghost predicate Stopped(fs: Fs, op: Op, fs': Fs) {
    && Inv(fs) && Inv(fs') && op.ino < |fs.inodes| && Past(Files(fs), op) && Files(fs') == AtPanic(Files(fs), op)
  }

  lemma IsStopped(fs: Fs, op: Op, fs': Fs)
    requires Inv(fs) && Inv(fs') && op.ino < |fs.inodes| && Past(Files(fs), op) && Files(fs') == AtPanic(Files(fs), op)
    ensures Stopped(fs, op, fs')
  {
    hide Inv, Files, Past, AtPanic;
  }

  /** A run on a device is a run on flat files, wherever their zones are. */
  lemma {:induction false} TraceIsRun(states: seq<Fs>, ops: seq<Op>, rs: seq<Result>)
    requires Trace(states, ops, rs) && Inv(states[0])
    ensures Shape(states[0]) && Sound(Files(states[0])) && AllowedRun(Files(states[0]), ops[..|rs|], rs)
    ensures Shape(states[|rs|]) && Files(states[|rs|]) == EffectRun(Files(states[0]), ops[..|rs|], rs)
    decreases |rs|
  {
    hide Inv, Files, Allowed, Effect, Short;
    InvParts(states[0]);
    FilesSound(states[0]);
    if rs != [] {
      assert Did(states[0], ops[0], rs[0], states[1]);
      forall k | 0 <= k < |rs| - 1 ensures Did(states[1..][k], ops[1..][k], rs[1..][k], states[1..][k + 1]) {
        assert Did(states[k + 1], ops[k + 1], rs[k + 1], states[k + 2]);
      }
      TraceIsRun(states[1..], ops[1..], rs[1..]);
      assert ops[..|rs|][1..] == ops[1..][..|rs| - 1];
    }
  }

  lemma FilesSound(fs: Fs)
    requires Shape(fs)
    ensures Sound(Files(fs))
  {
  }
}
