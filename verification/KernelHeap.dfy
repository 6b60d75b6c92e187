/** Layout of the bucket allocator: slots of a page, links kept inside free slots. */
module KernelHeap {
  const PAGE_SIZE: nat := 4096

  type Byte = x: nat | x < 0x100
  type Word = x: nat | x < 0x1_0000_0000

  /** Entries of bucket_dir, without its end marker. */
  const BUCKETS: nat := 9

  /** The sizes in bucket_dir. */
  function SizeOf(b: nat): (size: nat)
    requires b < BUCKETS
    ensures IsSize(size)
  {
    if b == 0 then 16 else if b == 1 then 32 else if b == 2 then 64 else if b == 3 then 128 else if b == 4 then 256
    else if b == 5 then 512 else if b == 6 then 1024 else if b == 7 then 2048 else 4096
  }

  /** The sizes are 16 and its doubles up to a page, smallest first. */
  lemma SizesDouble(b: nat)
    requires b < BUCKETS
    ensures SizeOf(0) == 16 && SizeOf(BUCKETS - 1) == PAGE_SIZE && (b + 1 < BUCKETS ==> SizeOf(b + 1) == 2 * SizeOf(b))
  {
  }

  predicate IsSize(size: nat) {
    size == 16 || size == 32 || size == 64 || size == 128 || size == 256 || size == 512 || size == 1024
        || size == 2048 || size == 4096
  }

  /** Objects of one size in a page. */
  function PerPage(size: nat): nat {
    if size == 0 then 0 else PAGE_SIZE / size
  }

  function PageOf(a: nat): nat {
    a - a % PAGE_SIZE
  }

  // ---------------------------------------------------------------- bytes and words

  function Peek(mem: map<nat, Byte>, a: nat): Byte {
    if a in mem then mem[a] else 0
  }

  /** The four-byte word at a, least significant byte first. */
  function Load(mem: map<nat, Byte>, a: nat): Word {
    Peek(mem, a) as int + 0x100 * (Peek(mem, a + 1) as int) + 0x1_0000 * (Peek(mem, a + 2) as int)
        + 0x100_0000 * (Peek(mem, a + 3) as int)
  }

  function Store(mem: map<nat, Byte>, a: nat, v: Word): map<nat, Byte> {
    mem[a := v % 0x100][a + 1 := v / 0x100 % 0x100][a + 2 := v / 0x1_0000 % 0x100][a + 3 := v / 0x100_0000]
  }

  lemma LoadStored(mem: map<nat, Byte>, a: nat, v: Word)
    ensures Load(Store(mem, a, v), a) == v
  {
    Digits(v);
  }

  lemma Digits(v: Word)
    ensures v == v % 0x100 + 0x100 * (v / 0x100 % 0x100) + 0x1_0000 * (v / 0x1_0000 % 0x100)
            + 0x100_0000 * (v / 0x100_0000)
  {
    var a, b := v / 0x100, v / 0x1_0000;
    assert b == a / 0x100 && v / 0x100_0000 == b / 0x100;
  }

  lemma LoadElsewhere(mem: map<nat, Byte>, a: nat, v: Word, b: nat)
    requires b + 4 <= a || a + 4 <= b
    ensures Load(Store(mem, a, v), b) == Load(mem, b)
  {
  }

  lemma PeekElsewhere(mem: map<nat, Byte>, a: nat, v: Word, b: nat)
    requires b < a || a + 4 <= b
    ensures Peek(Store(mem, a, v), b) == Peek(mem, b)
  {
  }

  // ---------------------------------------------------------------- slots

  function Slot(page: nat, size: nat, k: nat): nat {
    page + k * size
  }

  /** s is the address of one of the objects a page of that size is cut into. */
  ghost predicate IsSlot(page: nat, size: nat, s: nat) {
    IsSize(size) && exists k :: 0 <= k < PerPage(size) && s == Slot(page, size, k)
  }

  lemma Exact(size: nat)
    requires IsSize(size)
    ensures PerPage(size) * size == PAGE_SIZE && 0 < PerPage(size) <= 256 && 16 <= size <= PAGE_SIZE
  {
  }

  /** A slot lies inside its page and is aligned to its size. */
  lemma SlotInPage(page: nat, size: nat, s: nat)
    requires IsSlot(page, size, s) && page % PAGE_SIZE == 0
    ensures page <= s && s + size <= page + PAGE_SIZE && PageOf(s) == page && s % size == 0 && 16 <= size <= PAGE_SIZE
  {
    Exact(size);
    var n := PerPage(size);
    var k :| 0 <= k < n && s == Slot(page, size, k);
    Times(k + 1, n, size);
    assert (k + 1) * size == k * size + size;
    Aligned(page, size, k);
  }

  lemma Times(a: nat, b: nat, c: nat)
    requires a <= b
    ensures a * c <= b * c
  {
  }

  lemma Aligned(page: nat, size: nat, k: nat)
    requires IsSize(size) && page % PAGE_SIZE == 0
    ensures Slot(page, size, k) % size == 0
  {
    var q, n := page / PAGE_SIZE, PerPage(size);
    Exact(size);
    assert page == q * PAGE_SIZE;
    assert q * PAGE_SIZE == q * n * size by { assert q * (n * size) == q * n * size; }
    assert Slot(page, size, k) == (q * n + k) * size;
    Multiple(q * n + k, size);
  }

  lemma Multiple(a: nat, b: nat)
    requires IsSize(b)
    ensures a * b % b == 0
  {
    if b == 16 { assert a * 16 % 16 == 0; } else if b == 32 { assert a * 32 % 32 == 0; }
        else if b == 64 { assert a * 64 % 64 == 0; }
    else if b == 128 { assert a * 128 % 128 == 0; } else if b == 256 { assert a * 256 % 256 == 0; }
        else if b == 512 { assert a * 512 % 512 == 0; }
    else if b == 1024 { assert a * 1024 % 1024 == 0; } else if b == 2048 { assert a * 2048 % 2048 == 0; }
        else { assert a * 4096 % 4096 == 0; }
  }

  /** Different slots of a page do not overlap. */
  lemma SlotsApart(page: nat, size: nat, s: nat, t: nat)
    requires IsSlot(page, size, s) && IsSlot(page, size, t) && s != t
    ensures s + size <= t || t + size <= s
  {
    Exact(size);
    var i :| 0 <= i < PerPage(size) && s == Slot(page, size, i);
    var j :| 0 <= j < PerPage(size) && t == Slot(page, size, j);
    if i < j { Times(i + 1, j, size); assert (i + 1) * size == i * size + size; }
    if j < i { Times(j + 1, i, size); assert (j + 1) * size == j * size + size; }
  }

  /** Slots of different pages do not overlap. */
  lemma PagesApart(p: nat, a: nat, s: nat, q: nat, b: nat, t: nat)
    requires IsSlot(p, a, s) && IsSlot(q, b, t) && p % PAGE_SIZE == 0 && q % PAGE_SIZE == 0 && p != q
    ensures s + a <= t || t + b <= s
  {
    SlotInPage(p, a, s);
    SlotInPage(q, b, t);
    if p < q { WholePages(p, q); } else { WholePages(q, p); }
  }

  lemma WholePages(p: nat, q: nat)
    requires p % PAGE_SIZE == 0 && q % PAGE_SIZE == 0 && p < q
    ensures p + PAGE_SIZE <= q
  {
  }
}
