/** read_pipe and write_pipe: a ring in one page against an unbounded stream of bytes. */
module Pipe {
  const PAGE_SIZE: nat := 4096

  type Byte = x: nat | x < 0x100

  /** PIPE_SIZE: head minus tail, within the page. */
  function SizeOf(head: nat, tail: nat): (n: nat)
    requires head < PAGE_SIZE && tail < PAGE_SIZE
    ensures n < PAGE_SIZE && (n == 0 <==> head == tail)
  {
    (head - tail) % PAGE_SIZE
  }

  /** n bytes of the ring from place tail on. */
  function Span(page: seq<Byte>, tail: nat, n: nat): (r: seq<Byte>)
    requires |page| == PAGE_SIZE
    ensures |r| == n && forall k :: 0 <= k < n ==> r[k] == page[(tail + k) % PAGE_SIZE]
  {
    if n == 0 then [] else Span(page, tail, n - 1) + [page[(tail + n - 1) % PAGE_SIZE]]
  }

  /** A stretch that does not pass the end of the page is a slice of it. */
  lemma SpanIsSlice(page: seq<Byte>, tail: nat, n: nat)
    requires |page| == PAGE_SIZE && tail + n <= PAGE_SIZE
    ensures Span(page, tail, n) == page[tail..tail + n]
  {
    forall k | 0 <= k < n ensures Span(page, tail, n)[k] == page[tail..tail + n][k] {}
  }

  /** Taking c bytes from the front moves the tail. */
  lemma SpanDrop(page: seq<Byte>, tail: nat, n: nat, c: nat)
    requires |page| == PAGE_SIZE && c <= n
    ensures Span(page, (tail + c) % PAGE_SIZE, n - c) == Span(page, tail, n)[c..]
            && Span(page, tail, c) == Span(page, tail, n)[..c]
  {
    forall k | 0 <= k < n - c ensures Span(page, (tail + c) % PAGE_SIZE, n - c)[k] == Span(page, tail, n)[c..][k] {
      Wraps(tail, c, k);
    }
  }

  lemma Wraps(tail: nat, c: nat, k: nat)
    ensures ((tail + c) % PAGE_SIZE + k) % PAGE_SIZE == (tail + (c + k)) % PAGE_SIZE
  {
  }

  /** Storing bytes at the head, within the page, appends them and changes nothing in use. */
  lemma SpanGrow(page: seq<Byte>, page': seq<Byte>, tail: nat, n: nat, head: nat, bytes: seq<Byte>)
    requires |page| == PAGE_SIZE && tail < PAGE_SIZE && head == (tail + n) % PAGE_SIZE && n + |bytes| < PAGE_SIZE
             && head + |bytes| <= PAGE_SIZE
    requires page' == page[..head] + bytes + page[head + |bytes|..]
    ensures |page'| == PAGE_SIZE && Span(page', tail, n + |bytes|) == Span(page, tail, n) + bytes
  {
    forall k | 0 <= k < n + |bytes| ensures Span(page', tail, n + |bytes|)[k] == (Span(page, tail, n) + bytes)[k] {
      Place(tail, n, head, |bytes|, k);
    }
  }

  /** Places in use lie outside the stretch being filled; new places lie inside it, in order. */
  lemma Place(tail: nat, n: nat, head: nat, c: nat, k: nat)
    requires tail < PAGE_SIZE && head == (tail + n) % PAGE_SIZE && n + c < PAGE_SIZE && head + c <= PAGE_SIZE
             && k < n + c
    ensures var at := (tail + k) % PAGE_SIZE; if k < n then at < head || head + c <= at else at == head + (k - n)
  {
  }

  // ---------------------------------------------------------------- the stream

  /** Everything ever written and everything ever read. */
  datatype Stream = Stream(sent: seq<Byte>, got: seq<Byte>)

  /** Reads follow writes, in order, less than a page behind. */
  ghost predicate Ok(s: Stream) {
    s.got <= s.sent && |s.sent| - |s.got| < PAGE_SIZE
  }

  function Min(a: nat, b: nat): (m: nat)
    ensures m <= a && m <= b && (m == a || m == b)
  {
    if a < b then a else b
  }

  /** What one turn of read_pipe takes: as much as is wanted and there, up to the end of the page. */
  function Takes(s: Stream, count: nat): (n: nat)
    requires |s.got| <= |s.sent|
    ensures n <= |s.sent| - |s.got|
  {
    Min(Min(count, |s.sent| - |s.got|), PAGE_SIZE - |s.got| % PAGE_SIZE)
  }

  /** What one turn of write_pipe stores: as much as is given and fits, up to the end of the page. */
  function Stores(s: Stream, count: nat): (n: nat)
    requires |s.sent| - |s.got| < PAGE_SIZE
    ensures n <= count
  {
    Min(Min(count, PAGE_SIZE - 1 - (|s.sent| - |s.got|)), PAGE_SIZE - |s.sent| % PAGE_SIZE)
  }

  datatype Op = Put(bytes: seq<Byte>) | Get(count: nat)

  /** The bytes an operation moves: into the pipe or out of it. */
  function Moves(s: Stream, op: Op): (r: seq<Byte>)
    requires Ok(s)
    ensures |r| <= PAGE_SIZE
  {
    match op
    case Put(bytes) => bytes[..Stores(s, |bytes|)]
    case Get(count) => s.sent[|s.got|..|s.got| + Takes(s, count)]
  }

  /** An operation that would have to wait moves nothing. */
  function Step(s: Stream, op: Op): (r: Stream)
    requires Ok(s)
    ensures Ok(r) && s.sent <= r.sent && s.got <= r.got
  {
    if op.Put? then Stream(s.sent + Moves(s, op), s.got) else Stream(s.sent, s.got + Moves(s, op))
  }

  /** Any interleaving of turns of readers and writers. */
  function Run(s: Stream, ops: seq<Op>): (r: Stream)
    requires Ok(s)
    ensures Ok(r)
  {
    if ops == [] then s else Step(Run(s, ops[..|ops| - 1]), ops[|ops| - 1])
  }

  /** What each operation of an interleaving moved. */
  function Moved(s: Stream, ops: seq<Op>): (r: seq<seq<Byte>>)
    requires Ok(s)
    ensures |r| == |ops|
  {
    if ops == [] then [] else
      var most := ops[..|ops| - 1];
      Moved(s, most) + [Moves(Run(s, most), ops[|ops| - 1])]
  }

  /** The bytes moved by the operations of one side, one after another. */
  function Joined(ops: seq<Op>, moved: seq<seq<Byte>>, puts: bool): seq<Byte>
    requires |ops| == |moved|
  {
    if ops == [] then [] else
      var k := |ops| - 1;
      Joined(ops[..k], moved[..k], puts) + (if ops[k].Put? == puts then moved[k] else [])
  }

  lemma {:induction false} RunIsJoined(s: Stream, ops: seq<Op>)
    requires Ok(s)
    ensures Run(s, ops).sent == s.sent + Joined(ops, Moved(s, ops), true)
    ensures Run(s, ops).got == s.got + Joined(ops, Moved(s, ops), false)
    decreases |ops|
  {
    hide Moves, Ok;
    if ops != [] {
      var most := ops[..|ops| - 1];
      RunIsJoined(s, most);
      var m := Moves(Run(s, most), ops[|ops| - 1]);
      assert Moved(s, ops)[..|ops| - 1] == Moved(s, most);
      Associates(s.sent, Joined(most, Moved(s, most), true), m);
      Associates(s.got, Joined(most, Moved(s, most), false), m);
    }
  }

  /**
   * First in, first out: over any interleaving on a new pipe, what the reads returned is a
   * prefix of what the writes reported as stored, less than a page behind it.
   */
  lemma FirstInFirstOut(ops: seq<Op>)
    ensures var m := Moved(Stream([], []), ops);
            && Joined(ops, m, false) <= Joined(ops, m, true)
            && |Joined(ops, m, true)| - |Joined(ops, m, false)| < PAGE_SIZE
  {
    var s := Stream([], []);
    RunIsJoined(s, ops);
    var m := Moved(s, ops);
    assert s.sent + Joined(ops, m, true) == Joined(ops, m, true);
    assert s.got + Joined(ops, m, false) == Joined(ops, m, false);
  }

  // ---------------------------------------------------------------- whole calls

  /** The outcome of a call: the stream, what the call moved, and how many of its sleeps it used. */
  datatype Outcome = Outcome(s: Stream, moved: seq<Byte>, used: nat)

  /**
   * read_pipe.  Each time it finds the pipe empty it sleeps, and the next of sleeps says
   * what other tasks do meanwhile; when there are none left the writer is gone.
   */
  function ReadRun(s: Stream, count: int, sleeps: seq<seq<Op>>): (r: Outcome)
    requires Ok(s)
    ensures Ok(r.s) && r.used <= |sleeps|
    decreases if count > 0 then count else 0, |sleeps|
  {
    if count <= 0 then Outcome(s, [], 0)
    else if |s.sent| == |s.got| then
      if sleeps == [] then Outcome(s, [], 0) else
        var r := ReadRun(Run(s, sleeps[0]), count, sleeps[1..]);
        r.(used := r.used + 1)
    else
      var out := Moves(s, Get(count));
      var r := ReadRun(Step(s, Get(count)), count - |out|, sleeps);
      r.(moved := out + r.moved)
  }

  /** write_pipe; it sleeps when the pipe is full, and when no sleeps are left the reader is gone. */
  function WriteRun(s: Stream, buf: seq<Byte>, sleeps: seq<seq<Op>>): (r: Outcome)
    requires Ok(s)
    ensures Ok(r.s) && r.used <= |sleeps|
    decreases |buf|, |sleeps|
  {
    if buf == [] then Outcome(s, [], 0)
    else if |s.sent| - |s.got| == PAGE_SIZE - 1 then
      if sleeps == [] then Outcome(s, [], 0) else
        var r := WriteRun(Run(s, sleeps[0]), buf, sleeps[1..]);
        r.(used := r.used + 1)
    else
      var n := |Moves(s, Put(buf))|;
      var r := WriteRun(Step(s, Put(buf)), buf[n..], sleeps);
      r.(moved := buf[..n] + r.moved)
  }

  /** One turn of write_pipe with room: it stores a nonempty front of the buffer. */
  lemma PutStep(s: Stream, buf: seq<Byte>)
    requires Ok(s) && buf != [] && |s.sent| - |s.got| < PAGE_SIZE - 1
    ensures var n := |Moves(s, Put(buf))|;
            && 0 < n <= |buf| && n < PAGE_SIZE - (|s.sent| - |s.got|) && Moves(s, Put(buf)) == buf[..n]
            && Step(s, Put(buf)) == Stream(s.sent + buf[..n], s.got)
  {
  }

  /** One turn of read_pipe with something to read: it takes the next bytes of the stream. */
  lemma GetStep(s: Stream, count: nat)
    requires Ok(s) && count > 0 && |s.sent| > |s.got|
    ensures var n := |Moves(s, Get(count))|;
            && 0 < n <= count && n <= |s.sent| - |s.got| && Moves(s, Get(count)) == s.sent[|s.got|..|s.got| + n]
            && Step(s, Get(count)) == Stream(s.sent, s.got + Moves(s, Get(count)))
  {
  }

  lemma Associates(a: seq<Byte>, b: seq<Byte>, c: seq<Byte>)
    ensures a + b + c == a + (b + c)
  {
  }

  /** A read is short only when the pipe ran dry and the writer is gone. */
  lemma {:induction false} ReadIsShortOnly(s: Stream, count: int, sleeps: seq<seq<Op>>)
    requires Ok(s)
    ensures var r := ReadRun(s, count, sleeps);
            && |r.moved| <= (if count > 0 then count else 0)
            && (|r.moved| < count ==> r.used == |sleeps| && |r.s.sent| == |r.s.got|)
    decreases if count > 0 then count else 0, |sleeps|
  {
    hide Moves, Step, Run;
    if count > 0 {
      if |s.sent| == |s.got| {
        if sleeps != [] { ReadIsShortOnly(Run(s, sleeps[0]), count, sleeps[1..]); }
      } else {
        GetStep(s, count);
        ReadIsShortOnly(Step(s, Get(count)), count - |Moves(s, Get(count))|, sleeps);
      }
    }
  }

  /** A write stores a front of the buffer, short only when the pipe is full and the reader is gone. */
  lemma {:induction false} WriteIsShortOnly(s: Stream, buf: seq<Byte>, sleeps: seq<seq<Op>>)
    requires Ok(s)
    ensures var r := WriteRun(s, buf, sleeps);
            && r.moved <= buf
            && (r.moved != buf ==> r.used == |sleeps| && |r.s.sent| - |r.s.got| == PAGE_SIZE - 1)
    decreases |buf|, |sleeps|
  {
    hide Moves, Step, Run;
    if buf != [] {
      if |s.sent| - |s.got| == PAGE_SIZE - 1 {
        if sleeps != [] { WriteIsShortOnly(Run(s, sleeps[0]), buf, sleeps[1..]); }
      } else {
        PutStep(s, buf);
        var n := |Moves(s, Put(buf))|;
        WriteIsShortOnly(Step(s, Put(buf)), buf[n..], sleeps);
        PrefixGrows(buf, n, WriteRun(Step(s, Put(buf)), buf[n..], sleeps).moved);
      }
    }
  }

  lemma PrefixGrows(buf: seq<Byte>, n: nat, more: seq<Byte>)
    requires n <= |buf| && more <= buf[n..]
    ensures buf[..n] + more <= buf && (buf[..n] + more == buf <==> more == buf[n..])
  {
    assert buf == buf[..n] + buf[n..];
  }

  /** The turns of read_pipe between what others do in its sleeps. */
  function ReadTrace(s: Stream, count: int, sleeps: seq<seq<Op>>): seq<Op>
    requires Ok(s)
    decreases if count > 0 then count else 0, |sleeps|
  {
    if count <= 0 || (|s.sent| == |s.got| && sleeps == []) then []
    else if |s.sent| == |s.got| then sleeps[0] + ReadTrace(Run(s, sleeps[0]), count, sleeps[1..])
    else [Get(count)] + ReadTrace(Step(s, Get(count)), count - |Moves(s, Get(count))|, sleeps)
  }

  function WriteTrace(s: Stream, buf: seq<Byte>, sleeps: seq<seq<Op>>): seq<Op>
    requires Ok(s)
    decreases |buf|, |sleeps|
  {
    var full := |s.sent| - |s.got| == PAGE_SIZE - 1;
    if buf == [] || (full && sleeps == []) then []
    else if full then sleeps[0] + WriteTrace(Run(s, sleeps[0]), buf, sleeps[1..])
    else [Put(buf)] + WriteTrace(Step(s, Put(buf)), buf[|Moves(s, Put(buf))|..], sleeps)
  }

  /** The operations of one side. */
  function Side(ops: seq<Op>, puts: bool): seq<Op> {
    if ops == [] then [] else (if ops[0].Put? == puts then [ops[0]] else []) + Side(ops[1..], puts)
  }

  function Flat(sleeps: seq<seq<Op>>): seq<Op> {
    if sleeps == [] then [] else sleeps[0] + Flat(sleeps[1..])
  }

  lemma SideStep(ops: seq<Op>, puts: bool)
    requires ops != []
    ensures Side(ops, puts) == (if ops[0].Put? == puts then [ops[0]] else []) + Side(ops[1..], puts)
  {
  }

  lemma {:induction false} SideJoins(a: seq<Op>, b: seq<Op>, puts: bool)
    ensures Side(a + b, puts) == Side(a, puts) + Side(b, puts)
    decreases |a|
  {
    if a == [] {
      assert a + b == b;
    } else {
      hide Side;
      SideJoins(a[1..], b, puts);
      assert (a + b)[1..] == a[1..] + b && (a + b)[0] == a[0];
      SideStep(a, puts);
      SideStep(a + b, puts);
    }
  }

  lemma {:induction false} RunJoins(s: Stream, a: seq<Op>, b: seq<Op>)
    requires Ok(s)
    ensures Run(s, a + b) == Run(Run(s, a), b)
    decreases |b|
  {
    hide Ok, Step;
    if b == [] {
      assert a + b == a;
    } else {
      RunJoins(s, a, b[..|b| - 1]);
      assert (a + b)[..|a + b| - 1] == a + b[..|b| - 1];
    }
  }

  lemma RunOne(s: Stream, op: Op)
    requires Ok(s)
    ensures Run(s, [op]) == Step(s, op)
  {
    hide Ok, Step;
    assert [op][..0] == [];
  }

  lemma FlatFirst(sleeps: seq<seq<Op>>, n: nat)
    requires n < |sleeps|
    ensures Flat(sleeps[..n + 1]) == sleeps[0] + Flat(sleeps[1..][..n])
  {
    assert sleeps[..n + 1][1..] == sleeps[1..][..n];
  }

  /**
   * A read is one interleaving of its own turns with what others did in the sleeps it used:
   * whatever came into the pipe came from those.
   */
  lemma {:induction false} ReadIsInterleaving(s: Stream, count: int, sleeps: seq<seq<Op>>)
    requires Ok(s)
    ensures var r, ops := ReadRun(s, count, sleeps), ReadTrace(s, count, sleeps);
            r.s == Run(s, ops) && Side(ops, true) == Side(Flat(sleeps[..r.used]), true)
    decreases if count > 0 then count else 0, |sleeps|
  {
    hide Moves, Step, Run, Ok;
    OkParts(s);
    assert sleeps[..0] == [];
    if count <= 0 || (|s.sent| == |s.got| && sleeps == []) {
      RunNone(s);
    } else if |s.sent| == |s.got| {
      var s1, rest := Run(s, sleeps[0]), sleeps[1..];
      ReadIsInterleaving(s1, count, rest);
      var ops, used := ReadTrace(s1, count, rest), ReadRun(s1, count, rest).used;
      RunJoins(s, sleeps[0], ops);
      FlatFirst(sleeps, used);
      SideJoins(sleeps[0], ops, true);
      SideJoins(sleeps[0], Flat(rest[..used]), true);
    } else {
      GetStep(s, count);
      var s1, left := Step(s, Get(count)), count - |Moves(s, Get(count))|;
      ReadIsInterleaving(s1, left, sleeps);
      var ops := ReadTrace(s1, left, sleeps);
      RunJoins(s, [Get(count)], ops);
      RunOne(s, Get(count));
      SideOf(Get(count), ops, true);
    }
  }

  /** A write is one interleaving of its own turns with what others did in the sleeps it used. */
  lemma {:induction false} WriteIsInterleaving(s: Stream, buf: seq<Byte>, sleeps: seq<seq<Op>>)
    requires Ok(s)
    ensures var r, ops := WriteRun(s, buf, sleeps), WriteTrace(s, buf, sleeps);
            r.s == Run(s, ops) && Side(ops, false) == Side(Flat(sleeps[..r.used]), false)
    decreases |buf|, |sleeps|
  {
    hide Moves, Step, Run, Ok;
    assert sleeps[..0] == [];
    OkParts(s);
    var full := |s.sent| - |s.got| == PAGE_SIZE - 1;
    if buf == [] || (full && sleeps == []) {
      RunNone(s);
    } else if full {
      var s1, rest := Run(s, sleeps[0]), sleeps[1..];
      WriteIsInterleaving(s1, buf, rest);
      var ops, used := WriteTrace(s1, buf, rest), WriteRun(s1, buf, rest).used;
      RunJoins(s, sleeps[0], ops);
      FlatFirst(sleeps, used);
      SideJoins(sleeps[0], ops, false);
      SideJoins(sleeps[0], Flat(rest[..used]), false);
    } else {
      PutStep(s, buf);
      var s1, left := Step(s, Put(buf)), buf[|Moves(s, Put(buf))|..];
      WriteIsInterleaving(s1, left, sleeps);
      var ops := WriteTrace(s1, left, sleeps);
      RunJoins(s, [Put(buf)], ops);
      RunOne(s, Put(buf));
      SideOf(Put(buf), ops, false);
    }
  }

  lemma RunNone(s: Stream)
    requires Ok(s)
    ensures Run(s, []) == s
  {
  }

  lemma SideOf(op: Op, ops: seq<Op>, puts: bool)
    requires op.Put? != puts
    ensures Side([op] + ops, puts) == Side(ops, puts)
  {
    assert ([op] + ops)[1..] == ops;
  }

  /** No operation takes anything out (or, with puts, puts anything in). */
  ghost predicate Only(ops: seq<Op>, puts: bool) {
    forall i :: 0 <= i < |ops| ==> ops[i].Put? == puts
  }

  ghost predicate AllOnly(sleeps: seq<seq<Op>>, puts: bool) {
    forall i :: 0 <= i < |sleeps| ==> Only(sleeps[i], puts)
  }

  lemma {:induction false} OnlyRun(s: Stream, ops: seq<Op>, puts: bool)
    requires Ok(s) && Only(ops, puts)
    ensures if puts then Run(s, ops).got == s.got else Run(s, ops).sent == s.sent
    decreases |ops|
  {
    if ops != [] { OnlyRun(s, ops[..|ops| - 1], puts); }
  }

  /**
   * While no other reader comes in, a read returns the next bytes of the stream, whatever the
   * sleeps and the wrap-arounds.
   */
  lemma {:induction false} ReadIsNext(s: Stream, count: int, sleeps: seq<seq<Op>>)
    requires Ok(s) && AllOnly(sleeps, true)
    ensures ReadRun(s, count, sleeps).s.got == s.got + ReadRun(s, count, sleeps).moved
    decreases if count > 0 then count else 0, |sleeps|
  {
    hide Moves, Step, Run;
    if count > 0 {
      if |s.sent| == |s.got| {
        if sleeps != [] {
          assert Only(sleeps[0], true);
          OnlyRun(s, sleeps[0], true);
          ReadIsNext(Run(s, sleeps[0]), count, sleeps[1..]);
        }
      } else {
        GetStep(s, count);
        var out := Moves(s, Get(count));
        ReadIsNext(Step(s, Get(count)), count - |out|, sleeps);
        Associates(s.got, out, ReadRun(Step(s, Get(count)), count - |out|, sleeps).moved);
      }
    }
  }

  /** While no other writer comes in, a write adds exactly what it reports, in one piece. */
  lemma {:induction false} WriteIsNext(s: Stream, buf: seq<Byte>, sleeps: seq<seq<Op>>)
    requires Ok(s) && AllOnly(sleeps, false)
    ensures WriteRun(s, buf, sleeps).s.sent == s.sent + WriteRun(s, buf, sleeps).moved
    decreases |buf|, |sleeps|
  {
    hide Moves, Step, Run;
    if buf != [] {
      if |s.sent| - |s.got| == PAGE_SIZE - 1 {
        if sleeps != [] {
          assert Only(sleeps[0], false);
          OnlyRun(s, sleeps[0], false);
          WriteIsNext(Run(s, sleeps[0]), buf, sleeps[1..]);
        }
      } else {
        PutStep(s, buf);
        var n := |Moves(s, Put(buf))|;
        WriteIsNext(Step(s, Put(buf)), buf[n..], sleeps);
        Associates(s.sent, buf[..n], WriteRun(Step(s, Put(buf)), buf[n..], sleeps).moved);
      }
    }
  }

  lemma Front(a: seq<Byte>, i: nat, c: nat, n: nat)
    requires c <= n && i + n <= |a|
    ensures a[i..i + c] + a[i + c..i + n] == a[i..i + n]
  {
  }

  /** A call that never has to wait: it moves all it was asked for, across the end of the page. */
  lemma {:induction false} EnoughToRead(s: Stream, count: nat, sleeps: seq<seq<Op>>)
    requires Ok(s) && count <= |s.sent| - |s.got|
    ensures ReadRun(s, count, sleeps) == Outcome(s.(got := s.sent[..|s.got| + count]),
            s.sent[|s.got|..|s.got| + count], 0)
    decreases count
  {
    hide Moves, Step;
    if count > 0 {
      GetStep(s, count);
      var out := Moves(s, Get(count));
      EnoughToRead(Step(s, Get(count)), count - |out|, sleeps);
      Front(s.sent, |s.got|, |out|, count);
    }
  }

  lemma {:induction false} EnoughRoom(s: Stream, buf: seq<Byte>, sleeps: seq<seq<Op>>)
    requires Ok(s) && |buf| < PAGE_SIZE - (|s.sent| - |s.got|)
    ensures WriteRun(s, buf, sleeps) == Outcome(s.(sent := s.sent + buf), buf, 0)
    decreases |buf|
  {
    hide Moves, Step;
    if buf == [] {
      assert s.sent + buf == s.sent;
    } else {
      PutStep(s, buf);
      var n := |Moves(s, Put(buf))|;
      EnoughRoom(Step(s, Put(buf)), buf[n..], sleeps);
      assert buf[..n] + buf[n..] == buf;
      Associates(s.sent, buf[..n], buf[n..]);
    }
  }

  // ---------------------------------------------------------------- the ring

  class Ring {
    var page: array<Byte>
    var head: nat
    var tail: nat
    /** Everything ever written and everything ever read. */
    ghost var written: seq<Byte>
    ghost var taken: seq<Byte>

    ghost predicate Valid()
      reads this, page
    {
      && page.Length == PAGE_SIZE && head == |written| % PAGE_SIZE && tail == |taken| % PAGE_SIZE
      && Ok(Abs()) && written == taken + Contents()
    }

    ghost function Abs(): Stream
      reads this
    {
      Stream(written, taken)
    }

    ghost function Contents(): (c: seq<Byte>)
      reads this, page
      requires page.Length == PAGE_SIZE && head < PAGE_SIZE && tail < PAGE_SIZE
      ensures |c| == SizeOf(head, tail)
    {
      Span(page[..], tail, SizeOf(head, tail))
    }

    /** get_pipe_inode: both ends at the start of the page. */
    constructor ()
      ensures Valid() && fresh(page) && Abs() == Stream([], [])
    {
      page := new Byte[PAGE_SIZE](_ => 0);
      head, tail, written, taken := 0, 0, [], [];
    }

    /** Copy bytes out of the page, one at a time. */
    method CopyOut(at: nat, chars: nat) returns (out: seq<Byte>)
      requires at + chars <= page.Length
      ensures out == page[at..at + chars]
    {
      out := [];
      while |out| < chars
        invariant |out| <= chars && out == page[at..at + |out|]
      {
        out := out + [page[at + |out|]];
      }
    }

    /** Copy bytes into the page, one at a time. */
    method CopyIn(at: nat, buf: seq<Byte>)
      requires at + |buf| <= page.Length
      modifies page
      ensures page[..] == old(page[..at]) + buf + old(page[at + |buf|..])
    {
      var n := 0;
      while n < |buf|
        invariant n <= |buf| && page[..] == old(page[..at]) + buf[..n] + old(page[at + n..])
      {
        page[at + n] := buf[n];
        n := n + 1;
      }
      assert buf[..n] == buf;
    }

    /** One turn of the loop in read_pipe, with something to read. */
    method ReadChunk(count: nat) returns (out: seq<Byte>)
      requires Valid() && count > 0 && head != tail
      modifies this`tail, this`taken
      ensures Valid() && out != [] && out == Moves(old(Abs()), Get(count)) && Abs() == Step(old(Abs()), Get(count))
      ensures |out| == Min(Min(count, old(SizeOf(head, tail))), PAGE_SIZE - old(tail))
    {
      hide Span, SizeOf, Ok;
      OkParts(Abs());
      ghost var s := Abs();
      SizeIs(s, head, tail);
      var size := SizeOf(head, tail);
      var chars := PAGE_SIZE - tail;
      if chars > count { chars := count; }
      if chars > size { chars := size; }
      TakeIs(s, page[..], head, tail, chars);
      var at := tail;
      tail := (tail + chars) % PAGE_SIZE;
      out := CopyOut(at, chars);
      assert page[..][at..at + chars] == page[at..at + chars];
      taken := taken + out;
    }

    /** One turn of the loop in write_pipe, with room to write. */
    method WriteChunk(buf: seq<Byte>) returns (n: nat)
      requires Valid() && buf != [] && SizeOf(head, tail) < PAGE_SIZE - 1
      modifies this`head, this`written, page
      ensures Valid() && page == old(page)
      ensures 0 < n <= |buf| && buf[..n] == Moves(old(Abs()), Put(buf)) && Abs() == Step(old(Abs()), Put(buf))
      ensures n == Min(Min(|buf|, PAGE_SIZE - 1 - old(SizeOf(head, tail))), PAGE_SIZE - old(head))
    {
      hide Span, SizeOf, Ok;
      OkParts(Abs());
      ghost var s := Abs();
      SizeIs(s, head, tail);
      ghost var was := page[..];
      var size := PAGE_SIZE - 1 - SizeOf(head, tail);
      n := PAGE_SIZE - head;
      if n > |buf| { n := |buf|; }
      if n > size { n := size; }
      var chunk := buf[..n];
      var at := head;
      head := (head + n) % PAGE_SIZE;
      CopyIn(at, chunk);
      StoreIs(s, was, page[..], at, tail, chunk);
      written := written + chunk;
    }

    /** A turn of either side, skipped when it would have to wait. */
    method Turn(op: Op) returns (moved: seq<Byte>)
      requires Valid()
      modifies this, page
      ensures Valid() && page == old(page) && moved == Moves(old(Abs()), op) && Abs() == Step(old(Abs()), op)
    {
      hide Span, SizeOf;
      ghost var s := Abs();
      SizeIs(s, head, tail);
      moved := [];
      match op {
        case Put(bytes) =>
          if bytes != [] && SizeOf(head, tail) < PAGE_SIZE - 1 {
            var n := WriteChunk(bytes);
            moved := bytes[..n];
          }
        case Get(count) =>
          if count > 0 && head != tail { moved := ReadChunk(count); }
      }
      assert moved == [] ==> s.sent + [] == s.sent && s.got + [] == s.got;
    }

    /** Any interleaving of turns is the interleaving on the stream. */
    method Interleave(ops: seq<Op>) returns (moved: seq<seq<Byte>>)
      requires Valid()
      modifies this, page
      ensures Valid() && page == old(page) && Abs() == Run(old(Abs()), ops) && moved == Moved(old(Abs()), ops)
    {
      hide Span, SizeOf;
      ghost var s := Abs();
      moved := [];
      var i := 0;
      while i < |ops|
        invariant i <= |ops| && Valid() && page == old(page)
        invariant Abs() == Run(s, ops[..i]) && moved == Moved(s, ops[..i])
      {
        var m := Turn(ops[i]);
        moved := moved + [m];
        i := i + 1;
        assert ops[..i][..i - 1] == ops[..i - 1];
      }
      assert ops[..i] == ops;
    }

    /** read_pipe, with what other tasks do during each sleep. */
    method Read(count: int, sleeps: seq<seq<Op>>) returns (got: seq<Byte>, ghost used: nat)
      requires Valid()
      modifies this, page
      ensures Valid() && page == old(page) && Outcome(Abs(), got, used) == ReadRun(old(Abs()), count, sleeps)
    {
      hide Span, SizeOf, Step, Moves, ReadRun;
      ghost var all := ReadRun(Abs(), count, sleeps);
      ReadStarts(all, Abs(), count, sleeps);
      got := [];
      var rest, next := count, 0;
      while rest > 0
        invariant Valid() && page == old(page) && next <= |sleeps|
        invariant Follows(all, ReadRun(Abs(), rest, sleeps[next..]), got, next)
        decreases rest
      {
        SizeIs(Abs(), head, tail);
        while SizeOf(head, tail) == 0
          invariant Valid() && page == old(page) && next <= |sleeps|
          invariant Follows(all, ReadRun(Abs(), rest, sleeps[next..]), got, next)
          decreases |sleeps| - next
        {
          SizeIs(Abs(), head, tail);
          if next == |sleeps| {
            ReadEnds(all, Abs(), rest, sleeps, got, next);
            return got, next;
          }
          ReadSleeps(all, Abs(), rest, sleeps, got, next);
          var _ := Interleave(sleeps[next]);
          next := next + 1;
        }
        SizeIs(Abs(), head, tail);
        ReadGoesOn(all, Abs(), rest, sleeps, got, next);
        var out := ReadChunk(rest);
        rest := rest - |out|;
        got := got + out;
      }
      ReadEnds(all, Abs(), rest, sleeps, got, next);
      used := next;
    }

    /** write_pipe, with what other tasks do during each sleep. */
    method Write(buf: seq<Byte>, sleeps: seq<seq<Op>>) returns (n: nat, r: int, ghost used: nat)
      requires Valid()
      modifies this, page
      ensures Valid() && page == old(page) && n <= |buf|
      ensures Outcome(Abs(), buf[..n], used) == WriteRun(old(Abs()), buf, sleeps)
      ensures r == if n == 0 && buf != [] then -1 else n
    {
      hide Span, SizeOf, Step, Moves, WriteRun;
      ghost var all := WriteRun(Abs(), buf, sleeps);
      n := 0;
      var next := 0;
      WriteStarts(all, Abs(), buf, sleeps);
      assert buf[0..] == buf && buf[..0] == [] && sleeps[0..] == sleeps;
      while n < |buf|
        invariant Valid() && page == old(page) && n <= |buf| && next <= |sleeps|
        invariant Follows(all, WriteRun(Abs(), buf[n..], sleeps[next..]), buf[..n], next)
      {
        SizeIs(Abs(), head, tail);
        while SizeOf(head, tail) == PAGE_SIZE - 1
          invariant Valid() && page == old(page) && next <= |sleeps|
          invariant Follows(all, WriteRun(Abs(), buf[n..], sleeps[next..]), buf[..n], next)
          decreases |sleeps| - next
        {
          SizeIs(Abs(), head, tail);
          if next == |sleeps| {
            WriteEnds(all, Abs(), buf, n, sleeps, next);
            return n, if n == 0 then -1 else n, next;
          }
          WriteSleeps(all, Abs(), buf, n, sleeps, next);
          var _ := Interleave(sleeps[next]);
          next := next + 1;
        }
        SizeIs(Abs(), head, tail);
        WriteGoesOn(all, Abs(), buf, n, sleeps, next);
        var c := WriteChunk(buf[n..]);
        n := n + c;
      }
      WriteEnds(all, Abs(), buf, n, sleeps, next);
      r := n;
      used := next;
    }
  }

  /** The call as a whole is what it has moved so far and the rest of the call. */
  ghost predicate Follows(all: Outcome, rest: Outcome, moved: seq<Byte>, next: nat) {
    all.s == rest.s && all.moved == moved + rest.moved && all.used == next + rest.used
  }

  lemma ReadStarts(all: Outcome, s: Stream, count: int, sleeps: seq<seq<Op>>)
    requires Ok(s) && all == ReadRun(s, count, sleeps)
    ensures Follows(all, ReadRun(s, count, sleeps[0..]), [], 0)
  {
    hide ReadRun, Ok;
    assert sleeps[0..] == sleeps;
    assert [] + all.moved == all.moved;
  }

  /** read_pipe goes to sleep on an empty pipe. */
  lemma ReadSleeps(all: Outcome, s: Stream, rest: int, sleeps: seq<seq<Op>>, got: seq<Byte>, next: nat)
    requires Ok(s) && rest > 0 && next < |sleeps| && |s.sent| == |s.got|
    requires Follows(all, ReadRun(s, rest, sleeps[next..]), got, next)
    ensures Follows(all, ReadRun(Run(s, sleeps[next]), rest, sleeps[next + 1..]), got, next + 1)
  {
    hide Run, Moves, Step;
    assert sleeps[next..][1..] == sleeps[next + 1..];
  }

  /** read_pipe takes the next chunk. */
  lemma ReadGoesOn(all: Outcome, s: Stream, rest: int, sleeps: seq<seq<Op>>, got: seq<Byte>, next: nat)
    requires Ok(s) && rest > 0 && next <= |sleeps| && |s.sent| > |s.got|
    requires Follows(all, ReadRun(s, rest, sleeps[next..]), got, next)
    ensures var out := Moves(s, Get(rest));
            Follows(all, ReadRun(Step(s, Get(rest)), rest - |out|, sleeps[next..]), got + out, next)
  {
    hide Run, Moves, Step;
    GetStep(s, rest);
    var out := Moves(s, Get(rest));
    Associates(got, out, ReadRun(Step(s, Get(rest)), rest - |out|, sleeps[next..]).moved);
  }

  /** read_pipe has all it was asked for, or is empty with no writer left. */
  lemma ReadEnds(all: Outcome, s: Stream, rest: int, sleeps: seq<seq<Op>>, got: seq<Byte>, next: nat)
    requires Ok(s) && next <= |sleeps| && (rest <= 0 || (next == |sleeps| && |s.sent| == |s.got|))
    requires Follows(all, ReadRun(s, rest, sleeps[next..]), got, next)
    ensures all == Outcome(s, got, next)
  {
    hide Run, Moves, Step;
    assert got + [] == got;
  }

  lemma WriteStarts(all: Outcome, s: Stream, buf: seq<Byte>, sleeps: seq<seq<Op>>)
    requires Ok(s) && all == WriteRun(s, buf, sleeps)
    ensures Follows(all, WriteRun(s, buf, sleeps), [], 0)
  {
    hide WriteRun;
    assert [] + all.moved == all.moved;
  }

  /** write_pipe goes to sleep on a full pipe. */
  lemma WriteSleeps(all: Outcome, s: Stream, buf: seq<Byte>, n: nat, sleeps: seq<seq<Op>>, next: nat)
    requires Ok(s) && n < |buf| && next < |sleeps| && |s.sent| - |s.got| == PAGE_SIZE - 1
    requires Follows(all, WriteRun(s, buf[n..], sleeps[next..]), buf[..n], next)
    ensures Follows(all, WriteRun(Run(s, sleeps[next]), buf[n..], sleeps[next + 1..]), buf[..n], next + 1)
  {
    hide Run, Moves, Step;
    assert sleeps[next..][1..] == sleeps[next + 1..];
  }

  /** write_pipe stores the next chunk. */
  lemma WriteGoesOn(all: Outcome, s: Stream, buf: seq<Byte>, n: nat, sleeps: seq<seq<Op>>, next: nat)
    requires Ok(s) && n < |buf| && next <= |sleeps| && |s.sent| - |s.got| < PAGE_SIZE - 1
    requires Follows(all, WriteRun(s, buf[n..], sleeps[next..]), buf[..n], next)
    ensures var c := |Moves(s, Put(buf[n..]))|;
            n + c <= |buf| &&
            Follows(all, WriteRun(Step(s, Put(buf[n..])), buf[n + c..], sleeps[next..]), buf[..n + c], next)
  {
    hide Run, Moves, Step;
    PutStep(s, buf[n..]);
    var c := |Moves(s, Put(buf[n..]))|;
    Appended(buf, n, c);
    Associates(buf[..n], buf[n..][..c], WriteRun(Step(s, Put(buf[n..])), buf[n..][c..], sleeps[next..]).moved);
  }

  /** write_pipe has stored everything, or is full with no reader left. */
  lemma WriteEnds(all: Outcome, s: Stream, buf: seq<Byte>, n: nat, sleeps: seq<seq<Op>>, next: nat)
    requires Ok(s) && n <= |buf| && next <= |sleeps|
    requires n == |buf| || (next == |sleeps| && |s.sent| - |s.got| == PAGE_SIZE - 1)
    requires Follows(all, WriteRun(s, buf[n..], sleeps[next..]), buf[..n], next)
    ensures all == Outcome(s, buf[..n], next)
  {
    hide Run, Moves, Step;
    assert buf[..n] + [] == buf[..n];
  }

  /** PIPE_SIZE is what has been written and not yet read. */
  lemma SizeIs(s: Stream, head: nat, tail: nat)
    requires Ok(s) && head == |s.sent| % PAGE_SIZE && tail == |s.got| % PAGE_SIZE
    ensures SizeOf(head, tail) == |s.sent| - |s.got|
  {
  }

  lemma WrapsAt(a: nat, c: nat)
    ensures (a % PAGE_SIZE + c) % PAGE_SIZE == (a + c) % PAGE_SIZE
  {
  }

  /** The bytes in use are the first c of them, from the page, and those after the new tail. */
  lemma FrontAndRest(page: seq<Byte>, head: nat, tail: nat, c: nat)
    requires |page| == PAGE_SIZE && head < PAGE_SIZE && tail < PAGE_SIZE && c <= SizeOf(head, tail)
             && tail + c <= PAGE_SIZE
    ensures var tail' := (tail + c) % PAGE_SIZE;
            Span(page, tail, SizeOf(head, tail)) == page[tail..tail + c] + Span(page, tail', SizeOf(head, tail'))
  {
    hide Span, SizeOf;
    SpanDrop(page, tail, SizeOf(head, tail), c);
    SpanIsSlice(page, tail, c);
    SizeShrinks(head, tail, c);
  }

  /** Bytes stored at the head come after those in use. */
  lemma Extends(page: seq<Byte>, page': seq<Byte>, head: nat, tail: nat, chunk: seq<Byte>)
    requires |page| == PAGE_SIZE && head < PAGE_SIZE && tail < PAGE_SIZE && SizeOf(head, tail) + |chunk| < PAGE_SIZE
             && head + |chunk| <= PAGE_SIZE
    requires page' == page[..head] + chunk + page[head + |chunk|..]
    ensures |page'| == PAGE_SIZE && var head' := (head + |chunk|) % PAGE_SIZE;
            Span(page', tail, SizeOf(head', tail)) == Span(page, tail, SizeOf(head, tail)) + chunk
  {
    hide Span, SizeOf;
    HeadIs(head, tail);
    SizeGrows(head, tail, |chunk|);
    SpanGrow(page, page', tail, SizeOf(head, tail), head, chunk);
  }

  lemma Appended(buf: seq<Byte>, n: nat, c: nat)
    requires n + c <= |buf|
    ensures buf[..n] + buf[n..][..c] == buf[..n + c] && buf[n..][c..] == buf[n + c..]
  {
  }

  lemma HeadIs(head: nat, tail: nat)
    requires head < PAGE_SIZE && tail < PAGE_SIZE
    ensures head == (tail + SizeOf(head, tail)) % PAGE_SIZE
  {
  }

  lemma SizeShrinks(head: nat, tail: nat, c: nat)
    requires head < PAGE_SIZE && tail < PAGE_SIZE && c <= SizeOf(head, tail)
    ensures SizeOf(head, (tail + c) % PAGE_SIZE) == SizeOf(head, tail) - c
  {
  }

  lemma SizeGrows(head: nat, tail: nat, c: nat)
    requires head < PAGE_SIZE && tail < PAGE_SIZE && SizeOf(head, tail) + c < PAGE_SIZE
    ensures SizeOf((head + c) % PAGE_SIZE, tail) == SizeOf(head, tail) + c
  {
  }

  lemma OkParts(s: Stream)
    requires Ok(s)
    ensures 0 <= |s.sent| - |s.got| < PAGE_SIZE
  {
  }

  /** The bytes at the tail are the next of the stream; without them the ring holds the rest. */
  lemma TakeIs(s: Stream, page: seq<Byte>, head: nat, tail: nat, c: nat)
    requires Ok(s) && |page| == PAGE_SIZE && head == |s.sent| % PAGE_SIZE && tail == |s.got| % PAGE_SIZE
    requires s.sent == s.got + Span(page, tail, SizeOf(head, tail)) && c <= SizeOf(head, tail) && tail + c <= PAGE_SIZE
    ensures var out, tail' := page[tail..tail + c], (tail + c) % PAGE_SIZE;
            && |s.got| + c <= |s.sent| && out == s.sent[|s.got|..|s.got| + c] && tail' == |s.got + out| % PAGE_SIZE
            && s.sent == s.got + out + Span(page, tail', SizeOf(head, tail')) && Ok(s.(got := s.got + out))
  {
    hide Span, SizeOf;
    FrontAndRest(page, head, tail, c);
    WrapsAt(|s.got|, c);
    var out, tail' := page[tail..tail + c], (tail + c) % PAGE_SIZE;
    Associates(s.got, out, Span(page, tail', SizeOf(head, tail')));
  }

  /** Storing at the head adds to the stream. */
  lemma StoreIs(s: Stream, page: seq<Byte>, page': seq<Byte>, head: nat, tail: nat, chunk: seq<Byte>)
    requires Ok(s) && |page| == PAGE_SIZE && head == |s.sent| % PAGE_SIZE && tail == |s.got| % PAGE_SIZE
    requires s.sent == s.got + Span(page, tail, SizeOf(head, tail))
    requires SizeOf(head, tail) + |chunk| < PAGE_SIZE && head + |chunk| <= PAGE_SIZE
    requires page' == page[..head] + chunk + page[head + |chunk|..]
    ensures var head' := (head + |chunk|) % PAGE_SIZE;
            && |page'| == PAGE_SIZE && head' == |s.sent + chunk| % PAGE_SIZE
            && s.sent + chunk == s.got + Span(page', tail, SizeOf(head', tail)) && Ok(s.(sent := s.sent + chunk))
  {
    hide Span, SizeOf;
    Extends(page, page', head, tail, chunk);
    WrapsAt(|s.sent|, |chunk|);
    SizeIs(s, head, tail);
    Associates(s.got, Span(page, tail, SizeOf(head, tail)), chunk);
  }
}
