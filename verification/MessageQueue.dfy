/** A POSIX message queue in a memory-mapped file: two linked lists of slots, by offset. */
module MessageQueue {
  import opened PriorityQueue

  /** sizeof(long), sizeof(struct mymsg_hdr), and where mqh_head and mqh_free lie in the header. */
  const LONG: nat := 8
  const MSG_HDR: nat := 24
  const HEAD: nat := 32
  const FREE: nat := 40

  /** MSGSIZE: rounded up to a whole number of longs. */
  function Rounded(size: nat): (r: nat)
    ensures size <= r < size + LONG && r % LONG == 0
  {
    (size + LONG - 1) / LONG * LONG
  }

  /** Where the mapped file keeps its slots. */
  datatype Layout = Layout(hdr: nat, maxmsg: nat, msgsize: nat)

  ghost predicate LayoutOk(y: Layout) {
    FREE + LONG <= y.hdr && y.hdr % LONG == 0 && 0 < y.maxmsg && 0 < y.msgsize
  }

  function Stride(y: Layout): nat {
    MSG_HDR + Rounded(y.msgsize)
  }

  function Offset(y: Layout, k: nat): nat {
    y.hdr + k * Stride(y)
  }

  ghost predicate IsSlot(y: Layout, i: nat) {
    exists k :: 0 <= k < y.maxmsg && i == Offset(y, k)
  }

  lemma Times(a: nat, b: nat, c: nat)
    requires a <= b
    ensures a * c <= b * c
  {
  }

  /** Slots lie behind the header and inside the file, each with room for a whole message. */
  lemma SlotInFile(y: Layout, i: nat)
    requires LayoutOk(y) && IsSlot(y, i)
    ensures y.hdr <= i && i + MSG_HDR + y.msgsize <= i + Stride(y) <= y.hdr + y.maxmsg * Stride(y)
  {
    assert MSG_HDR + y.msgsize <= Stride(y);
    hide Stride, Rounded;
    var k :| 0 <= k < y.maxmsg && i == Offset(y, k);
    Times(k + 1, y.maxmsg, Stride(y));
    assert (k + 1) * Stride(y) == k * Stride(y) + Stride(y);
  }

  /** No two slots overlap. */
  lemma SlotsDisjoint(y: Layout, i: nat, j: nat)
    requires LayoutOk(y) && IsSlot(y, i) && IsSlot(y, j) && i != j
    ensures i + Stride(y) <= j || j + Stride(y) <= i
  {
    var a :| 0 <= a < y.maxmsg && i == Offset(y, a);
    var b :| 0 <= b < y.maxmsg && j == Offset(y, b);
    if a < b { Times(a + 1, b, Stride(y)); assert (a + 1) * Stride(y) == a * Stride(y) + Stride(y); }
    if b < a { Times(b + 1, a, Stride(y)); assert (b + 1) * Stride(y) == b * Stride(y) + Stride(y); }
  }

  /** The range of n bytes at a and that of m bytes at b have no byte in common. */
  predicate Separate(a: nat, n: nat, b: nat, m: nat) {
    a + n <= b || b + m <= a
  }

  /** The bytes of a message meet no slot header, and neither mqh_head nor mqh_free. */
  lemma BodyMeetsNoHeader(y: Layout, i: nat, j: nat, len: nat)
    requires LayoutOk(y) && IsSlot(y, i) && IsSlot(y, j) && len <= y.msgsize
    ensures Separate(i + MSG_HDR, len, j, MSG_HDR)
    ensures Separate(i + MSG_HDR, len, HEAD, LONG) && Separate(i + MSG_HDR, len, FREE, LONG)
    ensures Separate(j, MSG_HDR, HEAD, LONG) && Separate(j, MSG_HDR, FREE, LONG)
  {
    SlotInFile(y, i);
    SlotInFile(y, j);
    if i != j { SlotsDisjoint(y, i, j); }
  }

  // ---------------------------------------------------------------- message bytes

  function Peek(mem: map<nat, Byte>, a: nat): Byte {
    if a in mem then mem[a] else 0
  }

  function Fetch(mem: map<nat, Byte>, a: nat, n: nat): (r: seq<Byte>)
    ensures |r| == n && forall i :: 0 <= i < n ==> r[i] == Peek(mem, a + i)
  {
    if n == 0 then [] else Fetch(mem, a, n - 1) + [Peek(mem, a + n - 1)]
  }

  /** memcpy into the mapped file. */
  function Copy(mem: map<nat, Byte>, a: nat, bytes: seq<Byte>): map<nat, Byte> {
    if bytes == [] then mem else Copy(mem, a, bytes[..|bytes| - 1])[a + |bytes| - 1 := bytes[|bytes| - 1]]
  }

  lemma {:induction false} CopyAt(mem: map<nat, Byte>, a: nat, bytes: seq<Byte>, x: nat)
    ensures Peek(Copy(mem, a, bytes), x) == if a <= x < a + |bytes| then bytes[x - a] else Peek(mem, x)
  {
    if bytes != [] { CopyAt(mem, a, bytes[..|bytes| - 1], x); }
  }

  lemma FetchCopied(mem: map<nat, Byte>, a: nat, bytes: seq<Byte>)
    ensures Fetch(Copy(mem, a, bytes), a, |bytes|) == bytes
  {
    forall i | 0 <= i < |bytes| ensures Fetch(Copy(mem, a, bytes), a, |bytes|)[i]
        == bytes[i] { CopyAt(mem, a, bytes, a + i); }
  }

  lemma FetchElsewhere(mem: map<nat, Byte>, a: nat, bytes: seq<Byte>, b: nat, n: nat)
    requires b + n <= a || a + |bytes| <= b
    ensures Fetch(Copy(mem, a, bytes), b, n) == Fetch(mem, b, n)
  {
    forall i | 0 <= i < n ensures Fetch(Copy(mem, a, bytes), b, n)[i]
        == Fetch(mem, b, n)[i] { CopyAt(mem, a, bytes, b + i); }
  }

  // ---------------------------------------------------------------- linked lists by offset

  function At(s: seq<nat>, i: nat): nat {
    if i < |s| then s[i] else 0
  }

  ghost predicate Distinct(s: seq<nat>) {
    forall i, j :: 0 <= i < j < |s| ==> s[i] != s[j]
  }

  ghost predicate Link(links: map<nat, nat>, s: seq<nat>, i: nat) {
    i < |s| && s[i] in links && links[s[i]] == At(s, i + 1)
  }

  /** The long at offset at starts a list that runs through s. */
  ghost predicate Threaded(links: map<nat, nat>, at: nat, s: seq<nat>) {
    at in links && links[at] == At(s, 0) && forall i :: 0 <= i < |s| ==> Link(links, s, i)
  }

  /** Lists are kept by stores elsewhere. */
  lemma ThreadedApart(links: map<nat, nat>, links': map<nat, nat>, at: nat, s: seq<nat>)
    requires Threaded(links, at, s) && at in links' && links'[at] == links[at]
    requires forall i :: 0 <= i < |s| ==> s[i] in links' && (s[i] in links ==> links'[s[i]] == links[s[i]])
    ensures Threaded(links', at, s)
  {
    forall i | 0 <= i < |s| ensures Link(links', s, i) { assert Link(links, s, i); }
  }

  function Prev(s: seq<nat>, k: nat): nat
    requires k <= |s|
  {
    if k == 0 then HEAD else s[k - 1]
  }

  function InsertSlot(s: seq<nat>, k: nat, n: nat): (r: seq<nat>)
    requires k <= |s|
    ensures |r| == |s| + 1
  {
    s[..k] + [n] + s[k..]
  }

  lemma InsertSlotAt(s: seq<nat>, k: nat, n: nat, i: nat)
    requires k <= |s| && i <= |s|
    ensures InsertSlot(s, k, n)[i] == if i < k then s[i] else if i == k then n else s[i - 1]
  {
  }

  /** Slot n is linked in at place k of the message list. */
  lemma InsertThreads(links: map<nat, nat>, s: seq<nat>, k: nat, n: nat)
    requires Threaded(links, HEAD, s) && Distinct(s) && k <= |s| && n !in s && n != HEAD && HEAD !in s
    ensures Threaded(links[n := At(s, k)][Prev(s, k) := n], HEAD, InsertSlot(s, k, n))
  {
    var r := InsertSlot(s, k, n);
    var links' := links[n := At(s, k)][Prev(s, k) := n];
    hide InsertSlot;
    InsertSlotAt(s, k, n, 0);
    if k > 0 { assert s[k - 1] in s; }
    forall i | 0 <= i < |r| ensures Link(links', r, i) {
      InsertLink(links, s, k, n, i);
    }
  }

  lemma InsertLink(links: map<nat, nat>, s: seq<nat>, k: nat, n: nat, i: nat)
    requires Threaded(links, HEAD, s) && Distinct(s) && k <= |s| && n !in s && n != HEAD && HEAD !in s && i <= |s|
    ensures Link(links[n := At(s, k)][Prev(s, k) := n], InsertSlot(s, k, n), i)
  {
    var r := InsertSlot(s, k, n);
    hide InsertSlot, Threaded;
    InsertSlotAt(s, k, n, i);
    if i < |s| { InsertSlotAt(s, k, n, i + 1); }
    if i < k {
      LinkAt(links, HEAD, s, i);
      if i + 1 < k { Apart(s, i, k - 1); }
    } else if i > k {
      LinkAt(links, HEAD, s, i - 1);
      if k > 0 { Apart(s, i - 1, k - 1); }
      assert s[i - 1] in s;
    } else if k > 0 {
      assert s[k - 1] in s;
    }
  }

  lemma LinkAt(links: map<nat, nat>, at: nat, s: seq<nat>, i: nat)
    requires Threaded(links, at, s) && i < |s|
    ensures s[i] in s && s[i] in links && links[s[i]] == At(s, i + 1)
  {
    assert Link(links, s, i);
  }

  lemma Apart(s: seq<nat>, i: nat, j: nat)
    requires Distinct(s) && i < |s| && j < |s| && i != j
    ensures s[i] != s[j]
  {
  }

  /** The list without its first slot. */
  lemma TailThreads(links: map<nat, nat>, links': map<nat, nat>, at: nat, s: seq<nat>)
    requires Threaded(links, at, s) && s != [] && Distinct(s) && at in links' && links'[at] == At(s, 1)
    requires forall i :: 1 <= i < |s| ==> s[i] in links' && (s[i] in links ==> links'[s[i]] == links[s[i]])
    ensures Threaded(links', at, s[1..])
  {
    forall i | 0 <= i < |s| - 1 ensures Link(links', s[1..], i) { assert Link(links, s, i + 1); }
  }

  /** A slot pushed on the front of a list. */
  lemma PushThreads(links: map<nat, nat>, links': map<nat, nat>, at: nat, s: seq<nat>, n: nat)
    requires Threaded(links, at, s) && at in links' && links'[at] == n && n in links' && links'[n] == links[at]
    requires forall i :: 0 <= i < |s| ==> s[i] in links' && (s[i] in links ==> links'[s[i]] == links[s[i]])
    ensures Threaded(links', at, [n] + s)
  {
    forall i | 0 <= i < |s| + 1 ensures Link(links', [n] + s, i) {
      if i > 0 { assert Link(links, s, i - 1); }
    }
  }

  // ---------------------------------------------------------------- the queue

  datatype Outcome = Done | MsgSize | Again | Blocked | Dumped

  ghost predicate Slots(y: Layout, s: seq<nat>) {
    forall i :: 0 <= i < |s| ==> IsSlot(y, s[i])
  }

  ghost predicate Disjoint(a: seq<nat>, b: seq<nat>) {
    forall i, j :: 0 <= i < |a| && 0 <= j < |b| ==> a[i] != b[j]
  }

  /** Message list and free list together hold every slot once. */
  ghost predicate Partition(y: Layout, list: seq<nat>, free: seq<nat>) {
    Slots(y, list) && Slots(y, free) && Distinct(list) && Distinct(free) && Disjoint(list, free)
        && |list| + |free| == y.maxmsg
  }

  function MsgAt(lens: map<nat, nat>, prios: map<nat, nat>, mem: map<nat, Byte>, i: nat): Msg
    requires i in lens && i in prios
  {
    Msg(prios[i], Fetch(mem, i + MSG_HDR, lens[i]))
  }

  ghost predicate Filled(y: Layout, lens: map<nat, nat>, prios: map<nat, nat>, list: seq<nat>) {
    forall i :: 0 <= i < |list| ==> list[i] in lens && list[i] in prios && lens[list[i]] <= y.msgsize
  }

  function Messages(lens: map<nat, nat>, prios: map<nat, nat>, mem: map<nat, Byte>, list: seq<nat>): (r: seq<Msg>)
    requires forall i :: 0 <= i < |list| ==> list[i] in lens && list[i] in prios
    ensures |r| == |list| && forall i :: 0 <= i < |list| ==> r[i] == MsgAt(lens, prios, mem, list[i])
  {
    if list == [] then [] else [MsgAt(lens, prios, mem, list[0])] + Messages(lens, prios, mem, list[1..])
  }

  class Queue {
    const y: Layout
    var curmsgs: nat
    /** The longs msg_next, mqh_head and mqh_free, by offset in the file, apart from mem (BodyMeetsNoHeader). */
    var links: map<nat, nat>
    var lens: map<nat, nat>
    var prios: map<nat, nat>
    var mem: map<nat, Byte>
    ghost var list: seq<nat>
    ghost var free: seq<nat>

    ghost predicate Valid()
      reads this
    {
      && LayoutOk(y) && Partition(y, list, free) && curmsgs == |list|
      && Threaded(links, HEAD, list) && Threaded(links, FREE, free) && Filled(y, lens, prios, list)
    }

    ghost function Contents(): (q: seq<Msg>)
      reads this
      requires Valid()
    {
      Messages(lens, prios, mem, list)
    }

    /** mymq_open of a new queue: all slots on the free list, in file order. */
    constructor (hdr: nat, maxmsg: nat, msgsize: nat)
      requires LayoutOk(Layout(hdr, maxmsg, msgsize))
      ensures Valid() && Contents() == [] && y == Layout(hdr, maxmsg, msgsize)
    {
      y := Layout(hdr, maxmsg, msgsize);
      curmsgs, lens, prios, mem := 0, map[], map[], map[];
      list := [];
      free := AllSlots(Layout(hdr, maxmsg, msgsize), maxmsg);
      links := map[];
      new;
      var index := hdr;
      links := links[HEAD := 0][FREE := index];
      hide LayoutOk;
      assert index == Offset(y, 0);
      var i := 0;
      while i < maxmsg - 1
        invariant 0 <= i < maxmsg && index == Offset(y, i) && LayoutOk(y)
        invariant curmsgs == 0 && list == [] && free == AllSlots(y, maxmsg)
        invariant HEAD in links && links[HEAD] == 0 && FREE in links && links[FREE] == hdr
        invariant forall j :: 0 <= j < i ==> Chained(links, y, j)
      {
        Laying(links, y, i);
        links := links[index := index + MSG_HDR + Rounded(msgsize)];
        index := index + (MSG_HDR + Rounded(msgsize));
        i := i + 1;
      }
      LaidOut(links, y);
      links := links[index := 0];
    }

    /** The walk of mymq_send: past all messages of at least this priority. */
    method FindPlace(prio: nat) returns (index: nat, p: nat, ghost k: nat)
      requires LayoutOk(y) && Slots(y, list) && Threaded(links, HEAD, list) && Filled(y, lens, prios, list)
      ensures k <= |list| && p == Prev(list, k) && index == At(list, k)
      ensures forall i :: 0 <= i < k ==> prios[list[i]] >= prio
      ensures k < |list| ==> prio > prios[list[k]]
    {
      hide Threaded, IsSlot;
      ListHead(links, list);
      index, p, k := links[HEAD], HEAD, 0;
      while index != 0
        invariant k <= |list| && index == At(list, k) && p == Prev(list, k)
        invariant forall i :: 0 <= i < k ==> prios[list[i]] >= prio
        decreases |list| - k
      {
        LinkAt(links, HEAD, list, k);
        if prio > prios[index] { return; }
        p := index;
        index := links[index];
        k := k + 1;
      }
      if k < |list| { NotNull(y, list[k]); }
    }

    /** mymq_send; with nonblock false a full queue makes the caller wait, here Blocked. */
    method Send(bytes: seq<Byte>, prio: nat, nonblock: bool) returns (r: Outcome)
      requires Valid()
      modifies this
      ensures Valid()
      ensures r == if |bytes| > y.msgsize then MsgSize
              else if |old(Contents())| >= y.maxmsg then (if nonblock then Again else Blocked) else Done
      ensures Contents() == if r == Done then Insert(old(Contents()), Msg(prio, bytes)) else old(Contents())
    {
      hide Threaded, IsSlot, Insert, Messages, Fetch, Copy;
      if |bytes| > y.msgsize { return MsgSize; }
      if curmsgs >= y.maxmsg { return if nonblock then Again else Blocked; }
      ghost var was := Contents();
      FreeHead(y, links, list, free);
      var n := links[FREE];
      if n == 0 { return Dumped; }
      ghost var lens0, prios0, mem0 := lens, prios, mem;
      prios := prios[n := prio];
      lens := lens[n := |bytes|];
      mem := Copy(mem, n + MSG_HDR, bytes);
      TakeFree(y, links, list, free);
      Unmoved(y, lens0, prios0, mem0, list, n, prio, bytes);
      links := links[FREE := links[n]];
      free := free[1..];
      LinkMessage(n, Msg(prio, bytes));
      r := Done;
    }

    /** The slot just filled joins the message list at the place of its priority. */
    method LinkMessage(n: nat, ghost m: Msg)
      requires LayoutOk(y) && Slots(y, list) && Slots(y, free) && Distinct(list) && Distinct(free)
               && Disjoint(list, free)
      requires IsSlot(y, n) && n !in list && n !in free && |list| + 1 + |free| == y.maxmsg && curmsgs == |list|
      requires Threaded(links, HEAD, list) && Threaded(links, FREE, free) && Filled(y, lens, prios, list)
      requires n in lens && n in prios && lens[n] <= y.msgsize && MsgAt(lens, prios, mem, n) == m
      modifies this`links, this`list, this`curmsgs
      ensures Valid() && Contents() == Insert(Messages(lens, prios, mem, old(list)), m)
    {
      hide Threaded, IsSlot, Insert, Messages, Fetch, Slots, Distinct, Disjoint;
      var index, p, k := FindPlace(prios[n]);
      LinkIn(y, links, list, free, n, k);
      InsertMessage(y, lens, prios, mem, list, k, n, m);
      if index != 0 {
        links := links[n := index];
        links := links[p := n];
      } else {
        links := links[p := n];
        links := links[n := 0];
      }
      assert links == old(links)[n := index][p := n];
      list := InsertSlot(list, k, n);
      curmsgs := curmsgs + 1;
    }

    /** mymq_receive; the message delivered is the first of the queue. */
    method Receive(maxlen: nat, nonblock: bool) returns (r: Outcome, m: Msg)
      requires Valid()
      modifies this
      ensures Valid()
      ensures r == if maxlen < y.msgsize then MsgSize
              else if old(Contents()) == [] then (if nonblock then Again else Blocked) else Done
      ensures if r == Done then old(Contents()) == [m] + Contents() else Contents() == old(Contents())
    {
      hide Threaded, IsSlot, Messages, Fetch;
      m := Msg(0, []);
      if maxlen < y.msgsize { return MsgSize, m; }
      if curmsgs == 0 { return if nonblock then Again else Blocked, m; }
      MsgHead(y, links, list, free);
      var index: nat := links[HEAD];
      if index == 0 { return Dumped, m; }
      Unlinked(y, links, list, free);
      FirstMessage(lens, prios, mem, list);
      links := links[HEAD := links[index]];
      var len := lens[index];
      m := Msg(prios[index], Fetch(mem, index + MSG_HDR, len));
      links := links[index := links[FREE]];
      links := links[FREE := index];
      list, free := list[1..], [index] + free;
      curmsgs := curmsgs - 1;
      r := Done;
    }
  }

  lemma ListHead(links: map<nat, nat>, list: seq<nat>)
    requires Threaded(links, HEAD, list)
    ensures HEAD in links && links[HEAD] == At(list, 0)
  {
  }

  lemma NotNull(y: Layout, i: nat)
    requires LayoutOk(y) && IsSlot(y, i)
    ensures i > FREE
  {
    SlotInFile(y, i);
  }

  /** With room in the queue the free list is not empty. */
  lemma FreeHead(y: Layout, links: map<nat, nat>, list: seq<nat>, free: seq<nat>)
    requires LayoutOk(y) && Partition(y, list, free) && |list| < y.maxmsg && Threaded(links, FREE, free)
    ensures free != [] && FREE in links && links[FREE] == free[0] && free[0] > FREE && free[0] in links
            && links[free[0]] == At(free, 1)
  {
    NotNull(y, free[0]);
    LinkAt(links, FREE, free, 0);
  }

  lemma MsgHead(y: Layout, links: map<nat, nat>, list: seq<nat>, free: seq<nat>)
    requires LayoutOk(y) && Partition(y, list, free) && list != [] && Threaded(links, HEAD, list)
             && Threaded(links, FREE, free)
    ensures HEAD in links && links[HEAD] == list[0] && list[0] > FREE && list[0] in links
            && links[list[0]] == At(list, 1)
    ensures FREE in links && links[FREE] == At(free, 0)
  {
    NotNull(y, list[0]);
    LinkAt(links, HEAD, list, 0);
  }

  lemma AllAboveFree(y: Layout, s: seq<nat>)
    requires LayoutOk(y) && Slots(y, s)
    ensures forall i :: 0 <= i < |s| ==> s[i] > FREE
  {
    forall i | 0 <= i < |s| ensures s[i] > FREE { NotNull(y, s[i]); }
  }

  lemma AllLinked(links: map<nat, nat>, at: nat, s: seq<nat>)
    requires Threaded(links, at, s)
    ensures at in links && links[at] == At(s, 0) && forall i :: 0 <= i < |s| ==> s[i] in links
  {
    forall i | 0 <= i < |s| ensures s[i] in links { assert Link(links, s, i); }
  }

  /** The first free slot leaves the free list; the message list does not notice. */
  lemma TakeFree(y: Layout, links: map<nat, nat>, list: seq<nat>, free: seq<nat>)
    requires LayoutOk(y) && Partition(y, list, free) && free != [] && Threaded(links, HEAD, list)
             && Threaded(links, FREE, free)
    requires free[0] in links && links[free[0]] == At(free, 1)
    ensures var links' := links[FREE := links[free[0]]];
            Threaded(links', HEAD, list) && Threaded(links', FREE, free[1..]) && Distinct(free[1..])
                && Slots(y, free[1..])
    ensures Disjoint(list, free[1..]) && free[0] !in list && free[0] !in free[1..] && free[0] > FREE
  {
    AllAboveFree(y, list);
    AllAboveFree(y, free);
    AllLinked(links, HEAD, list);
    AllLinked(links, FREE, free);
    var links' := links[FREE := links[free[0]]];
    TailThreads(links, links', FREE, free);
    ThreadedApart(links, links', HEAD, list);
  }

  lemma LinkIn(y: Layout, links: map<nat, nat>, list: seq<nat>, free: seq<nat>, n: nat, k: nat)
    requires LayoutOk(y) && Slots(y, list) && Slots(y, free) && Distinct(list) && Distinct(free) && Disjoint(list, free)
    requires IsSlot(y, n) && n !in list && n !in free && k <= |list| && Threaded(links, HEAD, list)
             && Threaded(links, FREE, free)
    ensures var links' := links[n := At(list, k)][Prev(list, k) := n]; var list' := InsertSlot(list, k, n);
            && Threaded(links', HEAD, list') && Threaded(links', FREE, free)
            && Slots(y, list') && Distinct(list') && Disjoint(list', free)
    ensures n != Prev(list, k)
  {
    AllAboveFree(y, list);
    AllAboveFree(y, free);
    NotNull(y, n);
    AllLinked(links, FREE, free);
    hide IsSlot, Threaded;
    InsertThreads(links, list, k, n);
    var links' := links[n := At(list, k)][Prev(list, k) := n];
    ThreadedApart(links, links', FREE, free);
    InsertDistinct(list, k, n);
    hide InsertSlot;
    forall i | 0 <= i <= |list| ensures IsSlot(y, InsertSlot(list, k, n)[i])
        && InsertSlot(list, k, n)[i] !in free { InsertSlotAt(list, k, n, i); }
  }

  lemma InsertDistinct(list: seq<nat>, k: nat, n: nat)
    requires Distinct(list) && n !in list && k <= |list|
    ensures Distinct(InsertSlot(list, k, n))
  {
    var r := InsertSlot(list, k, n);
    hide InsertSlot;
    forall i, j | 0 <= i < j < |r| ensures r[i] != r[j] {
      InsertSlotAt(list, k, n, i);
      InsertSlotAt(list, k, n, j);
    }
  }

  /** Filling in slot n changes no queued message. */
  lemma Unmoved(y: Layout, lens: map<nat, nat>, prios: map<nat, nat>, mem: map<nat, Byte>, list: seq<nat>, n: nat,
                prio: nat, bytes: seq<Byte>)
    requires LayoutOk(y) && Slots(y, list) && Filled(y, lens, prios, list) && IsSlot(y, n) && n !in list
             && |bytes| <= y.msgsize
    ensures var lens', prios', mem' := lens[n := |bytes|], prios[n := prio], Copy(mem, n + MSG_HDR, bytes);
            && Filled(y, lens', prios', list) && Messages(lens', prios', mem', list) == Messages(lens, prios, mem, list)
            && MsgAt(lens', prios', mem', n) == Msg(prio, bytes)
  {
    hide IsSlot, Messages, Fetch, Copy;
    var lens', prios', mem' := lens[n := |bytes|], prios[n := prio], Copy(mem, n + MSG_HDR, bytes);
    FetchCopied(mem, n + MSG_HDR, bytes);
    forall i | 0 <= i < |list| ensures MsgAt(lens', prios', mem', list[i]) == MsgAt(lens, prios, mem, list[i]) {
      SlotsDisjoint(y, n, list[i]);
      FetchElsewhere(mem, n + MSG_HDR, bytes, list[i] + MSG_HDR, lens[list[i]]);
    }
  }

  /** Linking a slot in at place k is inserting its message there. */
  lemma InsertMessage(y: Layout, lens: map<nat, nat>, prios: map<nat, nat>, mem: map<nat, Byte>, list: seq<nat>,
                      k: nat, n: nat, m: Msg)
    requires Filled(y, lens, prios, list) && k <= |list| && n in lens && n in prios && lens[n] <= y.msgsize
             && MsgAt(lens, prios, mem, n) == m
    requires (forall i :: 0 <= i < k ==> prios[list[i]] >= m.prio) && (k < |list| ==> m.prio > prios[list[k]])
    ensures Filled(y, lens, prios, InsertSlot(list, k, n))
    ensures Messages(lens, prios, mem, InsertSlot(list, k, n)) == Insert(Messages(lens, prios, mem, list), m)
  {
    hide Messages, Fetch, InsertSlot, Insert, MsgAt;
    var q, list' := Messages(lens, prios, mem, list), InsertSlot(list, k, n);
    FilledIn(y, lens, prios, list, k, n);
    forall i | 0 <= i < |list| ensures q[i].prio == prios[list[i]] { PrioOf(lens, prios, mem, list[i]); }
    InsertAt(q, m, k);
    var q' := Messages(lens, prios, mem, list');
    forall i | 0 <= i < |q'| ensures q'[i] == (q[..k] + [m] + q[k..])[i] {
      InsertSlotAt(list, k, n, i);
      assert q'[i] == MsgAt(lens, prios, mem, list'[i]);
    }
  }

  lemma PrioOf(lens: map<nat, nat>, prios: map<nat, nat>, mem: map<nat, Byte>, i: nat)
    requires i in lens && i in prios
    ensures MsgAt(lens, prios, mem, i).prio == prios[i]
  {
  }

  lemma FilledIn(y: Layout, lens: map<nat, nat>, prios: map<nat, nat>, list: seq<nat>, k: nat, n: nat)
    requires Filled(y, lens, prios, list) && k <= |list| && n in lens && n in prios && lens[n] <= y.msgsize
    ensures Filled(y, lens, prios, InsertSlot(list, k, n))
  {
    hide InsertSlot;
    var r := InsertSlot(list, k, n);
    forall i | 0 <= i < |r| ensures r[i] in lens && r[i] in prios && lens[r[i]] <= y.msgsize {
      InsertSlotAt(list, k, n, i);
    }
  }

  /** The first message's slot moves from the message list to the free list. */
  lemma Unlinked(y: Layout, links: map<nat, nat>, list: seq<nat>, free: seq<nat>)
    requires LayoutOk(y) && Partition(y, list, free) && list != [] && Threaded(links, HEAD, list)
             && Threaded(links, FREE, free)
    ensures HEAD in links && FREE in links && list[0] in links && Partition(y, list[1..], [list[0]] + free)
    ensures var links' := links[HEAD := links[list[0]]][list[0] := links[FREE]][FREE := list[0]];
            Threaded(links', HEAD, list[1..]) && Threaded(links', FREE, [list[0]] + free)
  {
    AllAboveFree(y, list);
    AllAboveFree(y, free);
    AllLinked(links, HEAD, list);
    AllLinked(links, FREE, free);
    LinkAt(links, HEAD, list, 0);
    var links' := links[HEAD := links[list[0]]][list[0] := links[FREE]][FREE := list[0]];
    MovedSlot(y, list, free);
    hide IsSlot, Slots, Threaded;
    TailThreads(links, links', HEAD, list);
    PushThreads(links, links', FREE, free, list[0]);
  }

  lemma MovedSlot(y: Layout, list: seq<nat>, free: seq<nat>)
    requires Partition(y, list, free) && list != []
    ensures Partition(y, list[1..], [list[0]] + free)
  {
    hide IsSlot;
  }

  lemma FirstMessage(lens: map<nat, nat>, prios: map<nat, nat>, mem: map<nat, Byte>, list: seq<nat>)
    requires list != [] && forall i :: 0 <= i < |list| ==> list[i] in lens && list[i] in prios
    ensures Messages(lens, prios, mem, list) == [MsgAt(lens, prios, mem, list[0])]
            + Messages(lens, prios, mem, list[1..])
  {
  }

  /** The slots of a file in order. */
  function AllSlots(y: Layout, n: nat): (r: seq<nat>)
    ensures |r| == n && forall k :: 0 <= k < n ==> r[k] == Offset(y, k)
  {
    if n == 0 then [] else AllSlots(y, n - 1) + [Offset(y, n - 1)]
  }

  ghost predicate Chained(links: map<nat, nat>, y: Layout, j: nat) {
    Offset(y, j) in links && links[Offset(y, j)] == Offset(y, j + 1)
  }

  lemma OffsetsRise(y: Layout, i: nat, j: nat)
    requires i < j
    ensures Offset(y, i) + Stride(y) <= Offset(y, j)
  {
    Times(i + 1, j, Stride(y));
    assert (i + 1) * Stride(y) == i * Stride(y) + Stride(y);
  }

  lemma Laying(links: map<nat, nat>, y: Layout, i: nat)
    requires LayoutOk(y) && forall j :: 0 <= j < i ==> Chained(links, y, j)
    ensures Offset(y, i) + MSG_HDR + Rounded(y.msgsize) == Offset(y, i + 1) && Offset(y, i) > FREE
    ensures var links' := links[Offset(y, i) := Offset(y, i + 1)]; forall j :: 0 <= j < i + 1 ==> Chained(links', y, j)
  {
    assert (i + 1) * Stride(y) == i * Stride(y) + Stride(y);
    hide Offset, Rounded;
    if i > 0 { OffsetsRise(y, 0, i); }
    FirstOffset(y);
    var links' := links[Offset(y, i) := Offset(y, i + 1)];
    forall j | 0 <= j < i + 1 ensures Chained(links', y, j) {
      if j < i { assert Chained(links, y, j); OffsetsRise(y, j, i); }
    }
  }

  lemma FirstOffset(y: Layout)
    ensures Offset(y, 0) == y.hdr
  {
  }

  lemma LaidOut(links: map<nat, nat>, y: Layout)
    requires LayoutOk(y) && HEAD in links && links[HEAD] == 0 && FREE in links && links[FREE] == y.hdr
    requires forall j :: 0 <= j < y.maxmsg - 1 ==> Chained(links, y, j)
    ensures var links' := links[Offset(y, y.maxmsg - 1) := 0]; var free := AllSlots(y, y.maxmsg);
            Threaded(links', HEAD, []) && Threaded(links', FREE, free) && Partition(y, [], free)
  {
    hide Rounded, AllSlots;
    var n := y.maxmsg;
    var links', free := links[Offset(y, n - 1) := 0], AllSlots(y, n);
    FirstOffset(y);
    hide Offset;
    if n > 1 { OffsetsRise(y, 0, n - 1); }
    forall i | 0 <= i < n ensures Link(links', free, i) && IsSlot(y, free[i]) {
      assert free[i] == Offset(y, i);
      if i < n - 1 { assert Chained(links, y, i) && free[i + 1] == Offset(y, i + 1); OffsetsRise(y, i, n - 1); }
    }
    forall i, j | 0 <= i < j < n ensures free[i] != free[j] { OffsetsRise(y, i, j); }
  }

  // ---------------------------------------------------------------- opening and whole runs

  /** What mymq_open is given: no attributes, or a number of messages and a size. */
  datatype Attr = Default | Given(maxmsg: int, msgsize: int)

  /** mymq_open for a queue that does not exist yet; null is its EINVAL. */
  method Open(hdr: nat, attr: Attr) returns (q: Queue?)
    requires FREE + LONG <= hdr && hdr % LONG == 0
    ensures q == null <==> attr.Given? && (attr.maxmsg <= 0 || attr.msgsize <= 0)
    ensures q != null ==> fresh(q) && q.Valid() && q.Contents() == []
    ensures q != null ==> q.y == if attr.Given? then Layout(hdr, attr.maxmsg, attr.msgsize) else Layout(hdr, 128, 1024)
  {
    match attr
    case Default => q := new Queue(hdr, 128, 1024);
    case Given(maxmsg, msgsize) =>
      if maxmsg <= 0 || msgsize <= 0 { return null; }
      q := new Queue(hdr, maxmsg, msgsize);
  }

  datatype Call = SendCall(m: Msg) | ReceiveCall(maxlen: nat)

  /** The result of a non-blocking call when the priority queue has gone through h. */
  function Result(h: History, c: Call, y: Layout): Outcome {
    match c
    case SendCall(m) => if |m.bytes| > y.msgsize then MsgSize else if |h.q| >= y.maxmsg then Again else Done
    case ReceiveCall(maxlen) => if maxlen < y.msgsize then MsgSize else if h.q == [] then Again else Done
  }

  /** A call that is not refused adds its operation to those that took effect. */
  function Taken(e: seq<Op>, c: Call, y: Layout): seq<Op> {
    if Result(Run(e), c, y) != Done then e else e + [if c.SendCall? then Op.Send(c.m) else Op.Receive]
  }

  /** The operations of the calls that are not refused. */
  function Effective(calls: seq<Call>, y: Layout): seq<Op> {
    if calls == [] then [] else Taken(Effective(calls[..|calls| - 1], y), calls[|calls| - 1], y)
  }

  function Results(calls: seq<Call>, y: Layout): (r: seq<Outcome>)
    ensures |r| == |calls|
  {
    if calls == [] then [] else
      var most := calls[..|calls| - 1];
      Results(most, y) + [Result(Run(Effective(most, y)), calls[|calls| - 1], y)]
  }

  /** A queue that holds what the priority queue holds after e, with got delivered. */
  ghost predicate Agrees(e: seq<Op>, contents: seq<Msg>, got: seq<Msg>) {
    contents == Plain(Run(e).q) && got == Plain(Run(e).got)
  }

  /** One call on a queue that has gone through e. */
  method Do(q: Queue, c: Call, ghost e: seq<Op>, got: seq<Msg>) returns (r: Outcome, got': seq<Msg>)
    requires q.Valid() && Agrees(e, q.Contents(), got)
    modifies q
    ensures q.Valid() && r == Result(Run(e), c, q.y) && Agrees(Taken(e, c, q.y), q.Contents(), got')
  {
    hide Run, Plain, Insert, Messages, Threaded, Partition, Filled, LayoutOk;
    PlainLength(Run(e).q);
    got' := got;
    match c
    case SendCall(m) =>
      r := q.Send(m.bytes, m.prio, true);
      Sent(e, m);
    case ReceiveCall(maxlen) =>
      var m;
      r, m := q.Receive(maxlen, true);
      if r == Done {
        Received(e, m, q.Contents());
        got' := got + [m];
      }
  }

  /**
   * Any run of calls on a new queue is the run of the priority queue over the calls that
   * are not refused; the refusals, the messages delivered and the queue left are its own.
   */
  method Replay(q: Queue, calls: seq<Call>) returns (rs: seq<Outcome>, got: seq<Msg>)
    requires q.Valid() && q.Contents() == []
    modifies q
    ensures q.Valid() && rs == Results(calls, q.y)
    ensures Agrees(Effective(calls, q.y), q.Contents(), got)
  {
    hide Messages, Threaded, Partition, Filled, LayoutOk, Result;
    rs, got := [], [];
    var i := 0;
    while i < |calls|
      invariant i <= |calls| && q.Valid() && rs == Results(calls[..i], q.y)
      invariant Agrees(Effective(calls[..i], q.y), q.Contents(), got)
    {
      hide Agrees, Run, Plain, Results, Effective;
      CallStep(calls, i, q.y);
      var r;
      r, got := Do(q, calls[i], Effective(calls[..i], q.y), got);
      rs := rs + [r];
      i := i + 1;
    }
    assert calls[..i] == calls;
  }

  lemma PlainLength(q: seq<Stamped>)
    ensures |Plain(q)| == |q| && (Plain(q) == [] <==> q == [])
  {
  }

  lemma CallStep(calls: seq<Call>, i: nat, y: Layout)
    requires i < |calls|
    ensures var e, c := Effective(calls[..i], y), calls[i];
            && Results(calls[..i + 1], y) == Results(calls[..i], y) + [Result(Run(e), c, y)]
            && Effective(calls[..i + 1], y) == Taken(e, c, y)
  {
    assert calls[..i + 1][..i] == calls[..i];
  }

  /** At most maxmsg messages are ever queued, and none is longer than msgsize. */
  lemma {:induction false} NeverTooMany(calls: seq<Call>, y: Layout)
    ensures var h := Run(Effective(calls, y));
            |h.q| <= y.maxmsg && forall s :: 0 <= s < |h.sent| ==> |h.sent[s].bytes| <= y.msgsize
  {
    if calls != [] {
      var n := |calls| - 1;
      NeverTooMany(calls[..n], y);
      var e := Effective(calls[..n], y);
      var op := if calls[n].SendCall? then Op.Send(calls[n].m) else Op.Receive;
      assert (e + [op])[..|e|] == e;
    }
  }

  lemma Sent(ops: seq<Op>, m: Msg)
    ensures Plain(Run(ops + [Op.Send(m)]).q) == Insert(Plain(Run(ops).q), m)
            && Run(ops + [Op.Send(m)]).got == Run(ops).got
  {
    assert (ops + [Op.Send(m)])[..|ops|] == ops;
    StampIsInvisible(Run(ops).q, Stamped(m, |Run(ops).sent|));
  }

  lemma Received(ops: seq<Op>, m: Msg, rest: seq<Msg>)
    requires Plain(Run(ops).q) == [m] + rest
    ensures Plain(Run(ops + [Op.Receive]).q) == rest && Plain(Run(ops + [Op.Receive]).got) == Plain(Run(ops).got) + [m]
  {
    assert (ops + [Op.Receive])[..|ops|] == ops;
    var h, h' := Run(ops), Run(ops + [Op.Receive]);
    assert ([m] + rest)[1..] == rest;
    assert h'.got == h.got + [h.q[0]];
    PlainAppend(h.got, h.q[0]);
  }

  lemma PlainAppend(q: seq<Stamped>, s: Stamped)
    ensures Plain(q + [s]) == Plain(q) + [s.msg]
  {
    forall i | 0 <= i < |q| + 1 ensures Plain(q + [s])[i] == (Plain(q) + [s.msg])[i] {}
  }
}
