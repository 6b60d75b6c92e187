/** What a message queue is for: falling priority, first in first out among equals. */
module PriorityQueue {
  type Byte = x: nat | x < 0x100

  datatype Msg = Msg(prio: nat, bytes: seq<Byte>)

  /** A new message goes before the first one of lower priority. */
  function Insert(q: seq<Msg>, m: Msg): (r: seq<Msg>)
    ensures |r| == |q| + 1
  {
    if q == [] then [m] else if m.prio > q[0].prio then [m] + q else [q[0]] + Insert(q[1..], m)
  }

  lemma {:induction false} InsertAt(q: seq<Msg>, m: Msg, k: nat)
    requires k <= |q| && (forall i :: 0 <= i < k ==> q[i].prio >= m.prio) && (k < |q| ==> m.prio > q[k].prio)
    ensures Insert(q, m) == q[..k] + [m] + q[k..]
  {
    if k > 0 {
      InsertAt(q[1..], m, k - 1);
      assert q[..k] == [q[0]] + q[1..][..k - 1] && q[k..] == q[1..][k - 1..];
    }
  }

  // ---------------------------------------------------------------- whole runs

  /** A message with the number of messages sent before it. */
  datatype Stamped = Stamped(msg: Msg, stamp: nat)

  datatype Op = Send(m: Msg) | Receive

  /** The queue, all messages sent so far and all received so far, in order. */
  datatype History = History(q: seq<Stamped>, sent: seq<Msg>, got: seq<Stamped>)

  function Plain(q: seq<Stamped>): (r: seq<Msg>)
    ensures |r| == |q| && forall i :: 0 <= i < |q| ==> r[i] == q[i].msg
  {
    if q == [] then [] else [q[0].msg] + Plain(q[1..])
  }

  function InsertStamped(q: seq<Stamped>, m: Stamped): (r: seq<Stamped>)
    ensures |r| == |q| + 1
  {
    if q == [] then [m] else if m.msg.prio > q[0].msg.prio then [m] + q else [q[0]] + InsertStamped(q[1..], m)
  }

  function Step(h: History, op: Op): History {
    match op
    case Send(m) => History(InsertStamped(h.q, Stamped(m, |h.sent|)), h.sent + [m], h.got)
    case Receive => if h.q == [] then h else History(h.q[1..], h.sent, h.got + [h.q[0]])
  }

  function Run(ops: seq<Op>): History {
    if ops == [] then History([], [], []) else Step(Run(ops[..|ops| - 1]), ops[|ops| - 1])
  }

  /** a is to be received before b: higher priority, or the same and sent earlier. */
  predicate Before(a: Stamped, b: Stamped) {
    a.msg.prio > b.msg.prio || (a.msg.prio == b.msg.prio && a.stamp < b.stamp)
  }

  ghost predicate Ordered(q: seq<Stamped>) {
    forall i, j :: 0 <= i < j < |q| ==> Before(q[i], q[j])
  }

  /** Every message of q was sent, under its stamp. */
  ghost predicate Genuine(h: History) {
    && (forall i :: 0 <= i < |h.q| ==> h.q[i].stamp < |h.sent| && h.sent[h.q[i].stamp] == h.q[i].msg)
    && (forall i :: 0 <= i < |h.got| ==> h.got[i].stamp < |h.sent| && h.sent[h.got[i].stamp] == h.got[i].msg)
  }

  /** Every message sent is queued or received, and none twice. */
  ghost predicate Accounted(h: History) {
    forall s :: 0 <= s < |h.sent| ==> multiset(h.q + h.got)[Stamped(h.sent[s], s)] == 1
  }

  /** Stamping changes nothing about where a message goes. */
  lemma {:induction false} StampIsInvisible(q: seq<Stamped>, m: Stamped)
    ensures Plain(InsertStamped(q, m)) == Insert(Plain(q), m.msg)
  {
    if q != [] && m.msg.prio <= q[0].msg.prio {
      StampIsInvisible(q[1..], m);
      assert Plain(q)[1..] == Plain(q[1..]);
      assert InsertStamped(q, m)[1..] == InsertStamped(q[1..], m);
    } else {
      assert ([m] + q)[1..] == q;
      assert Plain([m]) == [m.msg];
    }
  }

  lemma {:induction false} InsertMembers(q: seq<Stamped>, m: Stamped)
    ensures multiset(InsertStamped(q, m)) == multiset(q) + multiset{m}
    ensures forall i :: 0 <= i < |q| + 1 ==> InsertStamped(q, m)[i] == m || InsertStamped(q, m)[i] in q
  {
    if q != [] {
      assert q == [q[0]] + q[1..];
      if m.msg.prio <= q[0].msg.prio {
        InsertMembers(q[1..], m);
        var r := InsertStamped(q, m);
        forall i | 0 <= i < |r| ensures r[i] == m || r[i] in q {
          if i > 0 { assert r[i] == InsertStamped(q[1..], m)[i - 1]; }
        }
      }
    }
  }

  /** A message with the newest stamp keeps the queue in receiving order. */
  lemma {:induction false} InsertKeepsOrder(q: seq<Stamped>, m: Stamped)
    requires Ordered(q) && forall i :: 0 <= i < |q| ==> q[i].stamp < m.stamp
    ensures Ordered(InsertStamped(q, m))
  {
    var r := InsertStamped(q, m);
    if q == [] {
    } else if m.msg.prio > q[0].msg.prio {
      forall i, j | 0 <= i < j < |r| ensures Before(r[i], r[j]) {
        assert r[j] == q[j - 1];
        if i == 0 && j > 1 { assert Before(q[0], q[j - 1]); }
        if i > 0 { assert r[i] == q[i - 1]; }
      }
    } else {
      var t := InsertStamped(q[1..], m);
      InsertKeepsOrder(q[1..], m);
      InsertMembers(q[1..], m);
      forall i, j | 0 <= i < j < |r| ensures Before(r[i], r[j]) {
        assert r[j] == t[j - 1];
        if i == 0 && t[j - 1] != m {
          var k :| 0 <= k < |q[1..]| && q[1..][k] == t[j - 1];
          assert Before(q[0], q[k + 1]);
        }
        if i > 0 { assert r[i] == t[i - 1]; }
      }
    }
  }

  ghost predicate Fine(h: History) {
    Ordered(h.q) && Genuine(h) && Accounted(h)
  }

  lemma StepKeeps(h: History, op: Op)
    requires Fine(h)
    ensures Fine(Step(h, op))
  {
    if op.Send? {
      SendKeeps(h, Stamped(op.m, |h.sent|));
    } else if h.q != [] {
      ReceiveKeeps(h);
    }
  }

  lemma ReceiveKeeps(h: History)
    requires Fine(h) && h.q != []
    ensures Fine(History(h.q[1..], h.sent, h.got + [h.q[0]]))
  {
    assert h.q == [h.q[0]] + h.q[1..];
    assert multiset(h.q[1..] + (h.got + [h.q[0]])) == multiset(h.q + h.got);
  }

  lemma SendKeeps(h: History, m: Stamped)
    requires Fine(h) && m.stamp == |h.sent|
    ensures Fine(History(InsertStamped(h.q, m), h.sent + [m.msg], h.got))
  {
    InsertKeepsOrder(h.q, m);
    InsertMembers(h.q, m);
    SendIsGenuine(h, m);
    hide InsertStamped, Ordered, Genuine;
    SendAccounts(h, InsertStamped(h.q, m), m);
  }

  lemma SendAccounts(h: History, q': seq<Stamped>, m: Stamped)
    requires Accounted(h) && m.stamp == |h.sent| && multiset(q') == multiset(h.q) + multiset{m}
             && m !in multiset(h.q + h.got)
    ensures Accounted(History(q', h.sent + [m.msg], h.got))
  {
    var sent' := h.sent + [m.msg];
    assert multiset(q' + h.got) == multiset(h.q + h.got) + multiset{m};
    forall s | 0 <= s < |sent'| ensures multiset(q' + h.got)[Stamped(sent'[s], s)] == 1 {
      if s < |h.sent| { assert sent'[s] == h.sent[s]; }
    }
  }

  lemma SendIsGenuine(h: History, m: Stamped)
    requires Genuine(h) && m.stamp == |h.sent|
    requires forall i :: 0 <= i < |h.q| + 1 ==> InsertStamped(h.q, m)[i] == m || InsertStamped(h.q, m)[i] in h.q
    ensures Genuine(History(InsertStamped(h.q, m), h.sent + [m.msg], h.got)) && m !in multiset(h.q + h.got)
  {
    hide InsertStamped;
    var q' := InsertStamped(h.q, m);
    forall i | 0 <= i < |q'| ensures q'[i].stamp < |h.sent| + 1 && (h.sent + [m.msg])[q'[i].stamp] == q'[i].msg {
      if q'[i] in h.q {
        var k :| 0 <= k < |h.q| && h.q[k] == q'[i];
      }
    }
  }

  /**
   * In every run each message received was, of all messages then queued, the oldest of
   * the highest priority, and every message sent is queued or was received exactly once.
   */
  lemma {:induction false} RunIsFine(ops: seq<Op>)
    ensures Fine(Run(ops))
  {
    if ops != [] {
      RunIsFine(ops[..|ops| - 1]);
      StepKeeps(Run(ops[..|ops| - 1]), ops[|ops| - 1]);
    }
  }

  lemma ReceiveIsBest(ops: seq<Op>)
    requires Run(ops).q != []
    ensures var h := Run(ops); var h' := Run(ops + [Receive]);
            && h'.got == h.got + [h.q[0]]
            && forall m :: m in h.q && m != h.q[0] ==> Before(h.q[0], m)
  {
    RunIsFine(ops);
    assert (ops + [Receive])[..|ops|] == ops;
    var q := Run(ops).q;
    forall m | m in q && m != q[0] ensures Before(q[0], m) {
      var j :| 0 <= j < |q| && q[j] == m;
    }
  }
}
