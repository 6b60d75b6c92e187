/** The hash chains and the free ring, relinked in place. */
module BufferQueues {
  import opened BufferCache

  /** The null pointer. */
  const NIL: int := -1

  function At(s: seq<nat>, i: int): int {
    if 0 <= i < |s| then s[i] else NIL
  }

  /** The chain hanging off one hash slot. */
  ghost predicate ChainLinks(next: seq<int>, prev: seq<int>, chain: seq<nat>, first: int) {
    first == At(chain, 0) &&
    forall i :: 0 <= i < |chain| ==>
      chain[i] < |next| && chain[i] < |prev| && next[chain[i]] == At(chain, i + 1) && prev[chain[i]] == At(chain, i - 1)
  }

  /** Chain h holds exactly labelled buffers that hash to h. */
  ghost predicate ChainMembers(bufs: seq<Buffer>, chain: seq<nat>, h: nat, out: int) {
    NoDup(chain) && Below(chain, |bufs|) &&
    forall i :: 0 <= i < |chain| ==>
        bufs[chain[i]].dev != 0 && Hash(bufs[chain[i]].dev, bufs[chain[i]].block) == h && chain[i] != out
  }

  /** Every labelled buffer is on its own chain; a buffer without a device has null links. */
  ghost predicate AllChained(bufs: seq<Buffer>, next: seq<int>, prev: seq<int>, chains: seq<seq<nat>>, out: int)
    requires |chains| == NR_HASH && |next| == |prev| == |bufs|
  {
    forall b :: 0 <= b < |bufs| && b != out ==>
      if bufs[b].dev != 0 then b in chains[Hash(bufs[b].dev, bufs[b].block)] else next[b] == NIL && prev[b] == NIL
  }

  /** The hash chains are in order, apart from buffer out, which is on none. */
  ghost predicate ChainsOk(bufs: seq<Buffer>, next: seq<int>, prev: seq<int>, hash: seq<int>, chains: seq<seq<nat>>,
                           out: int) {
    && |hash| == NR_HASH && |chains| == NR_HASH && |next| == |bufs| && |prev| == |bufs|
    && (forall h :: 0 <= h < NR_HASH ==> ChainLinks(next, prev, chains[h], hash[h]))
    && (forall h :: 0 <= h < NR_HASH ==> ChainMembers(bufs, chains[h], h, out))
    && AllChained(bufs, next, prev, chains, out)
  }

  function Succ(i: nat, n: nat): nat {
    if i + 1 == n then 0 else i + 1
  }

  function Pred(i: nat, n: nat): nat
    requires i < n
  {
    if i == 0 then n - 1 else i - 1
  }

  ghost predicate RingLinks(nextFree: seq<int>, prevFree: seq<int>, ring: seq<nat>) {
    forall i :: 0 <= i < |ring| ==>
      ring[i] < |nextFree| && ring[i] < |prevFree| &&
      nextFree[ring[i]] == ring[Succ(i, |ring|)] && prevFree[ring[i]] == ring[Pred(i, |ring|)]
  }

  /** The free ring, apart from buffer out; with one buffer in all, out still points at itself. */
  ghost predicate RingLinked(nextFree: seq<int>, prevFree: seq<int>, freeList: int, ring: seq<nat>, n: nat, out: int) {
    && |nextFree| == n && |prevFree| == n
    && NoDup(ring) && Below(ring, n) && (forall i :: 0 <= i < |ring| ==> ring[i] != out)
    && |ring| == (if out == NIL then n else n - 1)
    && RingLinks(nextFree, prevFree, ring)
    && (if ring == [] then 0 <= out < n && freeList == out && nextFree[out] == out
       && prevFree[out] == out else freeList == ring[0])
  }

  // ---------------------------------------------------------------- taking a buffer off its chain

  lemma ChainCut(next: seq<int>, prev: seq<int>, next': seq<int>, prev': seq<int>, chain: seq<nat>, first: int,
                 first': int, k: nat)
    requires ChainLinks(next, prev, chain, first) && NoDup(chain) && k < |chain| && |next| == |prev|
    requires var b := chain[k];
             && prev' == (if next[b] != NIL then prev[next[b] := prev[b]] else prev)
             && next' == (if prev[b] != NIL then next[prev[b] := next[b]] else next)
             && first' == (if first == b then next[b] else first)
    ensures ChainLinks(next', prev', Cut(chain, k), first')
  {
    hide NoDup, Cut;
    var cut := Cut(chain, k);
    forall i | 0 <= i < |cut|
      ensures cut[i] < |next'| && cut[i] < |prev'| && next'[cut[i]] == At(cut, i + 1) && prev'[cut[i]] == At(cut, i - 1)
    {
      ChainCutAt(next, prev, next', prev', chain, first, k, i);
    }
    if cut != [] { CutAt(chain, k, 0); }
    if k > 0 { Differ(chain, 0, k); }
  }

  lemma LinkAt(next: seq<int>, prev: seq<int>, chain: seq<nat>, first: int, j: nat)
    requires ChainLinks(next, prev, chain, first) && j < |chain|
    ensures Below(chain, |next|) && Below(chain, |prev|)
    ensures chain[j] < |next| && chain[j] < |prev| && next[chain[j]] == At(chain, j + 1)
            && prev[chain[j]] == At(chain, j - 1)
  {
  }

  lemma ChainCutAt(next: seq<int>, prev: seq<int>, next': seq<int>, prev': seq<int>, chain: seq<nat>, first: int,
                   k: nat, i: nat)
    requires ChainLinks(next, prev, chain, first) && NoDup(chain) && k < |chain| && |next| == |prev| && i < |chain| - 1
    requires var b := chain[k];
             && prev' == (if next[b] != NIL then prev[next[b] := prev[b]] else prev)
             && next' == (if prev[b] != NIL then next[prev[b] := next[b]] else next)
    ensures var cut := Cut(chain, k);
            cut[i] < |next'| && cut[i] < |prev'| && next'[cut[i]] == At(cut, i + 1) && prev'[cut[i]] == At(cut, i - 1)
  {
    hide NoDup, Cut, ChainLinks;
    var j := if i < k then i else i + 1;
    CutAt(chain, k, i);
    LinkAt(next, prev, chain, first, j);
    LinkAt(next, prev, chain, first, k);
    NextCutAt(next, chain, k, j, next[chain[k]]);
    PrevCutAt(prev, chain, k, j, prev[chain[k]]);
  }

  lemma NextCutAt(next: seq<int>, chain: seq<nat>, k: nat, j: nat, v: int)
    requires NoDup(chain) && k < |chain| && j < |chain| && j != k && Below(chain, |next|)
    requires v == At(chain, k + 1) && next[chain[j]] == At(chain, j + 1)
    ensures (if k > 0 then next[chain[k - 1] := v] else next)[chain[j]] == At(Cut(chain, k), if j < k then j + 1 else j)
  {
    hide NoDup, Cut;
    var i := if j < k then j else j - 1;
    if i + 1 < |chain| - 1 { CutAt(chain, k, i + 1); }
    if k > 0 && j != k - 1 { Differ(chain, j, k - 1); }
  }

  lemma PrevCutAt(prev: seq<int>, chain: seq<nat>, k: nat, j: nat, v: int)
    requires NoDup(chain) && k < |chain| && j < |chain| && j != k && Below(chain, |prev|)
    requires v == At(chain, k - 1) && prev[chain[j]] == At(chain, j - 1)
    ensures (if k + 1 < |chain| then prev[chain[k + 1] := v] else prev)[chain[j]]
            == At(Cut(chain, k), if j < k then j - 1 else j - 2)
  {
    hide NoDup, Cut;
    var i := if j < k then j else j - 1;
    if i > 0 { CutAt(chain, k, i - 1); }
    if k + 1 < |chain| && j != k + 1 { Differ(chain, j, k + 1); }
  }

  /** Relinking neighbours of b does not reach a chain they are not on. */
  lemma ChainApart(next: seq<int>, prev: seq<int>, next': seq<int>, prev': seq<int>, chain: seq<nat>, first: int)
    requires ChainLinks(next, prev, chain, first) && |next'| == |next| && |prev'| == |prev|
    requires forall i :: 0 <= i < |chain| ==> next'[chain[i]] == next[chain[i]] && prev'[chain[i]] == prev[chain[i]]
    ensures ChainLinks(next', prev', chain, first)
  {
  }

  lemma UnchainKeeps(bufs: seq<Buffer>, next: seq<int>, prev: seq<int>, hash: seq<int>, chains: seq<seq<nat>>, b: nat,
                     next': seq<int>, prev': seq<int>, hash': seq<int>, k: nat)
    requires ChainsOk(bufs, next, prev, hash, chains, NIL) && b < |bufs| && bufs[b].dev != 0
    requires var h := Hash(bufs[b].dev, bufs[b].block);
             && k < |chains[h]| && chains[h][k] == b
             && prev' == (if next[b] != NIL then prev[next[b] := prev[b]] else prev)
             && next' == (if prev[b] != NIL then next[prev[b] := next[b]] else next)
             && hash' == (if hash[h] == b then hash[h := next[b]] else hash)
    ensures var h := Hash(bufs[b].dev, bufs[b].block);
            ChainsOk(bufs, next', prev', hash', chains[h := Cut(chains[h], k)], b)
  {
    hide Hash, Cut, NoDup, ChainLinks;
    var h := Hash(bufs[b].dev, bufs[b].block);
    var chains' := chains[h := Cut(chains[h], k)];
    assert ChainMembers(bufs, chains[h], h, NIL) && ChainLinks(next, prev, chains[h], hash[h]);
    ChainCut(next, prev, next', prev', chains[h], hash[h], hash'[h], k);
    LinksOf(bufs, next, prev, chains[h], hash[h], h, k);
    forall g | 0 <= g < NR_HASH ensures ChainLinks(next', prev', chains'[g], hash'[g])
        && ChainMembers(bufs, chains'[g], g, b) {
      assert ChainMembers(bufs, chains[g], g, NIL) && ChainLinks(next, prev, chains[g], hash[g]);
      if g == h {
        CutMembers(bufs, chains[h], h, k);
      } else {
        ChainApart(next, prev, next', prev', chains[g], hash[g]);
      }
    }
    forall x | 0 <= x < |bufs| && x != b
      ensures if bufs[x].dev != 0 then x in chains'[Hash(bufs[x].dev, bufs[x].block)]
              else next'[x] == NIL && prev'[x] == NIL
    {
      if bufs[x].dev != 0 && Hash(bufs[x].dev, bufs[x].block) == h {
        StillIn(chains[h], k, x);
      }
    }
  }

  /** The neighbours of a buffer on its chain are labelled buffers of the same chain. */
  lemma LinksOf(bufs: seq<Buffer>, next: seq<int>, prev: seq<int>, chain: seq<nat>, first: int, h: nat, k: nat)
    requires ChainLinks(next, prev, chain, first) && ChainMembers(bufs, chain, h, NIL) && k < |chain|
    ensures next[chain[k]] == NIL || OnChain(bufs, next[chain[k]], h)
    ensures prev[chain[k]] == NIL || OnChain(bufs, prev[chain[k]], h)
  {
    hide Hash, NoDup;
  }

  ghost predicate OnChain(bufs: seq<Buffer>, x: int, h: nat) {
    0 <= x < |bufs| && bufs[x].dev != 0 && Hash(bufs[x].dev, bufs[x].block) == h
  }

  lemma CutMembers(bufs: seq<Buffer>, chain: seq<nat>, h: nat, k: nat)
    requires ChainMembers(bufs, chain, h, NIL) && k < |chain|
    ensures ChainMembers(bufs, Cut(chain, k), h, chain[k])
  {
    hide Hash, Cut, NoDup;
    CutIsDistinct(chain, k, |bufs|);
    forall i | 0 <= i < |chain| - 1 ensures Cut(chain, k)[i]
        == chain[if i < k then i else i + 1] { CutAt(chain, k, i); }
  }

  lemma StillIn(chain: seq<nat>, k: nat, x: nat)
    requires k < |chain| && x in chain && x != chain[k]
    ensures x in Cut(chain, k)
  {
    hide Cut;
    var j :| 0 <= j < |chain| && chain[j] == x;
    CutAt(chain, k, if j < k then j else j - 1);
  }

  // ---------------------------------------------------------------- putting it on its new chain

  lemma EnchainKeeps(bufs: seq<Buffer>, next: seq<int>, prev: seq<int>, hash: seq<int>, chains: seq<seq<nat>>, b: nat)
    requires ChainsOk(bufs, next, prev, hash, chains, b) && b < |bufs| && bufs[b].dev != 0
    ensures var h := Hash(bufs[b].dev, bufs[b].block);
            var next' := next[b := hash[h]];
            var prev1 := prev[b := NIL];
            var prev' := if hash[h] != NIL then prev1[hash[h] := b] else prev1;
            hash[h] < |prev| && ChainsOk(bufs, next', prev', hash[h := b], chains[h := [b] + chains[h]], NIL)
  {
    hide Hash, NoDup, ChainLinks;
    var h := Hash(bufs[b].dev, bufs[b].block);
    var next' := next[b := hash[h]];
    assert ChainMembers(bufs, chains[h], h, b) && ChainLinks(next, prev, chains[h], hash[h]);
    FirstOf(bufs, next, prev, chains[h], hash[h], h, b);
    var prev1 := prev[b := NIL];
    var prev' := if hash[h] != NIL then prev1[hash[h] := b] else prev1;
    var chains' := chains[h := [b] + chains[h]];
    ChainGrow(next, prev, next', prev', chains[h], hash[h], b);
    forall g | 0 <= g < NR_HASH ensures ChainLinks(next', prev', chains'[g], hash[h := b][g])
        && ChainMembers(bufs, chains'[g], g, NIL) {
      assert ChainMembers(bufs, chains[g], g, b) && ChainLinks(next, prev, chains[g], hash[g]);
      if g == h {
        GrowMembers(bufs, chains[h], h, b);
      } else {
        ChainApart(next, prev, next', prev', chains[g], hash[g]);
      }
    }
    forall x | 0 <= x < |bufs|
      ensures if bufs[x].dev != 0 then x in chains'[Hash(bufs[x].dev, bufs[x].block)]
              else next'[x] == NIL && prev'[x] == NIL
    {
      assert ([b] + chains[h])[0] == b;
    }
  }

  lemma FirstOf(bufs: seq<Buffer>, next: seq<int>, prev: seq<int>, chain: seq<nat>, first: int, h: nat, out: nat)
    requires ChainLinks(next, prev, chain, first) && ChainMembers(bufs, chain, h, out)
    ensures first == NIL || (OnChain(bufs, first, h) && first != out)
    ensures out !in chain
  {
    hide Hash, NoDup;
  }

  lemma GrowMembers(bufs: seq<Buffer>, chain: seq<nat>, h: nat, b: nat)
    requires ChainMembers(bufs, chain, h, b) && OnChain(bufs, b, h)
    ensures ChainMembers(bufs, [b] + chain, h, NIL)
  {
    hide Hash;
    var grown := [b] + chain;
    forall i | 0 < i < |grown| ensures grown[i] == chain[i - 1] {}
  }

  lemma ChainGrow(next: seq<int>, prev: seq<int>, next': seq<int>, prev': seq<int>, chain: seq<nat>, first: int, b: nat)
    requires ChainLinks(next, prev, chain, first) && NoDup(chain) && b < |next| == |prev| && b !in chain
    requires next' == next[b := first] && prev' == (if first != NIL then prev[b := NIL][first := b] else prev[b := NIL])
    ensures ChainLinks(next', prev', [b] + chain, b)
  {
    var grown := [b] + chain;
    forall i | 0 <= i < |grown| ensures next'[grown[i]] == At(grown, i + 1) && prev'[grown[i]] == At(grown, i - 1) {
      if i > 0 {
        assert grown[i] == chain[i - 1];
        assert next[chain[i - 1]] == At(chain, i) && prev[chain[i - 1]] == At(chain, i - 2);
      }
    }
  }

  // ---------------------------------------------------------------- the free ring

  lemma UnringKeeps(nextFree: seq<int>, prevFree: seq<int>, freeList: int, ring: seq<nat>, n: nat, k: nat)
    requires RingLinked(nextFree, prevFree, freeList, ring, n, NIL) && k < |ring|
    ensures var b := ring[k];
            0 <= prevFree[b] < n && 0 <= nextFree[b] < n &&
            RingLinked(nextFree[prevFree[b] := nextFree[b]], prevFree[nextFree[b] := prevFree[b]],
              if freeList == b then nextFree[b] else freeList, Cut(ring, k), n, b)
  {
    hide NoDup, Cut;
    var b, m := ring[k], |ring|;
    var cut := Cut(ring, k);
    CutIsDistinct(ring, k, n);
    assert nextFree[b] == ring[Succ(k, m)] && prevFree[b] == ring[Pred(k, m)];
    var nf, pf := nextFree[prevFree[b] := nextFree[b]], prevFree[nextFree[b] := prevFree[b]];
    forall i | 0 <= i < |cut| ensures nf[cut[i]] == cut[Succ(i, |cut|)] && pf[cut[i]] == cut[Pred(i, |cut|)] {
      RingCutAt(nextFree, prevFree, ring, k, i);
    }
    if cut != [] { CutAt(ring, k, 0); }
    if k > 0 { Differ(ring, 0, k); }
  }

  lemma RingCutAt(nextFree: seq<int>, prevFree: seq<int>, ring: seq<nat>, k: nat, i: nat)
    requires RingLinks(nextFree, prevFree, ring) && NoDup(ring) && k < |ring| && i < |ring| - 1
    ensures var b, cut := ring[k], Cut(ring, k);
            0 <= prevFree[b] < |nextFree| && 0 <= nextFree[b] < |prevFree| && cut[i] < |nextFree|
                && cut[i] < |prevFree| &&
            nextFree[prevFree[b] := nextFree[b]][cut[i]] == cut[Succ(i, |cut|)] &&
            prevFree[nextFree[b] := prevFree[b]][cut[i]] == cut[Pred(i, |cut|)]
  {
    hide NoDup, Cut;
    var m := |ring|;
    var j := if i < k then i else i + 1;
    CutAt(ring, k, i);
    CutAt(ring, k, Succ(i, m - 1));
    CutAt(ring, k, Pred(i, m - 1));
    assert nextFree[ring[j]] == ring[Succ(j, m)] && prevFree[ring[j]] == ring[Pred(j, m)];
    assert nextFree[ring[k]] == ring[Succ(k, m)] && prevFree[ring[k]] == ring[Pred(k, m)];
    assert ring[Succ(k, m)] < |prevFree| && ring[Pred(k, m)] < |nextFree|;
    if j != Pred(k, m) { Differ(ring, j, Pred(k, m)); }
    if j != Succ(k, m) { Differ(ring, j, Succ(k, m)); }
  }

  lemma EnringKeeps(nextFree: seq<int>, prevFree: seq<int>, freeList: int, ring: seq<nat>, n: nat, b: nat)
    requires RingLinked(nextFree, prevFree, freeList, ring, n, b) && b < n
    ensures 0 <= freeList < n &&
            var nf1, pf1 := nextFree[b := freeList], prevFree[b := prevFree[freeList]];
            0 <= pf1[freeList] < n &&
            RingLinked(nf1[pf1[freeList] := b], pf1[freeList := b], freeList, ring + [b], n, NIL)
  {
    AddIsDistinct(ring, b, n);
    var m := |ring|;
    if m > 0 {
      assert ring[0] == freeList && prevFree[ring[0]] == ring[Pred(0, m)] && ring[Pred(0, m)] < n;
      hide NoDup, RingLinks;
      RingGrown(nextFree, prevFree, ring, b);
    }
  }

  lemma RingGrown(nextFree: seq<int>, prevFree: seq<int>, ring: seq<nat>, b: nat)
    requires RingLinks(nextFree, prevFree, ring) && NoDup(ring) && ring != [] && b < |nextFree| == |prevFree|
    requires forall k :: 0 <= k < |ring| ==> ring[k] != b
    requires ring[0] < |prevFree| && 0 <= prevFree[ring[0]] < |nextFree|
    ensures var nf1, pf1 := nextFree[b := ring[0]], prevFree[b := prevFree[ring[0]]];
            RingLinks(nf1[pf1[ring[0]] := b], pf1[ring[0] := b], ring + [b])
  {
    forall i | 0 <= i < |ring| + 1 ensures RingGrownAt(nextFree, prevFree, ring, b, i) {
      hide NoDup, RingLinks;
      RingGrows(nextFree, prevFree, ring, b, i);
    }
  }

  ghost predicate RingGrownAt(nextFree: seq<int>, prevFree: seq<int>, ring: seq<nat>, b: nat, i: nat)
    requires ring != [] && b < |nextFree| == |prevFree| && ring[0] < |prevFree| && 0 <= prevFree[ring[0]] < |nextFree|
             && i <= |ring| && ring[0] != b
  {
    var nf1, pf1 := nextFree[b := ring[0]], prevFree[b := prevFree[ring[0]]];
    var nf, pf := nf1[pf1[ring[0]] := b], pf1[ring[0] := b];
    var grown := ring + [b];
    grown[i] < |nf| && nf[grown[i]] == grown[Succ(i, |grown|)] && pf[grown[i]] == grown[Pred(i, |grown|)]
  }

  lemma RingAt(nextFree: seq<int>, prevFree: seq<int>, ring: seq<nat>, i: nat)
    requires RingLinks(nextFree, prevFree, ring) && i < |ring|
    ensures ring[i] < |nextFree| && ring[i] < |prevFree|
    ensures nextFree[ring[i]] == ring[Succ(i, |ring|)] && prevFree[ring[i]] == ring[Pred(i, |ring|)]
  {
  }

  lemma RingGrows(nextFree: seq<int>, prevFree: seq<int>, ring: seq<nat>, b: nat, i: nat)
    requires RingLinks(nextFree, prevFree, ring) && NoDup(ring) && ring != [] && b < |nextFree| == |prevFree|
             && i <= |ring|
    requires forall k :: 0 <= k < |ring| ==> ring[k] != b
    requires ring[0] < |prevFree| && 0 <= prevFree[ring[0]] < |nextFree|
    ensures RingGrownAt(nextFree, prevFree, ring, b, i)
  {
    hide NoDup, RingLinks;
    var m := |ring|;
    RingAt(nextFree, prevFree, ring, 0);
    if i < m {
      RingAt(nextFree, prevFree, ring, i);
      if i > 0 { Differ(ring, 0, i); }
      if i < m - 1 { Differ(ring, m - 1, i); }
    }
  }
}
