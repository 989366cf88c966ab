// What heapMerge's arrays (src/lib/bpeCount.ts:155-214) mean: a doubly linked list of the parts
// that are left, each part named by its start, and a heap of (rank, start) keys that may be stale.
module LinkedParts {
  import opened BpeSpec

  // ── Packed keys ──────────────────────────────────────────────────────────────────────────────

  const POS := 0x1_0000_0000

  function Key(rank: nat, start: nat): nat { rank * POS + start }

  // The packed order is (rank, start) order, unpacking inverts packing, and every key that can
  // occur is an integer a double holds exactly.
  lemma {:induction false} KeyOrder(r: nat, s: nat, q: nat, t: nat)
    requires s < POS && t < POS
    ensures Key(r, s) <= Key(q, t) <==> r < q || (r == q && s <= t)
    ensures Key(r, s) / POS == r && Key(r, s) - r * POS == s
    ensures r < RANK_LIMIT ==> Key(r, s) < 0x20_0000_0000_0000
  {
  }

  // ── The list ─────────────────────────────────────────────────────────────────────────────────

  // `starts` are the starts of the parts left, in order, in a piece of n bytes.
  ghost predicate Increasing(n: nat, starts: seq<nat>) {
    && (forall k :: 0 <= k < |starts| ==> starts[k] < n)
    && (forall j, k :: 0 <= j < k < |starts| ==> starts[j] < starts[k])
  }

  ghost predicate NextOk(n: nat, starts: seq<nat>, next: seq<int>)
    requires Increasing(n, starts) && |next| >= n
  {
    forall k :: 0 <= k < |starts| ==> NextAt(n, starts, next, k)
  }

  ghost predicate NextAt(n: nat, starts: seq<nat>, next: seq<int>, k: nat)
    requires Increasing(n, starts) && |next| >= n && k < |starts|
  {
    next[starts[k]] == if k + 1 < |starts| then starts[k + 1] else n
  }

  ghost predicate PrevOk(n: nat, starts: seq<nat>, prev: seq<int>)
    requires Increasing(n, starts) && |prev| >= n
  {
    forall k :: 0 <= k < |starts| ==> PrevAt(n, starts, prev, k)
  }

  ghost predicate PrevAt(n: nat, starts: seq<nat>, prev: seq<int>, k: nat)
    requires Increasing(n, starts) && |prev| >= n && k < |starts|
  {
    prev[starts[k]] == if k > 0 then starts[k - 1] else -1
  }

  ghost predicate TokenOk(v: Vocab, n: nat, starts: seq<nat>, parts: seq<Bytes>, token: seq<int>)
    requires Increasing(n, starts) && |token| >= n && |parts| == |starts| && AllTokens(v, parts)
  {
    forall k :: 0 <= k < |starts| ==> token[starts[k]] == v[parts[k]]
  }

  // The rank of the pair that begins with part k.
  function RankFrom(v: Vocab, parts: seq<Bytes>, k: nat): int
    requires k < |parts|
  {
    if k + 1 < |parts| then RankAt(v, parts, k) else NONE
  }

  // rankAt holds the current pair rank of every live start, and -1 of every start merged away.
  ghost predicate RankOk(v: Vocab, n: nat, starts: seq<nat>, parts: seq<Bytes>, rankAt: seq<int>)
    requires Increasing(n, starts) && |rankAt| >= n && |parts| == |starts|
  {
    && (forall k :: 0 <= k < |starts| ==> rankAt[starts[k]] == RankFrom(v, parts, k))
    && (forall s :: 0 <= s < n && s !in starts ==> rankAt[s] == -1)
  }

  ghost predicate Linked(v: Vocab, n: nat, starts: seq<nat>, parts: seq<Bytes>,
                         next: seq<int>, prev: seq<int>, token: seq<int>, rankAt: seq<int>)
  {
    && |next| >= n && |prev| >= n && |token| >= n && |rankAt| >= n
    && |parts| == |starts| > 0
    && Increasing(n, starts) && AllTokens(v, parts)
    && NextOk(n, starts, next) && PrevOk(n, starts, prev)
    && TokenOk(v, n, starts, parts, token) && RankOk(v, n, starts, parts, rankAt)
  }

  // ── Lazy deletion ────────────────────────────────────────────────────────────────────────────

  // Every pair that can merge now has its key in the heap.
  ghost predicate Covered(n: nat, rankAt: seq<int>, keys: multiset<int>)
    requires |rankAt| >= n
  {
    forall s :: 0 <= s < n && 0 <= rankAt[s] < NONE ==> Key(rankAt[s], s) in keys
  }

  // Every key, stale or not, packs a rank and a start of this piece.
  ghost predicate Packed(n: nat, keys: multiset<int>) {
    forall key :: key in keys ==> 0 <= key && key / POS < RANK_LIMIT && key % POS < n
  }

  lemma {:induction false} PairRankBound(v: Vocab, a: Bytes, b: Bytes)
    requires ValidVocab(v)
    ensures 0 <= PairRank(v, a, b) && (PairRank(v, a, b) != NONE ==> PairRank(v, a, b) < RANK_LIMIT)
  {
  }

  // A least key that is not stale names the pair the rule merges next.
  lemma {:induction false} LeastKeyIsBest(v: Vocab, n: nat, starts: seq<nat>, parts: seq<Bytes>, rankAt: seq<int>,
                       keys: multiset<int>, key: int) returns (k: nat)
    requires ValidVocab(v) && n < POS
    requires |parts| == |starts| && |rankAt| >= n && Increasing(n, starts) && RankOk(v, n, starts, parts, rankAt)
    requires Covered(n, rankAt, keys) && Packed(n, keys)
    requires key in keys && forall q :: q in keys ==> key <= q
    requires rankAt[key % POS] == key / POS
    ensures k < |starts| && starts[k] == key % POS
    ensures IsBest(v, parts, k) && RankAt(v, parts, k) == key / POS
  {
    var r, s := key / POS, key % POS;
    assert s in starts;
    k :| 0 <= k < |starts| && starts[k] == s;
    assert RankFrom(v, parts, k) == r != NONE;
    forall j | 0 <= j < |parts| - 1
      ensures r <= RankAt(v, parts, j) && (j < k ==> r < RankAt(v, parts, j))
    {
      var q := RankAt(v, parts, j);
      PairRankBound(v, parts[j], parts[j + 1]);
      assert rankAt[starts[j]] == RankFrom(v, parts, j) == q;
      if q != NONE {
        assert Key(q, starts[j]) in keys;
        KeyOrder(r, s, q, starts[j]);
      }
    }
  }

  // With no key left, nothing can merge.
  lemma {:induction false} EmptyMeansDone(v: Vocab, n: nat, starts: seq<nat>, parts: seq<Bytes>, rankAt: seq<int>, keys: multiset<int>)
    requires ValidVocab(v)
    requires |parts| == |starts| && |rankAt| >= n && Increasing(n, starts) && RankOk(v, n, starts, parts, rankAt)
    requires Covered(n, rankAt, keys) && keys == multiset{}
    ensures NoPair(v, parts)
  {
    forall i | 0 <= i < |parts| - 1 ensures RankAt(v, parts, i) == NONE {
      PairRankBound(v, parts[i], parts[i + 1]);
      assert rankAt[starts[i]] == RankFrom(v, parts, i);
    }
  }

  // Dropping a stale key loses nothing.
  lemma {:induction false} StaleDropped(n: nat, rankAt: seq<int>, keys: multiset<int>, key: int)
    requires n < POS && |rankAt| >= n && Covered(n, rankAt, keys) && key >= 0
    requires key % POS < n && rankAt[key % POS] != key / POS
    ensures Covered(n, rankAt, keys - multiset{key})
  {
    forall s | 0 <= s < n && 0 <= rankAt[s] < NONE ensures Key(rankAt[s], s) in keys - multiset{key} {
      KeyOrder(rankAt[s], s, 0, 0);
    }
  }

  // ── Unlinking one part ───────────────────────────────────────────────────────────────────────

  function Without(starts: seq<nat>, k: nat): seq<nat>
    requires k + 1 < |starts|
  {
    starts[..k + 1] + starts[k + 2..]
  }

  // starts after the merge, read through the index it had before.
  function Shift(k: nat, j: nat): nat { if j <= k then j else j + 1 }

  lemma {:induction false} WithoutAt(n: nat, starts: seq<nat>, k: nat)
    requires Increasing(n, starts) && k + 1 < |starts|
    ensures |Without(starts, k)| == |starts| - 1
    ensures forall j :: 0 <= j < |starts| - 1 ==> Without(starts, k)[j] == starts[Shift(k, j)]
    ensures Increasing(n, Without(starts, k))
  {
  }

  lemma {:induction false} WithoutMembers(n: nat, starts: seq<nat>, k: nat, s: nat)
    requires Increasing(n, starts) && k + 1 < |starts| && s in starts && s != starts[k + 1]
    ensures s in Without(starts, k)
  {
    var w := Without(starts, k);
    WithoutAt(n, starts, k);
    var j :| 0 <= j < |starts| && starts[j] == s;
    assert w[if j <= k then j else j - 1] == s;
  }

  lemma {:induction false} UnlinkNext(n: nat, starts: seq<nat>, k: nat, next: seq<int>)
    requires Increasing(n, starts) && |next| >= n && k + 1 < |starts| && NextOk(n, starts, next)
    ensures Increasing(n, Without(starts, k))
    ensures NextOk(n, Without(starts, k), next[starts[k] := next[starts[k + 1]]])
  {
    WithoutAt(n, starts, k);
    var w, after := Without(starts, k), next[starts[k] := next[starts[k + 1]]];
    forall j | 0 <= j < |w| ensures NextAt(n, w, after, j) {
      var i := Shift(k, j);
      assert w[j] == starts[i] && NextAt(n, starts, next, i) && NextAt(n, starts, next, k + 1);
      if j != k { assert starts[i] != starts[k]; }
      if j + 1 < |w| { assert w[j + 1] == starts[Shift(k, j + 1)]; }
    }
  }

  lemma {:induction false} UnlinkPrev(n: nat, starts: seq<nat>, k: nat, prev: seq<int>)
    requires Increasing(n, starts) && |prev| >= n && k + 1 < |starts| && PrevOk(n, starts, prev)
    ensures Increasing(n, Without(starts, k))
    ensures PrevOk(n, Without(starts, k),
                   if k + 2 < |starts| then prev[starts[k + 2] := starts[k]] else prev)
  {
    WithoutAt(n, starts, k);
    var w := Without(starts, k);
    var after := if k + 2 < |starts| then prev[starts[k + 2] := starts[k]] else prev;
    forall j | 0 <= j < |w| ensures PrevAt(n, w, after, j) {
      var i := Shift(k, j);
      assert w[j] == starts[i] && PrevAt(n, starts, prev, i);
      if j > 0 { assert w[j - 1] == starts[Shift(k, j - 1)]; }
      if j != k + 1 && k + 2 < |starts| { assert starts[i] != starts[k + 2]; }
    }
  }

  lemma {:induction false} MergeAtParts(parts: seq<Bytes>, k: nat)
    requires k + 1 < |parts|
    ensures |MergeAt(parts, k)| == |parts| - 1
    ensures forall j :: 0 <= j < |parts| - 1 ==>
              MergeAt(parts, k)[j] == if j == k then parts[k] + parts[k + 1] else parts[Shift(k, j)]
  {
  }

  lemma {:induction false} UnlinkToken(v: Vocab, n: nat, starts: seq<nat>, parts: seq<Bytes>, k: nat, token: seq<int>)
    requires Increasing(n, starts) && |token| >= n && k + 1 < |starts| == |parts| && AllTokens(v, parts)
    requires TokenOk(v, n, starts, parts, token) && RankAt(v, parts, k) != NONE
    ensures Increasing(n, Without(starts, k)) && AllTokens(v, MergeAt(parts, k))
    ensures |MergeAt(parts, k)| == |Without(starts, k)|
    ensures TokenOk(v, n, Without(starts, k), MergeAt(parts, k), token[starts[k] := RankAt(v, parts, k)])
  {
    WithoutAt(n, starts, k);
    MergeAtParts(parts, k);
    TokensMergeAt(v, parts, k);
    var w, m := Without(starts, k), MergeAt(parts, k);
    forall j | 0 <= j < |w| ensures token[starts[k] := RankAt(v, parts, k)][w[j]] == v[m[j]] {
      assert w[j] == starts[Shift(k, j)];
    }
  }

  // A pair that the merge at k does not touch keeps its rank.
  lemma {:induction false} RankUnmoved(v: Vocab, parts: seq<Bytes>, k: nat, j: nat)
    requires k + 1 < |parts| && j < |parts| - 1 && j != k && j + 1 != k
    ensures j < |MergeAt(parts, k)| && RankFrom(v, MergeAt(parts, k), j) == RankFrom(v, parts, Shift(k, j))
  {
    MergeAtParts(parts, k);
  }

  // The rank row after the merge: t is dead, s and its left neighbour p have new pairs.
  function RowAfter(v: Vocab, starts: seq<nat>, parts: seq<Bytes>, k: nat, rankAt: seq<int>): seq<int>
    requires k + 1 < |starts| == |parts| && |MergeAt(parts, k)| == |parts| - 1
    requires forall j :: 0 <= j < |starts| ==> starts[j] < |rankAt|
  {
    var here := rankAt[starts[k + 1] := -1][starts[k] := RankFrom(v, MergeAt(parts, k), k)];
    if k > 0 then here[starts[k - 1] := RankFrom(v, MergeAt(parts, k), k - 1)] else here
  }

  lemma {:induction false} DeadRanks(v: Vocab, n: nat, starts: seq<nat>, parts: seq<Bytes>, k: nat, rankAt: seq<int>)
    requires Increasing(n, starts) && |rankAt| >= n && k + 1 < |starts| == |parts|
    requires RankOk(v, n, starts, parts, rankAt) && |MergeAt(parts, k)| == |parts| - 1
    ensures forall x :: 0 <= x < n && x !in Without(starts, k) ==> RowAfter(v, starts, parts, k, rankAt)[x] == -1
  {
    var after := RowAfter(v, starts, parts, k, rankAt);
    assert starts[k] < starts[k + 1] && (k > 0 ==> starts[k - 1] < starts[k + 1]);
    forall x | 0 <= x < n && x !in Without(starts, k) ensures after[x] == -1 {
      if x != starts[k + 1] {
        assert x !in starts by { if x in starts { WithoutMembers(n, starts, k, x); } }
        assert x != starts[k] && (k > 0 ==> x != starts[k - 1]);
        assert after[x] == rankAt[x];
      }
    }
  }

  lemma {:induction false} LiveRanks(v: Vocab, n: nat, starts: seq<nat>, parts: seq<Bytes>, k: nat, rankAt: seq<int>, j: nat)
    requires Increasing(n, starts) && |rankAt| >= n && k + 1 < |starts| == |parts|
    requires RankOk(v, n, starts, parts, rankAt) && |MergeAt(parts, k)| == |parts| - 1 && j < |parts| - 1
    ensures RowAfter(v, starts, parts, k, rankAt)[starts[Shift(k, j)]] == RankFrom(v, MergeAt(parts, k), j)
  {
    var i, after := Shift(k, j), RowAfter(v, starts, parts, k, rankAt);
    assert starts[k] < starts[k + 1] && (k > 0 ==> starts[k - 1] < starts[k]);
    if j != k && j + 1 != k {
      assert starts[i] != starts[k] && starts[i] != starts[k + 1] && (k > 0 ==> starts[i] != starts[k - 1]);
      assert after[starts[i]] == rankAt[starts[i]];
      RankUnmoved(v, parts, k, j);
    }
  }

  lemma {:induction false} UnlinkRank(v: Vocab, n: nat, starts: seq<nat>, parts: seq<Bytes>, k: nat, rankAt: seq<int>)
    requires Increasing(n, starts) && |rankAt| >= n && k + 1 < |starts| == |parts|
    requires RankOk(v, n, starts, parts, rankAt)
    ensures Increasing(n, Without(starts, k)) && |MergeAt(parts, k)| == |parts| - 1 == |Without(starts, k)|
    ensures RankOk(v, n, Without(starts, k), MergeAt(parts, k), RowAfter(v, starts, parts, k, rankAt))
  {
    WithoutAt(n, starts, k);
    MergeAtParts(parts, k);
    DeadRanks(v, n, starts, parts, k, rankAt);
    var w, m, after := Without(starts, k), MergeAt(parts, k), RowAfter(v, starts, parts, k, rankAt);
    forall j | 0 <= j < |w| ensures after[w[j]] == RankFrom(v, m, j) {
      LiveRanks(v, n, starts, parts, k, rankAt, j);
    }
  }

  // The four rows after the merge hold the list of the parts after the merge.
  lemma {:induction false} LinkedAfter(v: Vocab, n: nat, starts: seq<nat>, parts: seq<Bytes>, k: nat, rankAt: seq<int>,
                    next: seq<int>, prev: seq<int>, token: seq<int>, after: seq<int>)
    requires Increasing(n, starts) && |rankAt| >= n && k + 1 < |starts| == |parts|
    requires RankOk(v, n, starts, parts, rankAt)
    requires |MergeAt(parts, k)| == |parts| - 1 == |Without(starts, k)|
    requires Increasing(n, Without(starts, k)) && AllTokens(v, MergeAt(parts, k))
    requires |next| >= n && |prev| >= n && |token| >= n
    requires NextOk(n, Without(starts, k), next) && PrevOk(n, Without(starts, k), prev)
    requires TokenOk(v, n, Without(starts, k), MergeAt(parts, k), token)
    requires after == RowAfter(v, starts, parts, k, rankAt)
    ensures Linked(v, n, Without(starts, k), MergeAt(parts, k), next, prev, token, after)
  {
    UnlinkRank(v, n, starts, parts, k, rankAt);
  }

  // The heap after merging at `s`: the old key of s is spent, the keys of the two new pairs are in.
  lemma {:induction false} MergedCovered(v: Vocab, n: nat, starts: seq<nat>, parts: seq<Bytes>, k: nat, rankAt: seq<int>,
                      keys: multiset<int>, keysAfter: multiset<int>, r: nat)
    requires n < POS && |rankAt| >= n && Increasing(n, starts) && k + 1 < |starts| == |parts|
    requires |MergeAt(parts, k)| == |parts| - 1
    requires r == rankAt[starts[k]] && Covered(n, rankAt, keys + multiset{Key(r, starts[k])})
    requires keys <= keysAfter
    requires Pushed(RankFrom(v, MergeAt(parts, k), k), starts[k], keysAfter)
    requires k > 0 ==> Pushed(RankFrom(v, MergeAt(parts, k), k - 1), starts[k - 1], keysAfter)
    ensures Covered(n, RowAfter(v, starts, parts, k, rankAt), keysAfter)
  {
    var after := RowAfter(v, starts, parts, k, rankAt);
    assert starts[k] != starts[k + 1] && (k > 0 ==> starts[k - 1] != starts[k] && starts[k - 1] != starts[k + 1]);
    forall x | 0 <= x < n && 0 <= after[x] < NONE ensures Key(after[x], x) in keysAfter {
      if x != starts[k] && x != starts[k + 1] && (k > 0 ==> x != starts[k - 1]) {
        KeyOrder(rankAt[x], x, 0, 0);
        KeyOrder(r, starts[k], 0, 0);
        assert Key(rankAt[x], x) in keys;
      }
    }
  }

  // The pair of this rank at `start` has its key in the heap, unless it is no pair.
  ghost predicate Pushed(rank: int, start: nat, keys: multiset<int>) {
    0 <= rank < NONE ==> Key(rank, start) in keys
  }
}
