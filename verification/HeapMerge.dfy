// heapMerge of src/lib/bpeCount.ts: the merge of a long piece, by a heap of keys that may be
// stale over a linked list of parts held in scratch arrays that outlive the call.
module HeapMerge {
  import opened BpeSpec
  import opened LinkedParts
  import opened BpeCounter
  import opened MinHeap

  class Merger {
    var next: array<int>
    var prev: array<int>
    var token: array<int>
    var rankAt: array<int>
    var heap: MinHeap

    ghost predicate Shaped()
      reads this, heap
    {
      && prev.Length == next.Length && token.Length == next.Length && rankAt.Length == next.Length
      && heap.heap.Length == 3 * next.Length
      && next != prev && next != token && next != rankAt && prev != token && prev != rankAt && token != rankAt
      && heap.heap != next && heap.heap != prev && heap.heap != token && heap.heap != rankAt
    }

    // The arrays hold the list of `parts`, starting at `starts`.
    ghost predicate Holds(v: Vocab, n: nat, starts: seq<nat>, parts: seq<Bytes>)
      reads this, next, prev, token, rankAt
    {
      Linked(v, n, starts, parts, next[..], prev[..], token[..], rankAt[..])
    }

    // Every live pair that can merge is in the heap, or in `more`; and every key is well formed.
    ghost predicate Complete(n: nat, more: multiset<int>)
      reads this, rankAt, heap, heap.heap
    {
      && heap.Valid() && n <= rankAt.Length
      && Covered(n, rankAt[..], heap.Keys() + more) && Packed(n, heap.Keys())
    }

    // Each piece of scratch is the one it was, or new.
    twostate predicate Grown()
      reads this, heap
    {
      && (next == old(next) || fresh(next)) && (prev == old(prev) || fresh(prev))
      && (token == old(token) || fresh(token)) && (rankAt == old(rankAt) || fresh(rankAt))
      && (heap == old(heap) || fresh(heap)) && (heap.heap == old(heap.heap) || fresh(heap.heap))
    }

    // No key is lost, and at most so many are added, each with one push.
    twostate predicate Added(most: nat)
      requires old(heap.Valid()) && heap.Valid() && heap == old(heap)
      reads this, heap, heap.heap
    {
      && old(heap.Keys()) <= heap.Keys() && heap.size - old(heap.size) == heap.pushed - old(heap.pushed)
      && old(heap.pushed) <= heap.pushed <= old(heap.pushed) + most
    }

    constructor ()
      ensures Shaped() && heap.Valid()
      ensures fresh(next) && fresh(prev) && fresh(token) && fresh(rankAt) && fresh(heap) && fresh(heap.heap)
    {
      next, prev, token, rankAt := new int[0], new int[0], new int[0], new int[0];
      heap := new MinHeap(0);
    }

    // Larger scratch for a longer piece, and an empty heap.
    method Prepare(n: nat)
      requires Shaped()
      modifies this, heap
      ensures Shaped() && n <= next.Length && heap.size == 0 && heap.Valid()
      ensures Grown() && heap.pushed == (if heap == old(heap) then old(heap.pushed) else 0)
    {
      if next.Length < n {
        next, prev, token, rankAt := new int[n], new int[n], new int[n], new int[n];
        heap := new MinHeap(3 * n);
      }
      heap.size := 0;
    }

    // Link s over t: the list now skips t, and t's rank says it is dead.
    method Unlink(ghost v: Vocab, n: nat, s: nat, r: nat, ghost starts: seq<nat>, ghost parts: seq<Bytes>, ghost k: nat)
      returns (u: int)
      requires Shaped() && Holds(v, n, starts, parts)
      requires k + 1 < |starts| && starts[k] == s && RankAt(v, parts, k) == r != NONE
      modifies next, prev, token, rankAt
      ensures u == if k + 2 < |starts| then starts[k + 2] else n
      ensures |MergeAt(parts, k)| == |parts| - 1 == |Without(starts, k)|
      ensures Increasing(n, Without(starts, k)) && AllTokens(v, MergeAt(parts, k))
      ensures NextOk(n, Without(starts, k), next[..])
      ensures PrevOk(n, Without(starts, k), prev[..])
      ensures TokenOk(v, n, Without(starts, k), MergeAt(parts, k), token[..])
      ensures rankAt[..] == old(rankAt[..])[starts[k + 1] := -1]
      ensures Without(starts, k)[k] == s && (k > 0 ==> Without(starts, k)[k - 1] == starts[k - 1])
      ensures prev[s] == if k > 0 then starts[k - 1] else -1
      ensures token[s] == r
      ensures u < n ==> Without(starts, k)[k + 1] == u
    {
      assert NextAt(n, starts, next[..], k) && NextAt(n, starts, next[..], k + 1) && PrevAt(n, starts, prev[..], k);
      UnlinkNext(n, starts, k, next[..]);
      UnlinkPrev(n, starts, k, prev[..]);
      UnlinkToken(v, n, starts, parts, k, token[..]);
      ghost var next0, prev0, token0 := next[..], prev[..], token[..];
      var t := next[s];
      assert t == starts[k + 1];
      u := next[t];
      token[s] := r;
      next[s] := u;
      if u < n { prev[u] := s; }
      rankAt[t] := -1;
      assert next[..] == next0[s := u];
      assert prev[..] == if k + 2 < |starts| then prev0[starts[k + 2] := s] else prev0;
      assert token[..] == token0[s := r];
    }

    // Record the rank of the pair at `start`, and push its key unless it is NONE.
    method Record(n: nat, start: nat, rank: int)
      requires Shaped() && start < n < POS && n <= rankAt.Length
      requires heap.Valid() && heap.size < heap.heap.Length && Packed(n, heap.Keys())
      requires rank == NONE || 0 <= rank < RANK_LIMIT
      modifies rankAt, heap`size, heap`pushed, heap.heap
      ensures Shaped() && heap.Valid() && Packed(n, heap.Keys())
      ensures rankAt[..] == old(rankAt[..])[start := rank]
      ensures Added(1)
      ensures Pushed(rank, start, heap.Keys())
    {
      rankAt[start] := rank;
      if rank != NONE {
        KeyOrder(rank, start, 0, 0);
        heap.Push(rank * POS + start);
      }
    }

    // Look up and push the pair that begins at s.
    method PushRight(d: Cl100k, n: nat, s: nat, r: nat, u: int, ghost w: seq<nat>, ghost m: seq<Bytes>, ghost k: nat)
      requires d.Loaded() && n < POS && Shaped() && n <= next.Length
      requires heap.Valid() && Packed(n, heap.Keys()) && heap.size < heap.heap.Length
      requires |m| == |w| && Increasing(n, w) && AllTokens(d.ranks, m) && TokenOk(d.ranks, n, w, m, token[..])
      requires k < |w| && w[k] == s && d.ranks[m[k]] == r && u == if k + 1 < |w| then w[k + 1] else n
      modifies rankAt, heap`size, heap`pushed, heap.heap
      ensures Shaped() && heap.Valid() && Packed(n, heap.Keys())
      ensures rankAt[..] == old(rankAt[..])[s := RankFrom(d.ranks, m, k)]
      ensures Added(1)
      ensures Pushed(RankFrom(d.ranks, m, k), s, heap.Keys())
    {
      var right := NONE;
      if u < n {
        assert token[..][w[k + 1]] == d.ranks[m[k + 1]];
        right := d.Join(r, token[u], m[k], m[k + 1]);
        PairRankBound(d.ranks, m[k], m[k + 1]);
      }
      Record(n, s, right);
    }

    // Look up and push the pair that ends at s.
    method PushLeft(d: Cl100k, n: nat, p: nat, r: nat, ghost w: seq<nat>, ghost m: seq<Bytes>, ghost k: nat)
      requires d.Loaded() && n < POS && Shaped() && n <= next.Length
      requires heap.Valid() && Packed(n, heap.Keys()) && heap.size < heap.heap.Length
      requires |m| == |w| && Increasing(n, w) && AllTokens(d.ranks, m) && TokenOk(d.ranks, n, w, m, token[..])
      requires 0 < k < |w| && w[k - 1] == p && d.ranks[m[k]] == r
      modifies rankAt, heap`size, heap`pushed, heap.heap
      ensures Shaped() && heap.Valid() && Packed(n, heap.Keys())
      ensures rankAt[..] == old(rankAt[..])[p := RankFrom(d.ranks, m, k - 1)]
      ensures Added(1)
      ensures Pushed(RankFrom(d.ranks, m, k - 1), p, heap.Keys())
    {
      assert token[..][w[k - 1]] == d.ranks[m[k - 1]];
      var left := d.Join(token[p], r, m[k - 1], m[k]);
      PairRankBound(d.ranks, m[k - 1], m[k]);
      Record(n, p, left);
    }

    // Look up and push the pairs on both sides of s, right first.
    method PushBoth(d: Cl100k, n: nat, s: nat, r: nat, u: int, ghost w: seq<nat>, ghost m: seq<Bytes>, ghost k: nat)
      requires d.Loaded() && n < POS && Shaped() && n <= next.Length
      requires heap.Valid() && Packed(n, heap.Keys()) && heap.size + 2 <= heap.heap.Length
      requires |m| == |w| && Increasing(n, w) && AllTokens(d.ranks, m) && TokenOk(d.ranks, n, w, m, token[..])
      requires k < |w| && w[k] == s && d.ranks[m[k]] == r && u == if k + 1 < |w| then w[k + 1] else n
      requires prev[s] == if k > 0 then w[k - 1] else -1
      modifies rankAt, heap`size, heap`pushed, heap.heap
      ensures Shaped() && heap.Valid() && Packed(n, heap.Keys())
      ensures var here := old(rankAt[..])[s := RankFrom(d.ranks, m, k)];
              rankAt[..] == if k > 0 then here[w[k - 1] := RankFrom(d.ranks, m, k - 1)] else here
      ensures Added(2)
      ensures Pushed(RankFrom(d.ranks, m, k), s, heap.Keys())
      ensures k > 0 ==> Pushed(RankFrom(d.ranks, m, k - 1), w[k - 1], heap.Keys())
    {
      PushRight(d, n, s, r, u, w, m, k);
      var p := prev[s];
      if p >= 0 {
        PushLeft(d, n, p, r, w, m, k);
      }
    }

    // One merge, with everything it has to keep.
    method MergePair(d: Cl100k, n: nat, s: nat, r: nat, ghost starts: seq<nat>, ghost parts: seq<Bytes>, ghost k: nat)
      requires d.Loaded() && n < POS
      requires Shaped() && Holds(d.ranks, n, starts, parts)
      requires k + 1 < |starts| && starts[k] == s && RankAt(d.ranks, parts, k) == r != NONE
      requires Complete(n, multiset{Key(r, s)}) && heap.size + 2 <= heap.heap.Length
      modifies next, prev, token, rankAt, heap`size, heap`pushed, heap.heap
      ensures Shaped()
      ensures |MergeAt(parts, k)| == |parts| - 1
      ensures Holds(d.ranks, n, Without(starts, k), MergeAt(parts, k))
      ensures Complete(n, multiset{}) && heap.size - old(heap.size) == heap.pushed - old(heap.pushed)
      ensures old(heap.pushed) <= heap.pushed <= old(heap.pushed) + 2
    {
      ghost var ranks0, keys0 := rankAt[..], heap.Keys();
      UnlinkAndPush(d, n, s, r, starts, parts, k);
      MergedHolds(d.ranks, n, starts, parts, k, ranks0, next[..], prev[..], token[..], rankAt[..], keys0, heap.Keys(), r);
    }

    // The list skips the merged part, and the merged token's two pairs are looked up and pushed.
    method UnlinkAndPush(d: Cl100k, n: nat, s: nat, r: nat, ghost starts: seq<nat>, ghost parts: seq<Bytes>, ghost k: nat)
      requires d.Loaded() && n < POS
      requires Shaped() && Holds(d.ranks, n, starts, parts)
      requires k + 1 < |starts| && starts[k] == s && RankAt(d.ranks, parts, k) == r != NONE
      requires heap.Valid() && Packed(n, heap.Keys()) && heap.size + 2 <= heap.heap.Length
      modifies next, prev, token, rankAt, heap`size, heap`pushed, heap.heap
      ensures Shaped() && heap.Valid() && Packed(n, heap.Keys())
      ensures |MergeAt(parts, k)| == |parts| - 1 == |Without(starts, k)|
      ensures Increasing(n, Without(starts, k)) && AllTokens(d.ranks, MergeAt(parts, k))
      ensures NextOk(n, Without(starts, k), next[..]) && PrevOk(n, Without(starts, k), prev[..])
      ensures TokenOk(d.ranks, n, Without(starts, k), MergeAt(parts, k), token[..])
      ensures rankAt[..] == RowAfter(d.ranks, starts, parts, k, old(rankAt[..]))
      ensures Added(2)
      ensures Pushed(RankFrom(d.ranks, MergeAt(parts, k), k), starts[k], heap.Keys())
      ensures k > 0 ==> Pushed(RankFrom(d.ranks, MergeAt(parts, k), k - 1), starts[k - 1], heap.Keys())
    {
      ghost var m, w := MergeAt(parts, k), Without(starts, k);
      MergeAtParts(parts, k);
      var u := Unlink(d.ranks, n, s, r, starts, parts, k);
      assert m[k] == parts[k] + parts[k + 1];
      PushBoth(d, n, s, r, u, w, m, k);
    }

    // Every byte is a part; the list runs through all of them.
    method FillList(d: Cl100k, bytes: Bytes, from: nat, n: nat)
      requires d.Loaded() && Shaped() && n <= next.Length && from + n <= |bytes|
      modifies next, prev, token
      ensures forall j :: 0 <= j < n ==> next[j] == j + 1
      ensures forall j :: 0 <= j < n ==> prev[j] == j - 1
      ensures forall j :: 0 <= j < n ==> token[j] == d.ranks[[bytes[from + j]]]
    {
      for i := 0 to n
        invariant forall j :: 0 <= j < i ==> next[j] == j + 1
        invariant forall j :: 0 <= j < i ==> prev[j] == j - 1
        invariant forall j :: 0 <= j < i ==> token[j] == d.ranks[[bytes[from + j]]]
      {
        next[i], prev[i], token[i] := i + 1, i - 1, d.byteRank[bytes[from + i]];
      }
    }

    // The first n - 1 pairs.
    method PushFirst(d: Cl100k, n: nat, ghost parts: seq<Bytes>)
      requires d.Loaded() && Shaped() && 2 <= n == |parts| <= next.Length && n < POS && AllTokens(d.ranks, parts)
      requires Increasing(n, Numbers(n)) && TokenOk(d.ranks, n, Numbers(n), parts, token[..])
      requires heap.Valid() && heap.size == 0
      modifies rankAt, heap`size, heap`pushed, heap.heap
      ensures Shaped() && heap.Valid() && Packed(n, heap.Keys())
      ensures heap.size <= n - 1 && heap.pushed <= old(heap.pushed) + n - 1
      ensures FirstPushed(d.ranks, parts, n, rankAt[..], heap.Keys())
    {
      assert heap.Keys() == multiset{};
      var i := 0;
      while i + 1 < n
        invariant i <= n - 1
        invariant Shaped() && heap.Valid() && heap.size <= i && Packed(n, heap.Keys())
        invariant heap.pushed <= old(heap.pushed) + i
        invariant FirstPushed(d.ranks, parts, i, rankAt[..], heap.Keys())
      {
        ghost var row, keys := rankAt[..], heap.Keys();
        assert token[..][Numbers(n)[i]] == d.ranks[parts[i]] && Numbers(n)[i] == i;
        PushRight(d, n, i, token[i], i + 1, Numbers(n), parts, i);
        OneMorePushed(d.ranks, parts, i, row, keys, heap.Keys());
        i := i + 1;
      }
      OneMorePushed(d.ranks, parts, i, rankAt[..], heap.Keys(), heap.Keys());
      ghost var row := rankAt[..];
      rankAt[n - 1] := NONE;
      assert rankAt[..] == row[n - 1 := NONE];
    }

    // Pop one key and unpack it. If it is not stale, it names the pair the rule merges next;
    // if it is, nothing is lost with it.
    method PopPair(ghost v: Vocab, n: nat, ghost starts: seq<nat>, ghost parts: seq<Bytes>)
      returns (r: nat, s: nat, ghost k: nat)
      requires ValidVocab(v) && n < POS
      requires Shaped() && Holds(v, n, starts, parts) && Complete(n, multiset{}) && heap.size > 0
      modifies heap`size, heap.heap
      ensures Shaped() && heap.size == old(heap.size) - 1 && s < n
      ensures rankAt[s] != r ==> Complete(n, multiset{})
      ensures rankAt[s] == r ==>
                && Complete(n, multiset{Key(r, s)})
                && IsBest(v, parts, k) && starts[k] == s && RankAt(v, parts, k) == r
    {
      ghost var keys, ranks := heap.Keys(), rankAt[..];
      assert keys + multiset{} == keys;
      var key := heap.Pop();
      ghost var r0, s0, k0 := AfterPop(v, n, starts, parts, ranks, keys, heap.Keys(), key);
      r := key / POS;
      s := key - r * POS;
      k := k0;
      assert r == r0 && s == s0 && rankAt[..] == ranks;
    }

    // One round of the merge loop: a stale key is dropped, or the pair the naive rule picks is merged.
    method Round(d: Cl100k, n: nat, ghost starts: seq<nat>, ghost parts: seq<Bytes>)
      returns (merged: bool, ghost starts': seq<nat>, ghost parts': seq<Bytes>)
      requires d.Loaded() && 2 <= n < POS && 1 <= |parts| && n <= next.Length
      requires Shaped() && Holds(d.ranks, n, starts, parts) && Complete(n, multiset{})
      requires 0 < heap.size && heap.size + 1 <= heap.heap.Length
      modifies next, prev, token, rankAt, heap`size, heap`pushed, heap.heap
      ensures Shaped() && Holds(d.ranks, n, starts', parts') && Complete(n, multiset{})
      ensures Merge(d.ranks, parts') == Merge(d.ranks, parts)
      ensures |parts'| == (if merged then |parts| - 1 else |parts|) >= 1
      ensures heap.size - old(heap.size) == heap.pushed - old(heap.pushed) - 1
      ensures old(heap.pushed) <= heap.pushed <= old(heap.pushed) + (if merged then 2 else 0)
    {
      ghost var k;
      var r, s;
      r, s, k := PopPair(d.ranks, n, starts, parts);
      ghost var size, pushed := heap.size, heap.pushed;
      assert size == old(heap.size) - 1 && pushed == old(heap.pushed);
      starts', parts' := starts, parts;
      merged := rankAt[s] == r;
      if merged {  // else a key left over from before some merge
        MergeStep(d.ranks, parts, k);
        starts', parts' := Without(starts, k), MergeAt(parts, k);
        MergePair(d, n, s, r, starts, parts, k);
      }
      assert heap.size - size == heap.pushed - pushed;
    }

    // The merge loop: every round either drops a stale key or merges the pair the naive rule picks.
    // It pushes at most two keys a merge.
    method MergeAll(d: Cl100k, n: nat, ghost starts: seq<nat>, ghost parts: seq<Bytes>) returns (count: nat)
      requires d.Loaded() && 2 <= n < POS && n == |parts| <= next.Length
      requires Shaped() && Holds(d.ranks, n, starts, parts)
      requires Complete(n, multiset{}) && heap.size <= n - 1
      modifies next, prev, token, rankAt, heap`size, heap`pushed, heap.heap
      ensures Shaped() && count == |Merge(d.ranks, parts)|
      ensures 1 <= count && heap.pushed <= old(heap.pushed) + 2 * (n - count)
    {
      ghost var s0, p0 := starts, parts;
      count := n;
      while heap.size > 0
        invariant Shaped() && Holds(d.ranks, n, s0, p0) && Complete(n, multiset{})
        invariant 1 <= count == |p0| <= n
        invariant heap.size - old(heap.size) <= heap.pushed - old(heap.pushed) <= 2 * (n - count)
        invariant Merge(d.ranks, p0) == Merge(d.ranks, parts)
        decreases 2 * count + heap.size
      {
        ghost var s1, p1 := s0, p0;
        var merged;
        merged, s1, p1 := Round(d, n, s0, p0);
        if merged { count := count - 1; }
        s0, p0 := s1, p1;
      }
      EmptyMeansDone(d.ranks, n, s0, p0, rankAt[..], heap.Keys() + multiset{});
    }

    // The slice's merge: the length of the naive one.
    method HeapMerge(d: Cl100k, bytes: Bytes, from: nat, to: nat) returns (count: nat)
      requires d.Loaded() && from <= to <= |bytes| && to - from < POS
      requires Shaped()
      modifies this, next, prev, token, rankAt, heap, heap.heap
      ensures Shaped()
      ensures Grown()
      ensures count == |Merge(d.ranks, Singles(bytes[from..to]))|
      ensures heap.pushed <= (if heap == old(heap) then old(heap.pushed) else 0) + (if to - from < 2 then 0 else 3 * (to - from) - 3)
    {
      var n := to - from;
      if n < 2 {
        TooShort(d.ranks, bytes[from..to]);
        return n;
      }
      Prepare(n);
      count := MergePrepared(d, bytes, from, n, bytes[from..to]);
    }

    method MergePrepared(d: Cl100k, bytes: Bytes, from: nat, n: nat, ghost piece: Bytes) returns (count: nat)
      requires d.Loaded() && Shaped() && 2 <= n <= next.Length && n < POS && from + n <= |bytes|
      requires heap.Valid() && heap.size == 0
      modifies next, prev, token, rankAt, heap`size, heap`pushed, heap.heap
      requires piece == bytes[from..from + n]
      ensures Shaped() && count == |Merge(d.ranks, Singles(piece))|
      ensures heap.pushed <= old(heap.pushed) + 3 * n - 3
    {
      Begin(d, bytes, from, n);
      count := MergeAll(d, n, Numbers(n), Singles(piece));
    }

    // The list of single bytes, and the heap of its first pairs.
    method Begin(d: Cl100k, bytes: Bytes, from: nat, n: nat)
      requires d.Loaded() && Shaped() && 2 <= n <= next.Length && n < POS && from + n <= |bytes|
      requires heap.Valid() && heap.size == 0
      modifies next, prev, token, rankAt, heap`size, heap`pushed, heap.heap
      ensures Shaped() && Holds(d.ranks, n, Numbers(n), Singles(bytes[from..from + n]))
      ensures Complete(n, multiset{}) && heap.size <= n - 1 && heap.pushed <= old(heap.pushed) + n - 1
    {
      ghost var piece := bytes[from..from + n];
      FillList(d, bytes, from, n);
      NumbersIncrease(n);
      FirstTokens(d.ranks, piece, token[..]);
      PushFirst(d, n, Singles(piece));
      FirstHolds(d.ranks, piece, next[..], prev[..], token[..], rankAt[..], heap.Keys());
    }
  }

  // With the first pairs pushed, the rows and the heap are in step.
  lemma {:induction false} FirstHolds(v: Vocab, piece: Bytes, next: seq<int>, prev: seq<int>, token: seq<int>, rankAt: seq<int>,
                                      keys: multiset<int>)
    requires ValidVocab(v)
    requires |next| >= |piece| > 0 && |prev| >= |piece| && |token| >= |piece| && |rankAt| >= |piece|
    requires forall j :: 0 <= j < |piece| ==> next[j] == j + 1
    requires forall j :: 0 <= j < |piece| ==> prev[j] == j - 1
    requires forall j :: 0 <= j < |piece| ==> token[j] == v[[piece[j]]]
    requires FirstPushed(v, Singles(piece), |piece|, rankAt, keys)
    ensures Linked(v, |piece|, Numbers(|piece|), Singles(piece), next, prev, token, rankAt)
    ensures Covered(|piece|, rankAt, keys + multiset{})
  {
    AllLinked(v, piece, next, prev, token, rankAt);
    assert keys + multiset{} == keys;
  }

  // After a merge the rows hold the list of its parts, and every live pair that merges has its key.
  lemma {:induction false} MergedHolds(v: Vocab, n: nat, starts: seq<nat>, parts: seq<Bytes>, k: nat, ranks: seq<int>,
                                       next: seq<int>, prev: seq<int>, token: seq<int>, after: seq<int>,
                                       keys: multiset<int>, keysAfter: multiset<int>, r: nat)
    requires n < POS && Increasing(n, starts) && |ranks| >= n && k + 1 < |starts| == |parts|
    requires RankOk(v, n, starts, parts, ranks) && r == ranks[starts[k]]
    requires |MergeAt(parts, k)| == |parts| - 1 == |Without(starts, k)|
    requires Increasing(n, Without(starts, k)) && AllTokens(v, MergeAt(parts, k))
    requires |next| >= n && |prev| >= n && |token| >= n
    requires NextOk(n, Without(starts, k), next) && PrevOk(n, Without(starts, k), prev)
    requires TokenOk(v, n, Without(starts, k), MergeAt(parts, k), token)
    requires after == RowAfter(v, starts, parts, k, ranks)
    requires Covered(n, ranks, keys + multiset{Key(r, starts[k])}) && keys <= keysAfter
    requires Pushed(RankFrom(v, MergeAt(parts, k), k), starts[k], keysAfter)
    requires k > 0 ==> Pushed(RankFrom(v, MergeAt(parts, k), k - 1), starts[k - 1], keysAfter)
    ensures Linked(v, n, Without(starts, k), MergeAt(parts, k), next, prev, token, after)
    ensures Covered(n, after, keysAfter + multiset{})
  {
    LinkedAfter(v, n, starts, parts, k, ranks, next, prev, token, after);
    MergedCovered(v, n, starts, parts, k, ranks, keys, keysAfter, r);
    assert keysAfter + multiset{} == keysAfter;
  }

  // The starts of a piece of n one-byte parts.
  function Numbers(n: nat): seq<nat> {
    seq(n, i requires 0 <= i < n => i)
  }

  // What popping a least key leaves: a stale key loses nothing, any other names the best pair.
  lemma {:induction false} AfterPop(v: Vocab, n: nat, starts: seq<nat>, parts: seq<Bytes>, rankAt: seq<int>,
                 keys: multiset<int>, rest: multiset<int>, key: int) returns (r: nat, s: nat, k: nat)
    requires ValidVocab(v) && n < POS && |parts| == |starts| && |rankAt| >= n
    requires Increasing(n, starts) && RankOk(v, n, starts, parts, rankAt)
    requires Covered(n, rankAt, keys) && Packed(n, keys)
    requires key in keys && (forall q :: q in keys ==> key <= q) && rest == keys - multiset{key}
    ensures r == key / POS && s == key - r * POS && s < n && Packed(n, rest)
    ensures rankAt[s] != r ==> Covered(n, rankAt, rest + multiset{})
    ensures rankAt[s] == r ==>
              && Covered(n, rankAt, rest + multiset{Key(r, s)})
              && IsBest(v, parts, k) && starts[k] == s && RankAt(v, parts, k) == r
  {
    r, s, k := key / POS, key % POS, 0;
    if rankAt[s] != r {
      StaleDropped(n, rankAt, keys, key);
      assert rest + multiset{} == keys - multiset{key};
    } else {
      k := LeastKeyIsBest(v, n, starts, parts, rankAt, keys, key);
      assert Key(r, s) == key;
      assert rest + multiset{key} == keys;
    }
  }

  // The first i pairs have their rank in the row and their key in the heap.
  ghost predicate FirstPushed(v: Vocab, parts: seq<Bytes>, i: nat, rankAt: seq<int>, keys: multiset<int>)
    requires i <= |parts| <= |rankAt|
  {
    forall j :: 0 <= j < i ==> rankAt[j] == RankFrom(v, parts, j) && Pushed(rankAt[j], j, keys)
  }

  lemma {:induction false} OneMorePushed(v: Vocab, parts: seq<Bytes>, i: nat, rankAt: seq<int>, keys: multiset<int>, keys': multiset<int>)
    requires i < |parts| <= |rankAt| && FirstPushed(v, parts, i, rankAt, keys) && keys <= keys'
    requires Pushed(RankFrom(v, parts, i), i, keys')
    ensures FirstPushed(v, parts, i + 1, rankAt[i := RankFrom(v, parts, i)], keys')
  {
  }

  // A piece without a pair is merged as it stands.
  lemma {:induction false} TooShort(v: Vocab, piece: Bytes)
    requires ValidVocab(v) && |piece| < 2
    ensures |Merge(v, Singles(piece))| == |piece|
  {
    assert NoPair(v, Singles(piece));
  }

  lemma {:induction false} NumbersIncrease(n: nat)
    ensures |Numbers(n)| == n && Increasing(n, Numbers(n))
    ensures forall j :: 0 <= j < n ==> Numbers(n)[j] == j
    ensures forall s: nat :: s < n ==> s in Numbers(n)
  {
    forall s: nat | s < n ensures s in Numbers(n) { assert Numbers(n)[s] == s; }
  }

  lemma {:induction false} AllLinked(v: Vocab, piece: Bytes, next: seq<int>, prev: seq<int>, token: seq<int>, rankAt: seq<int>)
    requires ValidVocab(v)
    requires |next| >= |piece| > 0 && |prev| >= |piece| && |token| >= |piece| && |rankAt| >= |piece|
    requires forall j :: 0 <= j < |piece| ==> next[j] == j + 1
    requires forall j :: 0 <= j < |piece| ==> prev[j] == j - 1
    requires forall j :: 0 <= j < |piece| ==> token[j] == v[[piece[j]]]
    requires forall j :: 0 <= j < |piece| ==> rankAt[j] == RankFrom(v, Singles(piece), j)
    ensures Linked(v, |piece|, Numbers(|piece|), Singles(piece), next, prev, token, rankAt)
  {
    var n := |piece|;
    NumbersIncrease(n);
    AllNeighbours(n, next, prev);
    FirstTokens(v, piece, token);
    assert RankOk(v, n, Numbers(n), Singles(piece), rankAt);
  }

  lemma {:induction false} FirstTokens(v: Vocab, piece: Bytes, token: seq<int>)
    requires ValidVocab(v) && |token| >= |piece|
    requires forall j :: 0 <= j < |piece| ==> token[j] == v[[piece[j]]]
    ensures Increasing(|piece|, Numbers(|piece|)) && |Numbers(|piece|)| == |piece| && AllTokens(v, Singles(piece))
    ensures TokenOk(v, |piece|, Numbers(|piece|), Singles(piece), token)
  {
    NumbersIncrease(|piece|);
  }

  lemma {:induction false} AllNeighbours(n: nat, next: seq<int>, prev: seq<int>)
    requires |next| >= n && |prev| >= n && Increasing(n, Numbers(n))
    requires forall j :: 0 <= j < n ==> next[j] == j + 1
    requires forall j :: 0 <= j < n ==> prev[j] == j - 1
    ensures NextOk(n, Numbers(n), next) && PrevOk(n, Numbers(n), prev)
  {
    NumbersIncrease(n);
    assert forall k :: 0 <= k < n ==> NextAt(n, Numbers(n), next, k) && PrevAt(n, Numbers(n), prev, k);
  }
}
