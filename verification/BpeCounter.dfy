// The loaded vocabulary, and the flat scan that merges short pieces (src/lib/bpeCount.ts:104-151).
module BpeCounter {
  import opened BpeSpec
  import opened LinkedParts
  import opened PairTable

  const SCAN_BYTES := 64

  // ── A short piece: what scanMerge's two rows hold ────────────────────────────────────────────

  ghost predicate RowsOk(v: Vocab, parts: seq<Bytes>, tokens: seq<int>, pairRanks: seq<int>) {
    && AllTokens(v, parts)
    && |parts| <= |tokens| && |parts| <= |pairRanks|
    && (forall i :: 0 <= i < |parts| ==> tokens[i] == v[parts[i]])
    && (forall i :: 0 <= i < |parts| - 1 ==> pairRanks[i] == RankAt(v, parts, i))
  }

  // The rows after merging at `at`: the tail moves left by one, and two pairs are looked up again.
  lemma {:induction false} RowsMerged(v: Vocab, parts: seq<Bytes>, tokens: seq<int>, pairRanks: seq<int>, at: nat,
                   tokens': seq<int>, pairRanks': seq<int>)
    requires RowsOk(v, parts, tokens, pairRanks) && at + 1 < |parts| && RankAt(v, parts, at) != NONE
    requires |tokens'| == |tokens| && |pairRanks'| == |pairRanks|
    requires forall i :: 0 <= i < |parts| - 1 ==>
               tokens'[i] == if i == at then RankAt(v, parts, at) else tokens[Shift(at, i)]
    requires forall i :: 0 <= i < |parts| - 2 && i != at && i != at - 1 ==> pairRanks'[i] == pairRanks[Shift(at, i)]
    requires |MergeAt(parts, at)| == |parts| - 1
    requires at < |parts| - 2 ==> pairRanks'[at] == RankAt(v, MergeAt(parts, at), at)
    requires at > 0 ==> pairRanks'[at - 1] == RankAt(v, MergeAt(parts, at), at - 1)
    ensures RowsOk(v, MergeAt(parts, at), tokens', pairRanks')
  {
    MergeAtParts(parts, at);
    MergedTokens(v, parts, at, tokens, tokens');
    var m := MergeAt(parts, at);
    forall i | 0 <= i < |m| - 1 ensures pairRanks'[i] == RankAt(v, m, i) {
      if i != at && i + 1 != at {
        RankUnmoved(v, parts, at, i);
        assert pairRanks'[i] == pairRanks[Shift(at, i)] == RankAt(v, parts, Shift(at, i));
      }
    }
  }

  lemma {:induction false} MergedTokens(v: Vocab, parts: seq<Bytes>, at: nat, tokens: seq<int>, tokens': seq<int>)
    requires at + 1 < |parts| <= |tokens| && AllTokens(v, parts) && RankAt(v, parts, at) != NONE
    requires |tokens'| == |tokens|
    requires forall i :: 0 <= i < |parts| ==> tokens[i] == v[parts[i]]
    requires forall i :: 0 <= i < |parts| - 1 ==>
               tokens'[i] == if i == at then RankAt(v, parts, at) else tokens[Shift(at, i)]
    ensures |MergeAt(parts, at)| == |parts| - 1 && AllTokens(v, MergeAt(parts, at))
    ensures forall i :: 0 <= i < |parts| - 1 ==> tokens'[i] == v[MergeAt(parts, at)[i]]
  {
    MergeAtParts(parts, at);
    TokensMergeAt(v, parts, at);
    var m := MergeAt(parts, at);
    forall i | 0 <= i < |m| ensures tokens'[i] == v[m[i]] {
      assert m[i] == if i == at then parts[at] + parts[at + 1] else parts[Shift(at, i)];
    }
  }

  // Move a[from..to] to begin at `target`, to its left (TypedArray.copyWithin).
  method CopyLeft(a: array<int>, target: nat, from: nat, to: nat)
    requires target <= from && to <= a.Length
    modifies a
    ensures forall i {:trigger a[i]} :: 0 <= i < a.Length ==>
              a[i] == if target <= i && i + (from - target) < to then old(a[i + (from - target)]) else old(a[i])
  {
    var gap := from - target;
    var i := target;
    while i + gap < to
      invariant target <= i
      invariant forall j {:trigger a[j]} :: 0 <= j < a.Length ==>
                  a[j] == if target <= j < i && j + gap < to then old(a[j + gap]) else old(a[j])
    {
      a[i] := a[i + gap];
      i := i + 1;
    }
  }

  // The loaded vocabulary: never changed once built.
  class Cl100k {
    const ranks: Vocab
    const byteRank: seq<int>
    const longest: nat
    const table: PairTable

    ghost predicate Loaded() {
      && ValidVocab(ranks)
      && |byteRank| == 256 && (forall b: Byte :: byteRank[b] == ranks[[b]])
      && (forall w | w in ranks :: |w| <= longest)
      && table.Valid() && Answers(ranks, table.entries)
    }

    // load(). `order` is the order in which the rank map lists its tokens.
    constructor (ranks: Vocab, order: seq<Bytes>)
      requires ValidVocab(ranks) && Lists(ranks, order)
      requires 8 * |Splits(ranks)| <= 5 * Pow2(30)
      ensures Loaded() && this.ranks == ranks
    {
      this.ranks := ranks;
      byteRank := ByteRanks(ranks);
      var most := Longest(ranks, order);
      longest := most;
      table := new PairTable(ranks, order);
    }

    // The rank two neighbouring parts join into, read from the table by their own ranks.
    method Join(left: int, right: int, ghost a: Bytes, ghost b: Bytes) returns (r: int)
      requires Loaded() && a in ranks && b in ranks && left == ranks[a] && right == ranks[b]
      ensures r == PairRank(ranks, a, b)
    {
      r := table.Joined(left, right);
      AnswersPairRank(ranks, table.entries, a, b);
    }
  }

  method ScanMerge(d: Cl100k, bytes: Bytes, parts: array<int>, pairRanks: array<int>) returns (n: nat)
    requires d.Loaded() && |bytes| <= SCAN_BYTES
    requires parts.Length == SCAN_BYTES && pairRanks.Length == SCAN_BYTES && parts != pairRanks
    modifies parts, pairRanks
    ensures n == |Merge(d.ranks, Singles(bytes))|
  {
    ghost var left := Singles(bytes);
    n := StartScan(d, bytes, parts, pairRanks);
    while n > 1
      invariant n == |left| && RowsOk(d.ranks, left, parts[..], pairRanks[..])
      invariant Merge(d.ranks, left) == Merge(d.ranks, Singles(bytes))
    {
      var best, at := LowestPair(pairRanks, n - 1);
      if at < 0 { break; }
      LowestIsBest(d.ranks, left, parts[..], pairRanks[..], best, at);
      n := MergeRows(d, n, at, best, parts, pairRanks, left);
      left := MergeAt(left, at);
    }
    NothingLeft(d.ranks, left, parts[..], pairRanks[..]);
  }

  // The leftmost lowest of the first n ranks; none is below NONE when there is none.
  ghost predicate Lowest(row: seq<int>, n: nat, best: int, at: int)
    requires n <= |row|
  {
    && 0 <= at < n && best == row[at] < NONE
    && forall j :: 0 <= j < n ==> best <= row[j] && (j < at ==> best < row[j])
  }

  ghost predicate NoneLow(row: seq<int>, n: nat)
    requires n <= |row|
  {
    forall j :: 0 <= j < n ==> row[j] >= NONE
  }

  // The leftmost lowest rank of the row is the pair the rule merges next.
  lemma {:induction false} LowestIsBest(v: Vocab, parts: seq<Bytes>, tokens: seq<int>, pairRanks: seq<int>, best: int, at: int)
    requires ValidVocab(v) && RowsOk(v, parts, tokens, pairRanks) && parts != []
    requires Lowest(pairRanks, |parts| - 1, best, at)
    ensures best == RankAt(v, parts, at) != NONE && Merge(v, parts) == Merge(v, MergeAt(parts, at))
  {
    assert forall j :: 0 <= j < |parts| - 1 ==> pairRanks[j] == RankAt(v, parts, j);
    assert IsBest(v, parts, at);
    MergeStep(v, parts, at);
  }

  // The leftmost lowest of the first n ranks, or -1 when none is below NONE.
  method LowestPair(pairRanks: array<int>, n: nat) returns (best: int, at: int)
    requires n <= pairRanks.Length
    ensures if at == -1 then NoneLow(pairRanks[..], n) else Lowest(pairRanks[..], n, best, at)
  {
    best, at := NONE, -1;
    for i := 0 to n
      invariant if at == -1 then best == NONE else 0 <= at < i && best == pairRanks[at] < NONE
      invariant forall j :: 0 <= j < i ==> best <= pairRanks[j] && (j < at ==> best < pairRanks[j])
    {
      if pairRanks[i] < best { best, at := pairRanks[i], i; }
    }
  }

  // The tokens of the parts, in order.
  ghost predicate TokensAt(v: Vocab, parts: seq<Bytes>, tokens: seq<int>) {
    AllTokens(v, parts) && |parts| <= |tokens| && forall i :: 0 <= i < |parts| ==> tokens[i] == v[parts[i]]
  }

  // Every byte is a part, and every pair is looked up once.
  method StartScan(d: Cl100k, bytes: Bytes, parts: array<int>, pairRanks: array<int>) returns (n: nat)
    requires d.Loaded() && |bytes| <= SCAN_BYTES
    requires parts.Length == SCAN_BYTES && pairRanks.Length == SCAN_BYTES && parts != pairRanks
    modifies parts, pairRanks
    ensures n == |bytes| && RowsOk(d.ranks, Singles(bytes), parts[..], pairRanks[..])
  {
    n := |bytes|;
    StartTokens(d, bytes, parts);
    StartPairs(d, n, parts, pairRanks, Singles(bytes));
  }

  method StartTokens(d: Cl100k, bytes: Bytes, parts: array<int>)
    requires d.Loaded() && |bytes| <= parts.Length
    modifies parts
    ensures TokensAt(d.ranks, Singles(bytes), parts[..])
  {
    for i := 0 to |bytes|
      invariant forall j :: 0 <= j < i ==> parts[j] == d.ranks[[bytes[j]]]
    {
      parts[i] := d.byteRank[bytes[i]];
    }
  }

  method StartPairs(d: Cl100k, n: nat, parts: array<int>, pairRanks: array<int>, ghost left: seq<Bytes>)
    requires d.Loaded() && n == |left| <= parts.Length == pairRanks.Length && parts != pairRanks
    requires TokensAt(d.ranks, left, parts[..])
    modifies pairRanks
    ensures RowsOk(d.ranks, left, parts[..], pairRanks[..])
  {
    var i := 0;
    while i + 1 < n
      invariant i <= n && TokensAt(d.ranks, left, parts[..])
      invariant forall j :: 0 <= j < i && j + 1 < n ==> pairRanks[j] == RankAt(d.ranks, left, j)
    {
      assert parts[..][i] == parts[i] && parts[..][i + 1] == parts[i + 1];
      pairRanks[i] := d.Join(parts[i], parts[i + 1], left[i], left[i + 1]);
      i := i + 1;
    }
  }

  // One merge in the flat rows: write the token, close the gap, look up its two new pairs.
  method MergeRows(d: Cl100k, n: nat, at: nat, best: int, parts: array<int>, pairRanks: array<int>,
                   ghost left: seq<Bytes>) returns (m: nat)
    requires d.Loaded()
    requires parts.Length == SCAN_BYTES && pairRanks.Length == SCAN_BYTES && parts != pairRanks
    requires n == |left| && at + 1 < n <= SCAN_BYTES
    requires RowsOk(d.ranks, left, parts[..], pairRanks[..])
    requires best == RankAt(d.ranks, left, at) != NONE
    modifies parts, pairRanks
    ensures m == n - 1 == |MergeAt(left, at)| && RowsOk(d.ranks, MergeAt(left, at), parts[..], pairRanks[..])
  {
    ghost var tokens, pairs := parts[..], pairRanks[..];
    CloseGap(n, at, best, parts, pairRanks);
    MergedTokens(d.ranks, left, at, tokens, parts[..]);
    m := n - 1;
    LookUpBoth(d, m, at, best, parts, pairRanks, MergeAt(left, at));
    RowsMerged(d.ranks, left, tokens, pairs, at, parts[..], pairRanks[..]);
  }

  // The pairs on both sides of the merged token.
  method LookUpBoth(d: Cl100k, m: nat, at: nat, best: int, parts: array<int>, pairRanks: array<int>, ghost merged: seq<Bytes>)
    requires d.Loaded() && at < m == |merged| <= parts.Length == pairRanks.Length && parts != pairRanks
    requires TokensAt(d.ranks, merged, parts[..]) && best == parts[at]
    modifies pairRanks
    ensures forall i :: 0 <= i < pairRanks.Length && i != at && i != at - 1 ==> pairRanks[i] == old(pairRanks[i])
    ensures at < m - 1 ==> pairRanks[at] == RankAt(d.ranks, merged, at)
    ensures at > 0 ==> pairRanks[at - 1] == RankAt(d.ranks, merged, at - 1)
  {
    assert forall i :: 0 <= i < m ==> parts[i] == parts[..][i];
    if at < m - 1 { pairRanks[at] := d.Join(best, parts[at + 1], merged[at], merged[at + 1]); }
    if at > 0 { pairRanks[at - 1] := d.Join(parts[at - 1], best, merged[at - 1], merged[at]); }
  }

  // Write the merged token over part `at`, and move both tails left by one.
  method CloseGap(n: nat, at: nat, best: int, parts: array<int>, pairRanks: array<int>)
    requires at + 1 < n <= parts.Length == pairRanks.Length && parts != pairRanks
    modifies parts, pairRanks
    ensures forall i :: 0 <= i < n - 1 ==> parts[i] == if i == at then best else old(parts[Shift(at, i)])
    ensures forall i :: 0 <= i < n - 2 && i != at ==> pairRanks[i] == old(pairRanks[Shift(at, i)])
  {
    parts[at] := best;
    CopyLeft(parts, at + 1, at + 2, n);
    CopyLeft(pairRanks, at + 1, at + 2, n - 1);
  }

  function ByteRanks(ranks: Vocab): (r: seq<int>)
    ensures |r| == 256 && forall b: Byte :: [b] in ranks ==> r[b] == ranks[[b]]
  {
    seq(256, b requires 0 <= b < 256 => if [b as Byte] in ranks then ranks[[b as Byte]] else NONE)
  }

  method Longest(ghost v: Vocab, order: seq<Bytes>) returns (longest: nat)
    requires Lists(v, order)
    ensures forall w | w in v :: |w| <= longest
    ensures longest == 0 || exists w :: w in v && |w| == longest
  {
    longest := 0;
    for i := 0 to |order|
      invariant forall j :: 0 <= j < i ==> |order[j]| <= longest
      invariant longest == 0 || exists w :: w in v && |w| == longest
    {
      if |order[i]| > longest { longest := |order[i]|; }
    }
  }

  // A scan that finds no rank below NONE has finished the merge; so has one with nothing to scan.
  lemma {:induction false} NothingLeft(v: Vocab, parts: seq<Bytes>, tokens: seq<int>, pairRanks: seq<int>)
    requires ValidVocab(v) && RowsOk(v, parts, tokens, pairRanks)
    requires |parts| > 1 ==> NoneLow(pairRanks, |parts| - 1)
    ensures Merge(v, parts) == parts
  {
    assert forall j :: 0 <= j < |parts| - 1 ==> pairRanks[j] == RankAt(v, parts, j);
    forall i | 0 <= i < |parts| - 1 ensures RankAt(v, parts, i) == NONE {
      PairRankBound(v, parts[i], parts[i + 1]);
    }
  }
}
