// The pair table of src/lib/bpeCount.ts: which two token ranks join into which token, in an
// open-addressing table on the ranks alone.
module PairTable {
  import opened BpeSpec

  type Pair = (int, int)

  // ── Where a probe starts (Math.imul and >>> on 32-bit words) ─────────────────────────────────

  function Pow2(n: nat): (r: nat)
    ensures r >= 1
  {
    if n == 0 then 1 else 2 * Pow2(n - 1)
  }

  lemma {:induction false} Pow2Add(a: nat, b: nat)
    ensures Pow2(a + b) == Pow2(a) * Pow2(b)
  {
    if a > 0 {
      Pow2Add(a - 1, b);
      assert Pow2(a + b) == 2 * Pow2(a - 1 + b);
      DoubleProduct(Pow2(a - 1), Pow2(b));
    }
  }

  lemma {:induction false} DoubleProduct(x: nat, y: nat)
    ensures (2 * x) * y == 2 * (x * y)
  {
  }

  function Xor(a: nat, b: nat): nat {
    if a == 0 && b == 0 then 0
    else 2 * Xor(a / 2, b / 2) + (if a % 2 == b % 2 then 0 else 1)
  }

  const WORD := 0x1_0000_0000

  function Imul(a: nat, b: nat): nat { a * b % WORD }

  function Hash(left: nat, right: nat): (h: nat)
    ensures h < WORD
  {
    Imul(Xor(Imul(left, 0x9e37_79b1), right), 0x85eb_ca6b)
  }

  function PairSlot(left: nat, right: nat, shift: nat): nat {
    DivNonNegative(Hash(left, right), Pow2(shift));
    Hash(left, right) / Pow2(shift)
  }

  lemma {:induction false} DivNonNegative(h: nat, p: nat)
    requires p >= 1
    ensures h / p >= 0
  {
  }

  // The shift leaves exactly the table's index range.
  lemma {:induction false} SlotInTable(left: nat, right: nat, bits: nat)
    requires bits <= 32
    ensures PairSlot(left, right, 32 - bits) < Pow2(bits)
  {
    var h, p, q := Hash(left, right), Pow2(32 - bits), Pow2(bits);
    Pow2Add(32 - bits, bits);
    WordSize();
    DivBelow(h, p, q);
  }

  lemma {:induction false} WordSize()
    ensures Pow2(32) == WORD
  {
    assert Pow2(8) == 0x100;
    Pow2Add(8, 8);
    Pow2Add(16, 16);
  }

  lemma {:induction false} DivBelow(h: nat, p: nat, q: nat)
    requires p >= 1 && h < p * q
    ensures h / p < q
  {
    var d := h / p;
    assert d * p <= h;
    if d >= q {
      assert d * p >= q * p by { MulLeft(q, d, p); }
      assert false;
    }
  }

  lemma {:induction false} MulLeft(a: nat, b: nat, p: nat)
    requires a <= b
    ensures a * p <= b * p
  {
  }

  // ── Probe order: the distance walked from `home` to `p`, round the end of the table ──────────

  // (i + 1) & pairMask, as the size is a power of two.
  function Step(i: nat, size: nat): (r: nat)
    requires i < size
    ensures r < size
  {
    if i + 1 == size then 0 else i + 1
  }

  function Dist(home: nat, p: nat, size: nat): (d: nat)
    requires home < size && p < size
    ensures d < size
  {
    if p >= home then p - home else p - home + size
  }

  // ── The splits of every token into two tokens ────────────────────────────────────────────────

  // `w` splits at `k` into two tokens (bpeCount.ts:88-90).
  predicate SplitsAt(v: Vocab, w: Bytes, k: int) {
    w in v && 1 <= k < |w| && w[..k] in v && w[k..] in v
  }

  function SplitPair(v: Vocab, w: Bytes, k: int): Pair
    requires SplitsAt(v, w, k)
  {
    (v[w[..k]], v[w[k..]])
  }

  ghost function Splits(v: Vocab): set<(Bytes, int)> {
    set w, k | w in v && 1 <= k < |w| && SplitsAt(v, w, k) :: (w, k)
  }

  // Two different splits never have the same pair of ranks, so no pair is inserted twice.
  lemma {:induction false} SplitsDiffer(v: Vocab, w: Bytes, k: int, x: Bytes, j: int)
    requires ValidVocab(v) && SplitsAt(v, w, k) && SplitsAt(v, x, j)
    requires SplitPair(v, w, k) == SplitPair(v, x, j)
    ensures w == x && k == j
  {
    assert w == w[..k] + w[k..] && x == x[..j] + x[j..];
    assert SameRank(v, w[..k], x[..j]) && SameRank(v, w[k..], x[j..]);
    assert |w[..k]| == k && |x[..j]| == j;
  }

  lemma {:induction false} DistinctFits<T>(s: seq<T>, all: set<T>)
    requires forall i :: 0 <= i < |s| ==> s[i] in all
    requires forall i, j :: 0 <= i < j < |s| ==> s[i] != s[j]
    ensures |s| <= |all|
  {
    if s != [] {
      var last := s[|s| - 1];
      DistinctFits(s[..|s| - 1], all - {last});
    }
  }

  // ── Occupancy ────────────────────────────────────────────────────────────────────────────────

  ghost function Used(l: seq<int>): nat {
    if l == [] then 0 else Used(l[..|l| - 1]) + (if l[|l| - 1] == -1 then 0 else 1)
  }

  lemma {:induction false} UsedAfter(l: seq<int>, i: nat, x: int)
    requires i < |l| && l[i] == -1 && x != -1
    ensures Used(l[i := x]) == Used(l) + 1
  {
    var n := |l| - 1;
    if i == n {
      assert l[i := x][..n] == l[..n];
    } else {
      assert l[i := x][..n] == l[..n][i := x];
      UsedAfter(l[..n], i, x);
    }
  }

  lemma {:induction false} RoomLeft(l: seq<int>)
    requires Used(l) < |l|
    ensures exists i :: 0 <= i < |l| && l[i] == -1
  {
    var n := |l| - 1;
    if l[n] != -1 {
      RoomLeft(l[..n]);
      var i :| 0 <= i < n && l[..n][i] == -1;
      assert l[i] == -1;
    }
  }

  lemma {:induction false} UsedNone(l: seq<int>)
    requires forall i :: 0 <= i < |l| ==> l[i] == -1
    ensures Used(l) == 0
  {
    if l != [] { UsedNone(l[..|l| - 1]); }
  }

  // ── The table as values, for any function `home` from pairs to slots ─────────────────────────

  type HomeFn = (int, int) -> nat

  // Slot `p` is free, or holds an entry with no gap between its home and `p`.
  ghost predicate SlotOk(home: HomeFn, l: seq<int>, r: seq<int>, j: seq<int>, entries: map<Pair, int>, p: nat)
    requires |r| == |l| && |j| == |l| && p < |l|
    requires forall a: int, b: int :: home(a, b) < |l|
  {
    l[p] != -1 ==>
      && l[p] >= 0 && r[p] >= 0
      && (l[p], r[p]) in entries && entries[(l[p], r[p])] == j[p]
      && NoGap(l, home(l[p], r[p]), p)
  }

  ghost predicate NoGap(l: seq<int>, h: nat, p: nat)
    requires h < |l| && p < |l|
  {
    forall q :: 0 <= q < |l| && Dist(h, q, |l|) < Dist(h, p, |l|) ==> l[q] != -1
  }

  ghost predicate Holds(l: seq<int>, r: seq<int>, key: Pair)
    requires |r| == |l|
  {
    exists p :: 0 <= p < |l| && l[p] == key.0 && r[p] == key.1
  }

  ghost predicate TableOk(home: HomeFn, l: seq<int>, r: seq<int>, j: seq<int>, entries: map<Pair, int>) {
    && |r| == |l| && |j| == |l|
    && (forall a: int, b: int :: home(a, b) < |l|)
    && (forall p :: 0 <= p < |l| ==> SlotOk(home, l, r, j, entries, p))
    && (forall key | key in entries :: key.0 >= 0 && key.1 >= 0 && Holds(l, r, key))
    && Used(l) == |entries|
  }

  // Every slot before `i` on the walk from `h` is taken, by another pair.
  ghost predicate Passed(l: seq<int>, r: seq<int>, h: nat, i: nat, key: Pair)
    requires |r| == |l| && h < |l| && i < |l|
  {
    forall q :: 0 <= q < |l| && Dist(h, q, |l|) < Dist(h, i, |l|) ==>
      l[q] != -1 && !(l[q] == key.0 && r[q] == key.1)
  }

  // A probe that meets a free slot has ruled the pair out.
  lemma {:induction false} GapMeansAbsent(home: HomeFn, l: seq<int>, r: seq<int>, j: seq<int>, entries: map<Pair, int>, key: Pair, i: nat)
    requires TableOk(home, l, r, j, entries)
    requires key.0 >= 0 && i < |l| && l[i] == -1
    requires home(key.0, key.1) < |l| && Passed(l, r, home(key.0, key.1), i, key)
    ensures key !in entries
  {
    forall p | 0 <= p < |l| ensures !(l[p] == key.0 && r[p] == key.1) {
      var farther := Dist(home(key.0, key.1), p, |l|) > Dist(home(key.0, key.1), i, |l|);
      assert SlotOk(home, l, r, j, entries, p);
      assert p == i || farther || l[p] != key.0 || r[p] != key.1;
    }
    assert !Holds(l, r, key);
  }

  lemma {:induction false} PassOne(l: seq<int>, r: seq<int>, h: nat, i: nat, e: nat, key: Pair)
    requires |r| == |l| && h < |l| && i < |l| && e < |l|
    requires Passed(l, r, h, i, key)
    requires l[i] != -1 && !(l[i] == key.0 && r[i] == key.1)
    requires l[e] == -1 && Dist(h, i, |l|) <= Dist(h, e, |l|)
    ensures Passed(l, r, h, Step(i, |l|), key)
    ensures Dist(h, Step(i, |l|), |l|) == Dist(h, i, |l|) + 1 <= Dist(h, e, |l|)
  {
    assert i != e;
    assert Dist(h, i, |l|) != Dist(h, e, |l|);
    var n := Step(i, |l|);
    assert Dist(h, n, |l|) == Dist(h, i, |l|) + 1;
    forall q | 0 <= q < |l| && Dist(h, q, |l|) < Dist(h, n, |l|)
      ensures l[q] != -1 && !(l[q] == key.0 && r[q] == key.1)
    {
      if Dist(h, q, |l|) == Dist(h, i, |l|) { assert q == i; }
    }
  }

  lemma {:induction false} HitIsEntry(home: HomeFn, l: seq<int>, r: seq<int>, j: seq<int>, entries: map<Pair, int>, i: nat)
    requires TableOk(home, l, r, j, entries) && i < |l| && l[i] != -1
    ensures l[i] >= 0 && (l[i], r[i]) in entries && entries[(l[i], r[i])] == j[i]
  {
    assert SlotOk(home, l, r, j, entries, i);
  }

  // Filling the free slot a probe stopped at keeps the table right, with one more entry.
  lemma {:induction false} FillSlot(home: HomeFn, l: seq<int>, r: seq<int>, j: seq<int>, entries: map<Pair, int>, key: Pair, value: int, i: nat)
    requires TableOk(home, l, r, j, entries)
    requires key.0 >= 0 && key.1 >= 0 && key !in entries
    requires i < |l| && l[i] == -1
    requires home(key.0, key.1) < |l| && Passed(l, r, home(key.0, key.1), i, key)
    ensures TableOk(home, l[i := key.0], r[i := key.1], j[i := value], entries[key := value])
  {
    var l', r', j', e' := l[i := key.0], r[i := key.1], j[i := value], entries[key := value];
    forall p | 0 <= p < |l| ensures SlotOk(home, l', r', j', e', p) {
      assert SlotOk(home, l, r, j, entries, p);
    }
    forall k | k in e' ensures Holds(l', r', k) {
      if k == key {
        assert l'[i] == key.0 && r'[i] == key.1;
      } else {
        assert Holds(l, r, k);
        var p :| 0 <= p < |l| && l[p] == k.0 && r[p] == k.1;
        assert SlotOk(home, l, r, j, entries, p);
        assert p != i;
        assert l'[p] == k.0 && r'[p] == k.1;
      }
    }
    UsedAfter(l, i, key.0);
  }

  // ── The table ────────────────────────────────────────────────────────────────────────────────

  ghost function HomeOf(shift: nat): HomeFn {
    (a, b) => if a >= 0 && b >= 0 then PairSlot(a, b, shift) else 0
  }

  // Every slot the hash names lies in a table of Pow2(32 - shift) slots.
  lemma {:induction false} HomeInTable(shift: nat)
    requires shift <= 32
    ensures forall a, b :: HomeOf(shift)(a, b) < Pow2(32 - shift)
  {
    forall a, b ensures HomeOf(shift)(a, b) < Pow2(32 - shift) {
      if a >= 0 && b >= 0 { SlotInTable(a, b, 32 - shift); }
    }
  }

  // What the table must answer for a vocabulary: one entry for each split of a token into two.
  ghost predicate Answers(v: Vocab, entries: map<Pair, int>) {
    && (forall w, k | SplitsAt(v, w, k) ::
          SplitPair(v, w, k) in entries && entries[SplitPair(v, w, k)] == v[w])
    && (forall key | key in entries :: exists w, k :: SplitsAt(v, w, k) && key == SplitPair(v, w, k))
  }

  // The two ranks of two tokens find the rank of their joined bytes, and nothing else.
  lemma {:induction false} AnswersPairRank(v: Vocab, entries: map<Pair, int>, a: Bytes, b: Bytes)
    requires ValidVocab(v) && Answers(v, entries) && a in v && b in v
    ensures (if (v[a], v[b]) in entries then entries[(v[a], v[b])] else NONE) == PairRank(v, a, b)
  {
    var w := a + b;
    assert w[..|a|] == a && w[|a|..] == b;
    if w in v {
      assert SplitsAt(v, w, |a|);
      assert SplitPair(v, w, |a|) == (v[a], v[b]);
    } else {
      forall x, k | SplitsAt(v, x, k) ensures SplitPair(v, x, k) != (v[a], v[b]) {
        assert x == x[..k] + x[k..];
        assert SameRank(v, x[..k], a) && SameRank(v, x[k..], b) ==> x == w;
      }
    }
  }

  // ── Building it ──────────────────────────────────────────────────────────────────────────────

  // `splits` lists splits of `v`, each once, and left/right/into are their ranks.
  ghost predicate Collected(v: Vocab, splits: seq<(Bytes, int)>, left: seq<int>, right: seq<int>, into: seq<int>) {
    && |left| == |splits| && |right| == |splits| && |into| == |splits|
    && (forall e :: 0 <= e < |splits| ==>
          && SplitsAt(v, splits[e].0, splits[e].1)
          && (left[e], right[e]) == SplitPair(v, splits[e].0, splits[e].1)
          && into[e] == v[splits[e].0])
    && (forall e, f :: 0 <= e < f < |splits| ==> splits[e] != splits[f])
  }

  lemma {:induction false} CollectedFits(v: Vocab, splits: seq<(Bytes, int)>, left: seq<int>, right: seq<int>, into: seq<int>)
    requires Collected(v, splits, left, right, into)
    ensures |splits| <= |Splits(v)|
  {
    DistinctFits(splits, Splits(v));
  }

  ghost predicate ListsAll(v: Vocab, order: seq<Bytes>, splits: seq<(Bytes, int)>) {
    forall i, k :: 0 <= i < |order| && SplitsAt(v, order[i], k) ==> (order[i], k) in splits
  }

  // `order` is the order in which the rank map is iterated.
  method CollectSplits(v: Vocab, order: seq<Bytes>)
    returns (left: seq<int>, right: seq<int>, into: seq<int>)
    requires [] !in v
    requires forall i :: 0 <= i < |order| ==> order[i] in v
    requires forall i, j :: 0 <= i < j < |order| ==> order[i] != order[j]
    ensures exists splits :: Collected(v, splits, left, right, into) && ListsAll(v, order, splits)
  {
    ghost var splits: seq<(Bytes, int)> := [];
    left, right, into := [], [], [];
    for t := 0 to |order|
      invariant Collected(v, splits, left, right, into)
      invariant forall e :: 0 <= e < |splits| ==> splits[e].0 in order[..t]
      invariant forall i, k :: 0 <= i < t && SplitsAt(v, order[i], k) ==> (order[i], k) in splits
    {
      var bytes := order[t];
      assert bytes !in order[..t];
      ghost var before := splits;
      for k := 1 to |bytes|
        invariant Collected(v, splits, left, right, into)
        invariant before <= splits
        invariant forall e :: |before| <= e < |splits| ==> splits[e].0 == bytes && splits[e].1 < k
        invariant forall j :: 1 <= j < k && SplitsAt(v, bytes, j) ==> (bytes, j) in splits
      {
        if bytes[..k] in v && bytes[k..] in v {
          left, right, into := left + [v[bytes[..k]]], right + [v[bytes[k..]]], into + [v[bytes]];
          splits := splits + [(bytes, k)];
          assert splits[|splits| - 1] == (bytes, k);
        }
      }
      assert order[..t + 1] == order[..t] + [bytes];
      forall i, k | 0 <= i < t + 1 && SplitsAt(v, order[i], k) ensures (order[i], k) in splits {
        if i < t {
          var e :| 0 <= e < |before| && before[e] == (order[i], k);
          assert splits[e] == (order[i], k);
        }
      }
    }
  }

  // The smallest size, as a power of two and at least 2, that is at most 5/8 full.
  method TableBits(n: nat) returns (bits: nat)
    requires 8 * n <= 5 * Pow2(30)
    ensures 1 <= bits <= 30 && 8 * n <= 5 * Pow2(bits)
    ensures bits > 1 ==> 8 * n > 5 * Pow2(bits - 1)
  {
    bits := 1;
    while 5 * Pow2(bits) < 8 * n
      invariant 1 <= bits <= 30
      invariant bits > 1 ==> 8 * n > 5 * Pow2(bits - 1)
      decreases 30 - bits
    {
      bits := bits + 1;
    }
  }

  // The entries made of the first `n` collected splits.
  ghost predicate EntriesOf(entries: map<Pair, int>, left: seq<int>, right: seq<int>, into: seq<int>, n: nat)
    requires n <= |left| && |right| == |left| && |into| == |left|
  {
    && |entries| == n
    && (forall e :: 0 <= e < n ==> (left[e], right[e]) in entries && entries[(left[e], right[e])] == into[e])
    && (forall key | key in entries :: IsPair(left, right, n, key))
  }

  ghost predicate IsPair(left: seq<int>, right: seq<int>, n: nat, key: Pair)
    requires n <= |left| && |right| == |left|
  {
    exists e :: 0 <= e < n && left[e] == key.0 && right[e] == key.1
  }

  lemma {:induction false} NoSuchPair(v: Vocab, splits: seq<(Bytes, int)>, left: seq<int>, right: seq<int>, into: seq<int>, n: nat)
    requires ValidVocab(v) && Collected(v, splits, left, right, into) && n < |splits|
    ensures !IsPair(left, right, n, (left[n], right[n]))
  {
    forall e | 0 <= e < n ensures (left[e], right[e]) != (left[n], right[n]) {
      if (left[e], right[e]) == (left[n], right[n]) {
        SplitsDiffer(v, splits[e].0, splits[e].1, splits[n].0, splits[n].1);
      }
    }
  }

  lemma {:induction false} NewEntry(left: seq<int>, right: seq<int>, into: seq<int>, entries: map<Pair, int>, n: nat)
    requires |right| == |left| && |into| == |left| && n < |left|
    requires EntriesOf(entries, left, right, into, n)
    requires !IsPair(left, right, n, (left[n], right[n]))
    ensures (left[n], right[n]) !in entries
    ensures EntriesOf(entries[(left[n], right[n]) := into[n]], left, right, into, n + 1)
  {
    var key := (left[n], right[n]);
    assert key !in entries;
    var more := entries[key := into[n]];
    forall other | other in more ensures IsPair(left, right, n + 1, other) {
      if other != key {
        assert IsPair(left, right, n, other);
      } else {
        assert left[n] == key.0 && right[n] == key.1;
      }
    }
  }

  lemma {:induction false} AllEntries(v: Vocab, order: seq<Bytes>, splits: seq<(Bytes, int)>, left: seq<int>, right: seq<int>, into: seq<int>,
                   entries: map<Pair, int>)
    requires Collected(v, splits, left, right, into)
    requires EntriesOf(entries, left, right, into, |splits|)
    requires forall w | w in v :: w in order
    requires ListsAll(v, order, splits)
    ensures Answers(v, entries)
  {
    forall w, k | SplitsAt(v, w, k) ensures SplitPair(v, w, k) in entries && entries[SplitPair(v, w, k)] == v[w] {
      var i :| 0 <= i < |order| && order[i] == w;
      var e :| 0 <= e < |splits| && splits[e] == (w, k);
      assert SplitPair(v, w, k) == (left[e], right[e]);
    }
    forall key | key in entries ensures exists w, k :: SplitsAt(v, w, k) && key == SplitPair(v, w, k) {
      assert IsPair(left, right, |splits|, key);
      var e :| 0 <= e < |splits| && left[e] == key.0 && right[e] == key.1;
      assert SplitsAt(v, splits[e].0, splits[e].1) && key == SplitPair(v, splits[e].0, splits[e].1);
    }
  }

  lemma {:induction false} EmptyTable(bits: nat, l: seq<int>, r: seq<int>, j: seq<int>)
    requires bits <= 32 && |l| == Pow2(bits) && |r| == |l| && |j| == |l|
    requires forall p :: 0 <= p < |l| ==> l[p] == -1
    ensures TableOk(HomeOf(32 - bits), l, r, j, map[])
  {
    HomeInTable(32 - bits);
    UsedNone(l);
  }

  // The table being filled: three arrays and the entries they hold so far.
  ghost predicate Filling(shift: nat, pairLeft: array<int>, pairRight: array<int>, pairJoined: array<int>,
                          entries: map<Pair, int>)
    reads pairLeft, pairRight, pairJoined
  {
    && pairLeft != pairRight && pairLeft != pairJoined && pairRight != pairJoined
    && shift < 32 && pairLeft.Length == Pow2(32 - shift)
    && TableOk(HomeOf(shift), pairLeft[..], pairRight[..], pairJoined[..], entries)
  }

  // The insertion's probe: the first free slot from the pair's home. It ends: there is a free slot.
  method FreeSlot(shift: nat, left: int, right: int, pairLeft: array<int>, pairRight: array<int>, pairJoined: array<int>,
                  ghost entries: map<Pair, int>) returns (i: nat)
    requires Filling(shift, pairLeft, pairRight, pairJoined, entries) && |entries| < pairLeft.Length
    requires left >= 0 && right >= 0 && (left, right) !in entries
    ensures i < pairLeft.Length && pairLeft[i] == -1
    ensures Passed(pairLeft[..], pairRight[..], HomeOf(shift)(left, right), i, (left, right))
  {
    ghost var l, r, j := pairLeft[..], pairRight[..], pairJoined[..];
    RoomLeft(l);
    ghost var e :| 0 <= e < |l| && l[e] == -1;
    ghost var home := HomeOf(shift)(left, right);
    i := PairSlot(left, right, shift);
    assert i == home;
    while pairLeft[i] != -1
      invariant i < |l|
      invariant Passed(l, r, home, i, (left, right))
      invariant Dist(home, i, |l|) <= Dist(home, e, |l|)
      decreases Dist(home, e, |l|) - Dist(home, i, |l|)
    {
      HitIsEntry(HomeOf(shift), l, r, j, entries, i);
      PassOne(l, r, home, i, e, (left, right));
      i := Step(i, pairLeft.Length);
    }
  }

  // One insertion: the pair's entry goes into the slot its probe stops at.
  method PutPair(shift: nat, left: int, right: int, into: int, pairLeft: array<int>, pairRight: array<int>, pairJoined: array<int>,
                 ghost entries: map<Pair, int>)
    requires Filling(shift, pairLeft, pairRight, pairJoined, entries) && |entries| < pairLeft.Length
    requires left >= 0 && right >= 0 && (left, right) !in entries
    modifies pairLeft, pairRight, pairJoined
    ensures Filling(shift, pairLeft, pairRight, pairJoined, entries[(left, right) := into])
  {
    var i := FreeSlot(shift, left, right, pairLeft, pairRight, pairJoined, entries);
    ghost var l0, r0, j0 := pairLeft[..], pairRight[..], pairJoined[..];
    FillSlot(HomeOf(shift), l0, r0, j0, entries, (left, right), into, i);
    pairLeft[i], pairRight[i], pairJoined[i] := left, right, into;
    assert pairLeft[..] == l0[i := left] && pairRight[..] == r0[i := right] && pairJoined[..] == j0[i := into];
  }

  // The insertion loop of buildPairs. No pair occurs twice, so none is in the table before its turn.
  method FillTable(ghost v: Vocab, ghost splits: seq<(Bytes, int)>, left: seq<int>, right: seq<int>, into: seq<int>,
                   bits: nat, shift: nat) returns (l: seq<int>, r: seq<int>, j: seq<int>)
    requires ValidVocab(v) && Collected(v, splits, left, right, into)
    requires 0 < bits <= 32 && shift == 32 - bits && 8 * |left| <= 5 * Pow2(bits)
    ensures exists entries :: Frozen(shift, l, r, j, entries) && EntriesOf(entries, left, right, into, |left|)
  {
    var pairLeft := new int[Pow2(bits)](_ => -1);
    var pairRight := new int[Pow2(bits)];
    var pairJoined := new int[Pow2(bits)];
    EmptyTable(bits, pairLeft[..], pairRight[..], pairJoined[..]);
    ghost var entries: map<Pair, int> := map[];
    for e := 0 to |left|
      invariant Filling(shift, pairLeft, pairRight, pairJoined, entries)
      invariant EntriesOf(entries, left, right, into, e)
    {
      NoSuchPair(v, splits, left, right, into, e);
      NewEntry(left, right, into, entries, e);
      PutPair(shift, left[e], right[e], into[e], pairLeft, pairRight, pairJoined, entries);
      entries := entries[(left[e], right[e]) := into[e]];
    }
    l, r, j := pairLeft[..], pairRight[..], pairJoined[..];
    assert Frozen(shift, l, r, j, entries);
  }

  // The columns hold the entries, and are at most 5/8 full.
  ghost predicate Frozen(shift: nat, l: seq<int>, r: seq<int>, j: seq<int>, entries: map<Pair, int>) {
    && shift < 32 && |l| == Pow2(32 - shift)
    && TableOk(HomeOf(shift), l, r, j, entries)
    && 8 * |entries| <= 5 * |l|
  }

  ghost predicate AnswersFor(v: Vocab, shift: nat, l: seq<int>, r: seq<int>, j: seq<int>, entries: map<Pair, int>) {
    Frozen(shift, l, r, j, entries) && Answers(v, entries)
  }

  // buildPairs. `order` is the order in which the rank map lists its tokens.
  method BuildPairs(v: Vocab, order: seq<Bytes>)
    returns (shift: nat, l: seq<int>, r: seq<int>, j: seq<int>)
    requires ValidVocab(v) && Lists(v, order)
    requires 8 * |Splits(v)| <= 5 * Pow2(30)
    ensures exists entries :: AnswersFor(v, shift, l, r, j, entries)
  {
    var left, right, into := CollectSplits(v, order);
    ghost var splits :| Collected(v, splits, left, right, into) && ListsAll(v, order, splits);
    CollectedFits(v, splits, left, right, into);
    var bits := TableBits(|left|);
    shift := 32 - bits;
    l, r, j := FillTable(v, splits, left, right, into, bits, shift);
    ghost var entries :| Frozen(shift, l, r, j, entries) && EntriesOf(entries, left, right, into, |left|);
    AllEntries(v, order, splits, left, right, into, entries);
    assert AnswersFor(v, shift, l, r, j, entries);
  }

  // `order` lists every token of the vocabulary once.
  ghost predicate Lists(v: Vocab, order: seq<Bytes>) {
    && (forall i :: 0 <= i < |order| ==> order[i] in v)
    && (forall w | w in v :: w in order)
    && (forall i, j :: 0 <= i < j < |order| ==> order[i] != order[j])
  }

  // The finished table. Nothing writes it after buildPairs, so its columns are constants here.
  class PairTable {
    const pairLeft: seq<int>
    const pairRight: seq<int>
    const pairJoined: seq<int>
    const pairShift: nat
    ghost const entries: map<Pair, int>

    ghost predicate Valid() {
      Frozen(pairShift, pairLeft, pairRight, pairJoined, entries)
    }

    constructor (v: Vocab, order: seq<Bytes>)
      requires ValidVocab(v) && Lists(v, order)
      requires 8 * |Splits(v)| <= 5 * Pow2(30)
      ensures Valid() && Answers(v, entries)
    {
      var shift, l, r, j := BuildPairs(v, order);
      ghost var filled :| AnswersFor(v, shift, l, r, j, filled);
      pairShift, pairLeft, pairRight, pairJoined, entries := shift, l, r, j, filled;
    }

    // Looks two ranks up. The probe always ends: the walk reaches a free slot at the latest.
    method Joined(left: int, right: int) returns (rank: int)
      requires Valid() && left >= 0 && right >= 0
      ensures rank == if (left, right) in entries then entries[(left, right)] else NONE
    {
      ghost var l, r, j, homeOf := pairLeft, pairRight, pairJoined, HomeOf(pairShift);
      RoomLeft(l);
      ghost var e :| 0 <= e < |l| && l[e] == -1;
      ghost var home := homeOf(left, right);
      var i: nat := PairSlot(left, right, pairShift);
      assert i == home;
      while true
        invariant i < |l|
        invariant Passed(l, r, home, i, (left, right))
        invariant Dist(home, i, |l|) <= Dist(home, e, |l|)
        decreases Dist(home, e, |l|) - Dist(home, i, |l|)
      {
        var at := pairLeft[i];
        if at == left && pairRight[i] == right {
          HitIsEntry(homeOf, l, r, j, entries, i);
          return pairJoined[i];
        }
        if at == -1 {
          GapMeansAbsent(homeOf, l, r, j, entries, (left, right), i);
          return NONE;
        }
        PassOne(l, r, home, i, e, (left, right));
        i := Step(i, |pairLeft|);
      }
    }
  }

  // The assumptions can be met: every byte a token, and one token of two.
  lemma {:induction false} SmallVocabulary() returns (v: Vocab)
    ensures ValidVocab(v) && Splits(v) == {([97, 98], 1)}
  {
    var bytes: Vocab := map b: Byte | 0 <= b < 256 :: [b] := b as nat;
    v := bytes[[97, 98] := 256];
    var ab: Bytes := [97, 98];
    assert ab[..1] == [97] && ab[1..] == [98] && SplitsAt(v, ab, 1);
    forall w, k | SplitsAt(v, w, k) ensures w == ab && k == 1 { }
  }
}
