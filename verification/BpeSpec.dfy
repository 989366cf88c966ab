// The rule every token count in src/lib/bpeCount.ts implements, written the naive way:
// merge the adjacent pair of lowest rank, the leftmost on a tie, while some pair joins into a token.
// It works on the bytes of each part; the fast forms work on token ranks only.
module BpeSpec {

  type Byte = b: int | 0 <= b < 256
  type Bytes = seq<Byte>

  // Token rank by the token's bytes.
  type Vocab = map<Bytes, nat>

  // "No such pair" (bpeCount.ts:61).
  const NONE := 0x7fff_ffff

  // Every rank is below this, so that a packed heap key stays an exact double.
  const RANK_LIMIT := 0x20_0000

  ghost predicate ValidVocab(v: Vocab) {
    && [] !in v
    && (forall b: Byte :: [b] in v)
    && (forall w | w in v :: v[w] < RANK_LIMIT)
    && (forall w, x :: SameRank(v, w, x) ==> w == x)
  }

  ghost predicate SameRank(v: Vocab, w: Bytes, x: Bytes) {
    w in v && x in v && v[w] == v[x]
  }

  // The rank of the token two neighbouring parts join into, or NONE.
  function PairRank(v: Vocab, a: Bytes, b: Bytes): int {
    if a + b in v then v[a + b] else NONE
  }

  function RankAt(v: Vocab, parts: seq<Bytes>, i: int): int
    requires 0 <= i < |parts| - 1
  {
    PairRank(v, parts[i], parts[i + 1])
  }

  ghost predicate NoPair(v: Vocab, parts: seq<Bytes>) {
    forall i :: 0 <= i < |parts| - 1 ==> RankAt(v, parts, i) == NONE
  }

  // Pair `i` is the one the rule merges next.
  ghost predicate IsBest(v: Vocab, parts: seq<Bytes>, i: int) {
    && 0 <= i < |parts| - 1
    && RankAt(v, parts, i) != NONE
    && (forall j :: 0 <= j < |parts| - 1 ==> RankAt(v, parts, i) <= RankAt(v, parts, j))
    && (forall j :: 0 <= j < i ==> RankAt(v, parts, i) < RankAt(v, parts, j))
  }

  function MergeAt(parts: seq<Bytes>, i: int): (r: seq<Bytes>)
    requires 0 <= i < |parts| - 1
  {
    parts[..i] + [parts[i] + parts[i + 1]] + parts[i + 2..]
  }

  ghost function Merge(v: Vocab, parts: seq<Bytes>): seq<Bytes>
    requires ValidVocab(v)
    decreases |parts|
  {
    if NoPair(v, parts) then parts
    else
      BestExists(v, parts);
      var i :| IsBest(v, parts, i);
      Merge(v, MergeAt(parts, i))
  }

  function Singles(bytes: Bytes): seq<Bytes> {
    seq(|bytes|, i requires 0 <= i < |bytes| => [bytes[i]])
  }

  function Flatten(parts: seq<Bytes>): Bytes {
    if parts == [] then [] else parts[0] + Flatten(parts[1..])
  }

  ghost predicate AllTokens(v: Vocab, parts: seq<Bytes>) {
    forall i :: 0 <= i < |parts| ==> parts[i] in v
  }

  // ── The rule is well defined ─────────────────────────────────────────────────────────────────

  lemma {:induction false} BestUpTo(v: Vocab, parts: seq<Bytes>, n: nat) returns (i: int)
    requires n <= |parts| - 1
    requires exists j :: 0 <= j < n && RankAt(v, parts, j) != NONE
    requires ValidVocab(v)
    ensures 0 <= i < n && RankAt(v, parts, i) != NONE
    ensures forall j :: 0 <= j < n ==> RankAt(v, parts, i) <= RankAt(v, parts, j)
    ensures forall j :: 0 <= j < i ==> RankAt(v, parts, i) < RankAt(v, parts, j)
  {
    if exists j :: 0 <= j < n - 1 && RankAt(v, parts, j) != NONE {
      i := BestUpTo(v, parts, n - 1);
      if RankAt(v, parts, n - 1) < RankAt(v, parts, i) {
        i := n - 1;
      }
    } else {
      i := n - 1;
      assert forall j :: 0 <= j < n - 1 ==> RankAt(v, parts, j) == NONE;
    }
  }

  lemma {:induction false} BestExists(v: Vocab, parts: seq<Bytes>)
    requires ValidVocab(v) && !NoPair(v, parts)
    ensures exists i :: IsBest(v, parts, i)
  {
    var i := BestUpTo(v, parts, |parts| - 1);
    assert IsBest(v, parts, i);
  }

  // "Lowest rank, leftmost on a tie" picks one pair only, so the rule leaves no choice.
  lemma {:induction false} BestUnique(v: Vocab, parts: seq<Bytes>, i: int, j: int)
    requires IsBest(v, parts, i) && IsBest(v, parts, j)
    ensures i == j
  {
    assert RankAt(v, parts, i) == RankAt(v, parts, j);
  }

  // One step of a fast form: merging the best pair does not change the outcome.
  lemma {:induction false} MergeStep(v: Vocab, parts: seq<Bytes>, i: int)
    requires ValidVocab(v) && IsBest(v, parts, i)
    ensures Merge(v, parts) == Merge(v, MergeAt(parts, i))
  {
    assert RankAt(v, parts, i) != NONE;
    forall j | IsBest(v, parts, j) ensures j == i { BestUnique(v, parts, i, j); }
  }

  // ── What the rule keeps ──────────────────────────────────────────────────────────────────────

  lemma {:induction false} FlattenAppend(a: seq<Bytes>, b: seq<Bytes>)
    ensures Flatten(a + b) == Flatten(a) + Flatten(b)
  {
    if a == [] {
      assert a + b == b;
    } else {
      assert (a + b)[1..] == a[1..] + b;
      FlattenAppend(a[1..], b);
    }
  }

  lemma {:induction false} FlattenOne(a: Bytes)
    ensures Flatten([a]) == a
  {
    assert Flatten([a]) == [a][0] + Flatten([a][1..]);
  }

  lemma {:induction false} FlattenMiddle(a: seq<Bytes>, m: seq<Bytes>, b: seq<Bytes>)
    ensures Flatten(a + m + b) == Flatten(a) + Flatten(m) + Flatten(b)
  {
    FlattenAppend(a + m, b);
    FlattenAppend(a, m);
  }

  lemma {:induction false} FlattenTwo(a: Bytes, b: Bytes)
    ensures Flatten([a, b]) == a + b
  {
    assert [a, b] == [a] + [b];
    FlattenAppend([a], [b]);
    FlattenOne(a);
    FlattenOne(b);
  }

  lemma {:induction false} AroundPair(parts: seq<Bytes>, i: int)
    requires 0 <= i < |parts| - 1
    ensures parts == parts[..i] + [parts[i], parts[i + 1]] + parts[i + 2..]
  {
  }

  lemma {:induction false} FlattenMergeAt(parts: seq<Bytes>, i: int)
    requires 0 <= i < |parts| - 1
    ensures Flatten(MergeAt(parts, i)) == Flatten(parts)
  {
    var x, y := parts[i], parts[i + 1];
    AroundPair(parts, i);
    FlattenMiddle(parts[..i], [x, y], parts[i + 2..]);
    FlattenMiddle(parts[..i], [x + y], parts[i + 2..]);
    FlattenTwo(x, y);
    FlattenOne(x + y);
  }

  lemma {:induction false} TokensMergeAt(v: Vocab, parts: seq<Bytes>, i: int)
    requires AllTokens(v, parts) && 0 <= i < |parts| - 1 && RankAt(v, parts, i) != NONE
    ensures AllTokens(v, MergeAt(parts, i))
  {
  }

  // The surviving tokens spell the piece, all are tokens, and no two neighbours still merge.
  lemma {:induction false} MergeSound(v: Vocab, parts: seq<Bytes>)
    requires ValidVocab(v) && AllTokens(v, parts)
    ensures Flatten(Merge(v, parts)) == Flatten(parts)
    ensures AllTokens(v, Merge(v, parts))
    ensures NoPair(v, Merge(v, parts))
    decreases |parts|
  {
    if !NoPair(v, parts) {
      BestExists(v, parts);
      var i :| IsBest(v, parts, i);
      MergeStep(v, parts, i);
      FlattenMergeAt(parts, i);
      TokensMergeAt(v, parts, i);
      MergeSound(v, MergeAt(parts, i));
    }
  }

  lemma {:induction false} FlattenSingles(bytes: Bytes)
    ensures Flatten(Singles(bytes)) == bytes
  {
    if bytes != [] {
      assert Singles(bytes)[1..] == Singles(bytes[1..]);
      FlattenSingles(bytes[1..]);
      assert bytes == [bytes[0]] + bytes[1..];
    }
  }
}
