// Very long pieces, and the count of a whole text (src/lib/bpeCount.ts:216-253).
module TokenCount {
  import opened BpeSpec
  import opened LinkedParts
  import opened BpeCounter
  import opened HeapMerge
  import opened Utf8

  const SLICE_BYTES := 64 * 1024
  const CUT_MARGIN := 8

  // ── What a sliced count means ────────────────────────────────────────────────────────────────

  // The last place at or before `limit` where a character begins.
  ghost function LastStart(s: Bytes, limit: nat): (to: nat)
    requires limit < |s|
    ensures to <= limit
    ensures to > 0 ==> !Tail(s[to])
    ensures forall i :: to < i <= limit ==> Tail(s[i])
  {
    if limit == 0 || !Tail(s[limit]) then limit else LastStart(s, limit - 1)
  }

  ghost function Slices(s: Bytes): seq<Bytes>
    decreases |s|
  {
    if |s| <= SLICE_BYTES || LastStart(s, SLICE_BYTES) == 0 then [s]
    else [s[..LastStart(s, SLICE_BYTES)]] + Slices(s[LastStart(s, SLICE_BYTES)..])
  }

  // Whole characters only, never empty, and all but the last as long as the limit lets them be.
  ghost predicate SlicedWell(slices: seq<Bytes>) {
    forall i :: 0 <= i < |slices| ==> SliceFits(slices[i], i == |slices| - 1)
  }

  ghost predicate SliceFits(slice: Bytes, last: bool) {
    WellFormed(slice) && 0 < |slice| <= SLICE_BYTES && (last || SLICE_BYTES - 3 <= |slice|)
  }

  lemma {:induction false} SlicedWellCons(first: Bytes, rest: seq<Bytes>)
    requires WellFormed(first) && SLICE_BYTES - 3 <= |first| <= SLICE_BYTES && SlicedWell(rest)
    ensures SlicedWell([first] + rest)
  {
    var all := [first] + rest;
    forall i | 0 <= i < |all| ensures SliceFits(all[i], i == |all| - 1) {
      if i > 0 { assert all[i] == rest[i - 1] && SliceFits(rest[i - 1], i - 1 == |rest| - 1); }
    }
  }

  lemma {:induction false} FirstCut(s: Bytes) returns (cut: nat)
    requires WellFormed(s) && |s| > SLICE_BYTES
    ensures SLICE_BYTES - 3 <= cut <= SLICE_BYTES && WellFormed(s[..cut]) && WellFormed(s[cut..])
    ensures Slices(s) == [s[..cut]] + Slices(s[cut..])
  {
    cut := LastStart(s, SLICE_BYTES);
    var j := StartNearby(s, SLICE_BYTES);
    assert cut >= j;
    CutBetween(s, cut);
  }

  // The slices of well-formed text partition it, between characters, into few large pieces; text
  // within the limit is one slice.
  lemma {:induction false} SlicesSound(s: Bytes)
    requires WellFormed(s) && s != []
    ensures Flatten(Slices(s)) == s
    ensures SlicedWell(Slices(s))
    ensures |s| <= SLICE_BYTES ==> Slices(s) == [s]
  {
    SlicesPartition(s);
    SlicesWell(s);
  }

  lemma {:induction false} SlicesPartition(s: Bytes)
    requires WellFormed(s)
    ensures Flatten(Slices(s)) == s
    decreases |s|
  {
    if |s| <= SLICE_BYTES {
      FlattenOne(s);
    } else {
      var cut := FirstCut(s);
      var first, rest := s[..cut], s[cut..];
      var more := Slices(rest);
      SlicesPartition(rest);
      FlattenCons(first, more);
      assert first + rest == s;
    }
  }

  lemma {:induction false} FlattenCons(first: Bytes, more: seq<Bytes>)
    ensures Flatten([first] + more) == first + Flatten(more)
  {
    FlattenOne(first);
    FlattenAppend([first], more);
  }

  lemma {:induction false} SlicesWell(s: Bytes)
    requires WellFormed(s) && s != []
    ensures SlicedWell(Slices(s))
    decreases |s|
  {
    if |s| <= SLICE_BYTES {
      assert Slices(s) == [s];
    } else {
      var cut := FirstCut(s);
      var first, rest := s[..cut], s[cut..];
      SlicesWell(rest);
      SlicedWellCons(first, Slices(rest));
    }
  }

  ghost function SumOfMerges(v: Vocab, pieces: seq<Bytes>): nat
    requires ValidVocab(v)
  {
    if pieces == [] then 0 else |Merge(v, Singles(pieces[0]))| + SumOfMerges(v, pieces[1..])
  }

  // The slices' exact counts, and the margin once for each cut.
  ghost function SlicedCount(v: Vocab, s: Bytes): int
    requires ValidVocab(v)
  {
    SumOfMerges(v, Slices(s)) + CUT_MARGIN * (|Slices(s)| - 1)
  }

  // ── What a text's count means ────────────────────────────────────────────────────────────────

  ghost function PieceCount(v: Vocab, piece: Bytes): int
    requires ValidVocab(v)
  {
    if piece in v then 1
    else if |piece| <= SLICE_BYTES then |Merge(v, Singles(piece))|
    else SlicedCount(v, piece)
  }

  ghost function TextCount(v: Vocab, pieces: seq<Bytes>): int
    requires ValidVocab(v)
  {
    if pieces == [] then 0 else TextCount(v, pieces[..|pieces| - 1]) + PieceCount(v, pieces[|pieces| - 1])
  }

  lemma {:induction false} TextCountNext(v: Vocab, pieces: seq<Bytes>, i: nat)
    requires ValidVocab(v) && i < |pieces|
    ensures TextCount(v, pieces[..i + 1]) == TextCount(v, pieces[..i]) + PieceCount(v, pieces[i])
  {
    assert pieces[..i + 1][..i] == pieces[..i];
  }

  // What is counted is a tokenization: the parts are tokens, they spell the piece, none of them
  // is empty, and no neighbours still merge.
  lemma {:induction false} CountedParts(v: Vocab, piece: Bytes)
    requires ValidVocab(v)
    ensures Flatten(Merge(v, Singles(piece))) == piece
    ensures AllTokens(v, Merge(v, Singles(piece))) && NoPair(v, Merge(v, Singles(piece)))
    ensures piece != [] ==> 1 <= |Merge(v, Singles(piece))|
  {
    FlattenSingles(piece);
    MergeSound(v, Singles(piece));
  }

  // ── What is counted, said of the text itself ─────────────────────────────────────────────────

  function Concat(groups: seq<seq<Bytes>>): seq<Bytes> {
    if groups == [] then [] else groups[0] + Concat(groups[1..])
  }

  // Tokens that the naive rule makes of the bytes they spell, and that merge no further.
  ghost predicate Settled(v: Vocab, t: seq<Bytes>)
    requires ValidVocab(v)
  {
    AllTokens(v, t) && NoPair(v, t) && t == Merge(v, Singles(Flatten(t)))
  }

  // The tokens of a piece, slice by slice: the piece itself where it is a token; else settled ones that
  // spell it, in one slice unless it is longer than the limit.
  ghost predicate Tokenizes(v: Vocab, piece: Bytes, groups: seq<seq<Bytes>>)
    requires ValidVocab(v)
  {
    && groups != []
    && Flatten(Concat(groups)) == piece
    && (piece in v ==> groups == [[piece]])
    && (piece !in v ==> forall i :: 0 <= i < |groups| ==> Settled(v, groups[i]))
    && (|piece| <= SLICE_BYTES ==> |groups| == 1)
    && (|piece| > SLICE_BYTES && piece !in v ==>
          forall i :: 0 <= i < |groups| ==> SliceFits(Flatten(groups[i]), i == |groups| - 1))
  }

  // A token each, and the margin for each cut between slices.
  function Tally(groups: seq<seq<Bytes>>): int { |Concat(groups)| + CUT_MARGIN * (|groups| - 1) }

  lemma {:induction false} MergesOf(v: Vocab, slices: seq<Bytes>) returns (groups: seq<seq<Bytes>>)
    requires ValidVocab(v)
    ensures |groups| == |slices| && |Concat(groups)| == SumOfMerges(v, slices)
    ensures forall i :: 0 <= i < |slices| ==> Flatten(groups[i]) == slices[i] && Settled(v, groups[i])
    ensures Flatten(Concat(groups)) == Flatten(slices)
  {
    groups := [];
    if slices != [] {
      var first := Merge(v, Singles(slices[0]));
      var rest := MergesOf(v, slices[1..]);
      groups := [first] + rest;
      CountedParts(v, slices[0]);
      assert groups[1..] == rest;
      FlattenAppend(first, Concat(rest));
      forall i | 0 <= i < |slices| ensures Flatten(groups[i]) == slices[i] && Settled(v, groups[i]) {
        if i > 0 { assert groups[i] == rest[i - 1] && slices[1..][i - 1] == slices[i]; }
      }
    }
  }

  lemma {:induction false} PieceTokens(v: Vocab, piece: Bytes) returns (groups: seq<seq<Bytes>>)
    requires ValidVocab(v) && WellFormed(piece)
    ensures Tokenizes(v, piece, groups) && Tally(groups) == PieceCount(v, piece)
  {
    if piece in v {
      groups := [[piece]];
      ConcatOne([piece]);
      FlattenOne(piece);
    } else if |piece| <= SLICE_BYTES {
      groups := [Merge(v, Singles(piece))];
      ConcatOne(groups[0]);
      CountedParts(v, piece);
    } else {
      groups := MergesOf(v, Slices(piece));
      SlicesSound(piece);
      SlicesSome(piece);
    }
  }

  lemma {:induction false} SlicesSome(s: Bytes)
    ensures Slices(s) != []
  {
  }

  lemma {:induction false} ConcatOne(t: seq<Bytes>)
    ensures Concat([t]) == t
  {
    assert [t][1..] == [] && t + [] == t;
  }

  // The count of a text: of some tokens that spell it, and the margin for each cut; and no piece within
  // the limit is cut.
  ghost predicate Spells(v: Vocab, pieces: seq<Bytes>, t: seq<Bytes>, cuts: nat) {
    && AllTokens(v, t) && Flatten(t) == Flatten(pieces)
    && ((forall i :: 0 <= i < |pieces| ==> |pieces[i]| <= SLICE_BYTES) ==> cuts == 0)
  }

  ghost predicate AllTokenized(v: Vocab, pieces: seq<Bytes>, all: seq<seq<seq<Bytes>>>)
    requires ValidVocab(v)
  {
    |all| == |pieces| && forall i :: 0 <= i < |pieces| ==> Tokenizes(v, pieces[i], all[i])
  }

  function TallyAll(all: seq<seq<seq<Bytes>>>): int {
    if all == [] then 0 else TallyAll(all[..|all| - 1]) + Tally(all[|all| - 1])
  }

  lemma {:induction false} MoreTokenized(v: Vocab, pieces: seq<Bytes>, all: seq<seq<seq<Bytes>>>, piece: Bytes, groups: seq<seq<Bytes>>)
    requires ValidVocab(v) && AllTokenized(v, pieces, all) && Tokenizes(v, piece, groups)
    ensures AllTokenized(v, pieces + [piece], all + [groups])
    ensures TallyAll(all + [groups]) == TallyAll(all) + Tally(groups)
  {
    assert (all + [groups])[..|all|] == all;
  }

  lemma {:induction false} TextTokens(v: Vocab, pieces: seq<Bytes>) returns (all: seq<seq<seq<Bytes>>>)
    requires ValidVocab(v) && forall i :: 0 <= i < |pieces| ==> WellFormed(pieces[i])
    ensures AllTokenized(v, pieces, all) && TallyAll(all) == TextCount(v, pieces)
  {
    all := [];
    if pieces != [] {
      var n := |pieces| - 1;
      var before := TextTokens(v, pieces[..n]);
      var last := PieceTokens(v, pieces[n]);
      all := before + [last];
      MoreTokenized(v, pieces[..n], before, pieces[n], last);
      LastApart(pieces);
    }
  }

  // Together those tokens spell the text.
  lemma {:induction false} TokensSpell(v: Vocab, pieces: seq<Bytes>, all: seq<seq<seq<Bytes>>>) returns (t: seq<Bytes>, cuts: nat)
    requires ValidVocab(v) && AllTokenized(v, pieces, all)
    ensures Spells(v, pieces, t, cuts) && TallyAll(all) == |t| + CUT_MARGIN * cuts
  {
    t, cuts := [], 0;
    if pieces != [] {
      var n := |pieces| - 1;
      FewerTokenized(v, pieces, all);
      var t0, cuts0 := TokensSpell(v, pieces[..n], all[..n]);
      SpellsNext(v, pieces[..n], pieces[n], t0, cuts0, all[n]);
      Margins(cuts0, |all[n]| - 1);
      LastApart(pieces);
      t, cuts := t0 + Concat(all[n]), cuts0 + |all[n]| - 1;
    }
  }

  lemma {:induction false} FewerTokenized(v: Vocab, pieces: seq<Bytes>, all: seq<seq<seq<Bytes>>>)
    requires ValidVocab(v) && AllTokenized(v, pieces, all) && pieces != []
    ensures AllTokenized(v, pieces[..|pieces| - 1], all[..|pieces| - 1])
    ensures Tokenizes(v, pieces[|pieces| - 1], all[|pieces| - 1])
  {
    var n := |pieces| - 1;
    forall i | 0 <= i < n ensures Tokenizes(v, pieces[..n][i], all[..n][i]) { assert Tokenizes(v, pieces[i], all[i]); }
  }

  lemma {:induction false} LastApart<T>(s: seq<T>)
    requires s != []
    ensures s[..|s| - 1] + [s[|s| - 1]] == s
  {
  }

  lemma {:induction false} Margins(a: int, b: int)
    ensures CUT_MARGIN * (a + b) == CUT_MARGIN * a + CUT_MARGIN * b
  {
  }

  lemma {:induction false} SpellsNext(v: Vocab, before: seq<Bytes>, piece: Bytes, t: seq<Bytes>, cuts: nat, groups: seq<seq<Bytes>>)
    requires ValidVocab(v) && Spells(v, before, t, cuts) && Tokenizes(v, piece, groups)
    ensures Spells(v, before + [piece], t + Concat(groups), cuts + |groups| - 1)
  {
    var pieces := before + [piece];
    FlattenAppend(t, Concat(groups));
    FlattenAppend(before, [piece]);
    FlattenOne(piece);
    ConcatTokens(v, piece, groups);
    assert pieces[|before|] == piece && forall i :: 0 <= i < |before| ==> pieces[i] == before[i];
  }

  lemma {:induction false} ConcatTokens(v: Vocab, piece: Bytes, groups: seq<seq<Bytes>>)
    requires ValidVocab(v) && Tokenizes(v, piece, groups)
    ensures AllTokens(v, Concat(groups))
  {
    if piece in v { ConcatOne([piece]); } else { TokensTogether(v, groups); }
  }

  lemma {:induction false} TokensTogether(v: Vocab, groups: seq<seq<Bytes>>)
    requires forall i :: 0 <= i < |groups| ==> AllTokens(v, groups[i])
    ensures AllTokens(v, Concat(groups))
  {
    if groups != [] { TokensTogether(v, groups[1..]); }
  }

  // A count that is right for a piece.
  ghost predicate PieceCounted(v: Vocab, piece: Bytes, count: int)
    requires ValidVocab(v)
  {
    exists groups :: Tokenizes(v, piece, groups) && count == |Concat(groups)| + 8 * (|groups| - 1)
  }

  lemma {:induction false} CountedPiece(v: Vocab, piece: Bytes)
    requires ValidVocab(v) && WellFormed(piece)
    ensures PieceCounted(v, piece, PieceCount(v, piece))
  {
    var groups := PieceTokens(v, piece);
  }

  // A count that is right for a text: token by token for each piece, and so for the text.
  ghost predicate Counted(v: Vocab, pieces: seq<Bytes>, count: int)
    requires ValidVocab(v)
  {
    && (exists all :: AllTokenized(v, pieces, all) && count == TallyAll(all))
    && (exists t, cuts: nat :: Spells(v, pieces, t, cuts) && count == |t| + CUT_MARGIN * cuts)
  }

  lemma {:induction false} CountedText(v: Vocab, pieces: seq<Bytes>)
    requires ValidVocab(v) && forall i :: 0 <= i < |pieces| ==> WellFormed(pieces[i])
    ensures Counted(v, pieces, TextCount(v, pieces))
  {
    var all := TextTokens(v, pieces);
    var t, cuts := TokensSpell(v, pieces, all);
  }

  class TokenCounter {
    const d: Cl100k
    const merger: Merger
    const parts: array<int>
    const pairRanks: array<int>

    ghost predicate Ready()
      reads merger, merger.heap
    {
      && d.Loaded() && merger.Shaped()
      && parts.Length == SCAN_BYTES && pairRanks.Length == SCAN_BYTES && parts != pairRanks
    }

    constructor (d: Cl100k)
      requires d.Loaded()
      ensures Ready() && this.d == d
    {
      this.d := d;
      merger := new Merger();
      parts := new int[SCAN_BYTES];
      pairRanks := new int[SCAN_BYTES];
    }

    // The count of a long piece: whole while it fits one slice, slice by slice above that.
    method LongPiece(bytes: Bytes) returns (total: int)
      requires Ready() && WellFormed(bytes) && |bytes| < POS
      modifies merger, merger.next, merger.prev, merger.token, merger.rankAt, merger.heap, merger.heap.heap
      ensures Ready() && merger.Grown()
      ensures total == SlicedCount(d.ranks, bytes)
    {
      assert bytes[0..] == bytes;
      if |bytes| <= SLICE_BYTES {
        LastSlice(d.ranks, bytes, 0);
        total := merger.HeapMerge(d, bytes, 0, |bytes|);
      } else {
        total := SliceBySlice(bytes);
      }
    }

    method SliceBySlice(bytes: Bytes) returns (total: int)
      requires Ready() && |bytes| < POS && WellFormed(bytes[0..])
      modifies merger, merger.next, merger.prev, merger.token, merger.rankAt, merger.heap, merger.heap.heap
      ensures Ready() && merger.Grown()
      ensures total == SlicedCount(d.ranks, bytes[0..])
    {
      var from := 0;
      total := 0;
      while |bytes| - from > SLICE_BYTES
        invariant Ready() && merger.Grown()
        invariant 0 <= from <= |bytes| && WellFormed(bytes[from..])
        invariant total + SlicedCount(d.ranks, bytes[from..]) == SlicedCount(d.ranks, bytes[0..])
        decreases |bytes| - from
      {
        var count, to := CountSlice(bytes, from);
        total := total + count + CUT_MARGIN;
        from := to;
      }
      LastSlice(d.ranks, bytes, from);
      var last := merger.HeapMerge(d, bytes, from, |bytes|);
      total := total + last;
    }

    // The next slice's exact count, and where it ends.
    method CountSlice(bytes: Bytes, from: nat) returns (count: nat, to: nat)
      requires Ready() && |bytes| < POS && from <= |bytes| && |bytes| - from > SLICE_BYTES && WellFormed(bytes[from..])
      modifies merger, merger.next, merger.prev, merger.token, merger.rankAt, merger.heap, merger.heap.heap
      ensures Ready() && merger.Grown()
      ensures from < to <= |bytes| && WellFormed(bytes[to..])
      ensures SlicedCount(d.ranks, bytes[from..]) == count + CUT_MARGIN + SlicedCount(d.ranks, bytes[to..])
    {
      to := CutAt(bytes, from, d.ranks);
      count := merger.HeapMerge(d, bytes, from, to);
    }

    method Count(pieces: seq<Bytes>) returns (count: int)
      requires Ready()
      requires forall i :: 0 <= i < |pieces| ==> WellFormed(pieces[i]) && |pieces[i]| < POS
      modifies parts, pairRanks
      modifies merger, merger.next, merger.prev, merger.token, merger.rankAt, merger.heap, merger.heap.heap
      ensures Ready() && merger.Grown()
      ensures count == TextCount(d.ranks, pieces)
      ensures Counted(d.ranks, pieces, count)
    {
      count := CountPieces(pieces);
      CountedText(d.ranks, pieces);
    }

    method CountPieces(pieces: seq<Bytes>) returns (count: int)
      requires Ready()
      requires forall i :: 0 <= i < |pieces| ==> WellFormed(pieces[i]) && |pieces[i]| < POS
      modifies parts, pairRanks
      modifies merger, merger.next, merger.prev, merger.token, merger.rankAt, merger.heap, merger.heap.heap
      ensures Ready() && merger.Grown()
      ensures count == TextCount(d.ranks, pieces)
    {
      count := 0;
      for i := 0 to |pieces|
        invariant Ready() && merger.Grown()
        invariant count == TextCount(d.ranks, pieces[..i])
      {
        TextCountNext(d.ranks, pieces, i);
        var one := CountPiece(pieces[i]);
        count := count + one;
      }
      assert pieces[..|pieces|] == pieces;
    }

    method CountPiece(bytes: Bytes) returns (count: int)
      requires Ready() && WellFormed(bytes) && |bytes| < POS
      modifies parts, pairRanks
      modifies merger, merger.next, merger.prev, merger.token, merger.rankAt, merger.heap, merger.heap.heap
      ensures Ready() && merger.Grown()
      ensures count == PieceCount(d.ranks, bytes) && PieceCounted(d.ranks, bytes, count)
    {
      CountedPiece(d.ranks, bytes);
      WholeToken(d, bytes);
      if |bytes| == 1 || (|bytes| <= d.longest && bytes in d.ranks) {
        count := 1;
      } else if |bytes| <= SCAN_BYTES {
        count := ScanMerge(d, bytes, parts, pairRanks);
      } else {
        count := LongPiece(bytes);
        if |bytes| <= SLICE_BYTES { ShortIsExact(d.ranks, bytes); }
      }
    }
  }

  // What is left within one slice is counted whole.
  lemma {:induction false} LastSlice(v: Vocab, bytes: Bytes, from: nat)
    requires ValidVocab(v) && from <= |bytes| && |bytes| - from <= SLICE_BYTES
    ensures SlicedCount(v, bytes[from..]) == |Merge(v, Singles(bytes[from..|bytes|]))|
  {
    assert bytes[from..|bytes|] == bytes[from..];
    ShortIsExact(v, bytes[from..]);
  }

  // The two shortcuts together are exactly "the piece is a token".
  lemma {:induction false} WholeToken(d: Cl100k, bytes: Bytes)
    requires d.Loaded()
    ensures |bytes| == 1 || (|bytes| <= d.longest && bytes in d.ranks) <==> bytes in d.ranks
  {
    if |bytes| == 1 { assert bytes == [bytes[0]]; }
  }

  // Where the next slice ends: stepping back from the limit to the start of a character.
  method CutAt(bytes: Bytes, from: nat, ghost v: Vocab) returns (cut: nat)
    requires ValidVocab(v) && from <= |bytes| && |bytes| - from > SLICE_BYTES && WellFormed(bytes[from..])
    ensures from < cut <= from + SLICE_BYTES && cut <= |bytes| && WellFormed(bytes[cut..])
    ensures SlicedCount(v, bytes[from..])
         == |Merge(v, Singles(bytes[from..cut]))| + CUT_MARGIN + SlicedCount(v, bytes[cut..])
  {
    cut := StepBack(bytes, from, bytes[from..]);
    CutKeeps(v, bytes, from, cut, bytes[from..]);
  }

  method StepBack(bytes: Bytes, from: nat, ghost rest: Bytes) returns (cut: nat)
    requires from <= |bytes| && |bytes| - from > SLICE_BYTES && rest == bytes[from..] && WellFormed(rest)
    ensures from < cut <= from + SLICE_BYTES && TailsAfter(rest, cut - from) && !Tail(rest[cut - from])
  {
    ghost var j := StartNearby(rest, SLICE_BYTES);
    cut := from + SLICE_BYTES;
    while Tail(bytes[cut])
      invariant from + j <= cut <= from + SLICE_BYTES
      invariant TailsAfter(rest, cut - from)
      decreases cut
    {
      assert rest[cut - from] == bytes[cut];
      cut := cut - 1;
    }
    assert rest[cut - from] == bytes[cut];
  }

  lemma {:induction false} CutKeeps(v: Vocab, bytes: Bytes, from: nat, cut: nat, rest: Bytes)
    requires ValidVocab(v) && from < cut <= |bytes| && rest == bytes[from..] && WellFormed(rest)
    requires TailsAfter(rest, cut - from) && !Tail(rest[cut - from])
    ensures WellFormed(bytes[cut..])
    ensures SlicedCount(v, rest) == |Merge(v, Singles(bytes[from..cut]))| + CUT_MARGIN + SlicedCount(v, bytes[cut..])
  {
    SliceOfRest(bytes, from, cut);
    CutOffFirst(v, rest, cut - from, bytes[from..cut], bytes[cut..]);
  }

  // Nothing but tail bytes after k, up to the limit.
  predicate TailsAfter(s: Bytes, k: nat) {
    k <= SLICE_BYTES < |s| && forall i :: k < i <= SLICE_BYTES ==> Tail(s[i])
  }

  // A cut takes the slice's exact count and one margin off what is left to count.
  lemma {:induction false} CutOffFirst(v: Vocab, s: Bytes, k: nat, first: Bytes, rest: Bytes)
    requires ValidVocab(v) && WellFormed(s) && 0 < k && TailsAfter(s, k) && !Tail(s[k])
    requires first == s[..k] && rest == s[k..]
    ensures WellFormed(rest)
    ensures SlicedCount(v, s) == |Merge(v, Singles(first))| + CUT_MARGIN + SlicedCount(v, rest)
  {
    CutBetween(s, k);
    CutIs(v, s, k);
  }

  lemma {:induction false} SliceOfRest(bytes: Bytes, from: nat, cut: nat)
    requires from <= cut <= |bytes|
    ensures bytes[from..][..cut - from] == bytes[from..cut]
    ensures bytes[from..][cut - from..] == bytes[cut..]
    ensures cut < |bytes| ==> bytes[from..][cut - from] == bytes[cut]
  {
  }

  lemma {:induction false} ShortIsExact(v: Vocab, s: Bytes)
    requires ValidVocab(v) && |s| <= SLICE_BYTES
    ensures SlicedCount(v, s) == |Merge(v, Singles(s))|
  {
    assert Slices(s) == [s];
    assert SumOfMerges(v, [s]) == |Merge(v, Singles(s))| + SumOfMerges(v, [s][1..]);
  }

  // One cut takes its slice's count and one margin off what is left to count.
  lemma {:induction false} CutIs(v: Vocab, s: Bytes, to: nat)
    requires ValidVocab(v) && 0 < to && TailsAfter(s, to) && !Tail(s[to])
    ensures to == LastStart(s, SLICE_BYTES)
    ensures SlicedCount(v, s) == |Merge(v, Singles(s[..to]))| + CUT_MARGIN + SlicedCount(v, s[to..])
  {
    var at := LastStart(s, SLICE_BYTES);
    assert at == to;
    assert Slices(s)[1..] == Slices(s[to..]);
  }
}
