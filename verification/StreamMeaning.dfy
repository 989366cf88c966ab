// What a well-formed run means, event by event, and that the cuts between network reads never
// matter.
module StreamMeaning {
  import opened AnthropicStream
  import opened StreamRuns

  // ── The protocol, read off the events ────────────────────────────────────────────────────────

  ghost function Count(es: seq<Event>, p: Event -> bool): nat {
    if es == [] then 0 else Count(es[..|es| - 1], p) + if p(es[|es| - 1]) then 1 else 0
  }

  ghost function Starts(i: nat): Event -> bool { (e: Event) => e.BlockStart? && e.index == i }
  ghost function StopsAt(i: nat): Event -> bool { (e: Event) => e.BlockStop? && e.index == i }

  // What the protocol state says about the events that led to it, for any block i.
  ghost predicate Explains(es: seq<Event>, w: Watch, i: nat) {
    && (w.phase == Waiting <==> es == []) && (es != [] ==> es[0].MessageStart?)
    && Count(es, (e: Event) => e.MessageStart?) == (if w.phase == Waiting then 0 else 1)
    && Count(es, (e: Event) => e.MessageDelta?) == (if w.phase == Closing || w.phase == Done then 1 else 0)
    && Count(es, (e: Event) => e.MessageStop?) == (if w.phase == Done then 1 else 0)
    && Count(es, Starts(i)) == (if i < w.next then 1 else 0)
    && Count(es, StopsAt(i)) == (if i < w.next && i !in w.open then 1 else 0)
    && (w.phase == Closing ==> es[|es| - 1].MessageDelta?)
    && (w.phase == Done ==> |es| >= 2 && es[|es| - 1].MessageStop? && es[|es| - 2].MessageDelta?)
    && (i in w.open ==> i < w.next)
    && (forall j, k | j in w.open && k in w.open && w.open[j] && w.open[k] :: j == k)
    && (w.phase != Streaming ==> w.open == map[])
  }

  lemma {:induction false} SeeLast(v: Client, es: seq<Event>)
    requires es != []
    ensures SeeAll(v, es) == See(SeeAll(v, es[..|es| - 1]), es[|es| - 1])
  {
    var n := |es| - 1;
    assert es == es[..n] + [es[n]];
    SeeAppend(v, es[..n], [es[n]]);
    SeeOne(SeeAll(v, es[..n]), es[n]);
  }

  lemma {:induction false} AcceptedExplained(es: seq<Event>, i: nat)
    requires SeeAll(NewClient, es).watch.Some?
    ensures Explains(es, SeeAll(NewClient, es).watch.value, i)
    decreases |es|
  {
    if es != [] {
      var n := |es| - 1;
      SeeLast(NewClient, es);
      AcceptedExplained(es[..n], i);
      ExplainedStep(es[..n], SeeAll(NewClient, es[..n]).watch.value, es[n], i);
      assert es == es[..n] + [es[n]];
    }
  }

  lemma {:induction false} ExplainedStep(es: seq<Event>, w: Watch, e: Event, i: nat)
    requires Explains(es, w, i) && Accept(w, e).Some?
    ensures Explains(es + [e], Accept(w, e).value, i)
  {
    var all := es + [e];
    assert all[..|es|] == es;
  }

  // The events of every run: one message_start, first; blocks 0..k-1, each started once and stopped
  // once, and no others; one message_delta and then one message_stop, last.
  lemma {:induction false} RunEvents(env: Env, model: string, chunks: seq<Chunk>) returns (k: nat)
    ensures var es := Run(env, model, chunks);
            && |es| >= 3 && es[0].MessageStart? && es[|es| - 2].MessageDelta? && es[|es| - 1].MessageStop?
            && Count(es, (e: Event) => e.MessageStart?) == 1
            && Count(es, (e: Event) => e.MessageDelta?) == 1 && Count(es, (e: Event) => e.MessageStop?) == 1
            && forall i: nat :: Count(es, Starts(i)) == Count(es, StopsAt(i)) == if i < k then 1 else 0
  {
    var es := Run(env, model, chunks);
    RunsAreWellFormed(env, model, chunks);
    var w := SeeAll(NewClient, es).watch.value;
    k := w.next;
    forall i: nat ensures Count(es, Starts(i)) == Count(es, StopsAt(i)) == if i < k then 1 else 0 {
      AcceptedExplained(es, i);
    }
    AcceptedExplained(es, 0);
  }

  lemma {:induction false} PrefixAccepted(v: Client, es: seq<Event>, n: nat)
    requires n <= |es| && SeeAll(v, es).watch.Some?
    ensures SeeAll(v, es[..n]).watch.Some?
    decreases |es| - n
  {
    if n == |es| {
      assert es[..n] == es;
    } else {
      PrefixAccepted(v, es, n + 1);
      SeeLast(v, es[..n + 1]);
      assert es[..n + 1][..n] == es[..n];
    }
  }

  // When an event feeds, stops or starts block i, the block has been started once before and not
  // stopped, or, for its start, is the next number and no text block is open.
  lemma {:induction false} FedWhileOpen(env: Env, model: string, chunks: seq<Chunk>, p: nat)
    requires p < |Run(env, model, chunks)|
    ensures var es := Run(env, model, chunks);
            (es[p].TextDelta? || es[p].ArgsDelta? || es[p].BlockStop? ==>
               Count(es[..p], Starts(es[p].index)) == 1 && Count(es[..p], StopsAt(es[p].index)) == 0)
    ensures var es := Run(env, model, chunks);
            (es[p].BlockStart? ==>
               && (forall i: nat :: Count(es[..p], Starts(i)) == if i < es[p].index then 1 else 0)
               && (forall q :: 0 <= q < p && es[q].BlockStart? && es[q].kind.TextKind? ==>
                     Count(es[..p], StopsAt(es[q].index)) == 1))
  {
    RunsAreWellFormed(env, model, chunks);
    AcceptedWhileOpen(Run(env, model, chunks), p);
  }

  lemma {:induction false} AcceptedWhileOpen(es: seq<Event>, p: nat)
    requires SeeAll(NewClient, es).watch.Some? && p < |es|
    ensures es[p].TextDelta? || es[p].ArgsDelta? || es[p].BlockStop? ==>
              Count(es[..p], Starts(es[p].index)) == 1 && Count(es[..p], StopsAt(es[p].index)) == 0
    ensures es[p].BlockStart? ==>
              && (forall i: nat :: Count(es[..p], Starts(i)) == if i < es[p].index then 1 else 0)
              && (forall q :: 0 <= q < p && es[q].BlockStart? && es[q].kind.TextKind? ==>
                    Count(es[..p], StopsAt(es[q].index)) == 1)
  {
    PrefixAccepted(NewClient, es, p + 1);
    SeeLast(NewClient, es[..p + 1]);
    assert es[..p + 1][..p] == es[..p];
    var w := SeeAll(NewClient, es[..p]).watch.value;
    if es[p].TextDelta? || es[p].ArgsDelta? || es[p].BlockStop? {
      AcceptedExplained(es[..p], es[p].index);
    }
    if es[p].BlockStart? {
      var before := es[..p];
      StartsNext(before, es[p]);
      forall q | 0 <= q < p && es[q].BlockStart? && es[q].kind.TextKind?
        ensures Count(before, StopsAt(es[q].index)) == 1
      {
        assert before[q] == es[q];
      }
    }
  }

  lemma {:induction false} StartsNext(es: seq<Event>, e: Event)
    requires SeeAll(NewClient, es).watch.Some? && e.BlockStart? && Accept(SeeAll(NewClient, es).watch.value, e).Some?
    ensures forall i: nat :: Count(es, Starts(i)) == if i < e.index then 1 else 0
    ensures forall q :: 0 <= q < |es| && es[q].BlockStart? && es[q].kind.TextKind? ==> Count(es, StopsAt(es[q].index)) == 1
  {
    forall i: nat ensures Count(es, Starts(i)) == if i < e.index then 1 else 0 {
      AcceptedExplained(es, i);
    }
    forall q | 0 <= q < |es| && es[q].BlockStart? && es[q].kind.TextKind? ensures Count(es, StopsAt(es[q].index)) == 1 {
      TextMark(es, q);
      AcceptedExplained(es, es[q].index);
    }
  }

  // A text block once started is open as text, or stopped.
  lemma {:induction false} TextMark(es: seq<Event>, q: nat)
    requires SeeAll(NewClient, es).watch.Some? && q < |es| && es[q].BlockStart? && es[q].kind.TextKind?
    ensures var w := SeeAll(NewClient, es).watch.value;
            es[q].index < w.next && (es[q].index in w.open ==> w.open[es[q].index])
    decreases |es|
  {
    var n := |es| - 1;
    SeeLast(NewClient, es);
    if q < n {
      TextMark(es[..n], q);
    }
  }

  // ── How the bytes were cut ───────────────────────────────────────────────────────────────────

  function Concat(pieces: seq<string>): string {
    if pieces == [] then "" else pieces[0] + Concat(pieces[1..])
  }

  // The translator's whole state: its fields and its line buffer.
  type Full = (Core, string)

  function PushOne(env: Env, s: Full, piece: string): (Full, seq<Event>) {
    var (c, out) := Feed(env, s.0, Parsed(env, s.1 + piece));
    ((c, Partial(s.1 + piece)), out)
  }

  function PushAll(env: Env, s: Full, pieces: seq<string>): (Full, seq<Event>)
    decreases pieces
  {
    if pieces == [] then (s, [])
    else
      var (s1, out1) := PushOne(env, s, pieces[0]);
      var (s2, out2) := PushAll(env, s1, pieces[1..]);
      (s2, out1 + out2)
  }

  lemma {:induction false} LinesSplit(env: Env, a: string, b: string)
    ensures Parsed(env, a + b) == Parsed(env, a) + Parsed(env, Partial(a) + b)
    ensures Partial(a + b) == Partial(Partial(a) + b)
    decreases |a|
  {
    var n := LineEnd(a);
    if n == |a| {
      assert [] + Parsed(env, a + b) == Parsed(env, a + b);
    } else {
      var rest := a[n + 1..];
      assert (a + b)[..n] == a[..n] && (a + b)[n + 1..] == rest + b;
      FirstLine(env, a, n);
      FirstLine(env, a + b, n);
      LinesSplit(env, rest, b);
      Regroup(ChunkOfLine(env, a[..n]), Parsed(env, rest), Parsed(env, Partial(rest) + b));
    }
  }

  lemma {:induction false} FirstLine(env: Env, s: string, n: nat)
    requires n < |s| && s[n] == '\n' && '\n' !in s[..n]
    ensures Parsed(env, s) == ChunkOfLine(env, s[..n]) + Parsed(env, s[n + 1..])
    ensures Partial(s) == Partial(s[n + 1..])
  {
    LineEndIs(s, n);
  }

  lemma {:induction false} LineEndIs(s: string, n: nat)
    requires n < |s| && s[n] == '\n' && '\n' !in s[..n]
    ensures LineEnd(s) == n
  {
    var m := LineEnd(s);
    forall i | 0 <= i < n ensures s[i] != '\n' { assert s[..n][i] == s[i]; }
    forall i | 0 <= i < m ensures s[i] != '\n' { assert s[..m][i] == s[i]; }
  }

  lemma {:induction false} PushTwo(env: Env, s: Full, a: string, b: string)
    ensures var (s1, out1) := PushOne(env, s, a);
            var (s2, out2) := PushOne(env, s1, b);
            PushOne(env, s, a + b) == (s2, out1 + out2)
  {
    Regroup(s.1, a, b);
    FeedSplit(env, s.0, s.1 + a, b);
  }

  lemma {:induction false} FeedSplit(env: Env, c: Core, text: string, b: string)
    ensures var f1 := Feed(env, c, Parsed(env, text));
            var f2 := Feed(env, f1.0, Parsed(env, Partial(text) + b));
            Feed(env, c, Parsed(env, text + b)) == (f2.0, f1.1 + f2.1)
    ensures Partial(text + b) == Partial(Partial(text) + b)
  {
    LinesSplit(env, text, b);
    FeedAppend(env, c, Parsed(env, text), Parsed(env, Partial(text) + b));
  }

  // However a text is cut into pieces, the events in all, the fields and the line buffer are those
  // of the text pushed at once. (The buffer never holds a complete line.)
  lemma {:induction false} CutsNeverMatter(env: Env, s: Full, pieces: seq<string>)
    requires s.1 == Partial(s.1)
    ensures PushAll(env, s, pieces) == PushOne(env, s, Concat(pieces))
    decreases pieces
  {
    if pieces == [] {
      assert s.1 + "" == s.1;
      NothingParsed(env, s.1);
    } else {
      PartialTwice(s.1 + pieces[0]);
      CutsNeverMatter(env, PushOne(env, s, pieces[0]).0, pieces[1..]);
      PushTwo(env, s, pieces[0], Concat(pieces[1..]));
    }
  }

  lemma {:induction false} PartialTwice(s: string)
    ensures Partial(Partial(s)) == Partial(s)
    decreases |s|
  {
    if LineEnd(s) < |s| { PartialTwice(s[LineEnd(s) + 1..]); }
  }

  lemma {:induction false} NothingParsed(env: Env, s: string)
    requires s == Partial(s)
    ensures Parsed(env, s) == []
    decreases |s|
  {
    if LineEnd(s) < |s| { PartialShorter(s[LineEnd(s) + 1..]); }
  }

  lemma {:induction false} PartialShorter(s: string)
    ensures |Partial(s)| <= |s|
    decreases |s|
  {
    if LineEnd(s) < |s| { PartialShorter(s[LineEnd(s) + 1..]); }
  }

  // A whole reply through the translator, in whatever pieces it arrives: the run of its chunks.
  method Translate(env: Env, model: string, pieces: seq<string>) returns (out: seq<Event>)
    ensures out == Run(env, model, Parsed(env, Concat(pieces)))
  {
    var t := new AnthropicStreamTranslator(env, model);
    out := [];
    ghost var start: Full := (t.Fields(), "");
    ghost var all := PushAll(env, start, pieces);
    assert pieces[0..] == pieces;
    for i := 0 to |pieces|
      invariant t.env == env && fresh(t)
      invariant var rest := PushAll(env, (t.Fields(), t.buffer), pieces[i..]);
                all.0 == rest.0 && all.1 == out + rest.1
    {
      ghost var left := pieces[i..];
      assert left[0] == pieces[i] && left[1..] == pieces[i + 1..];
      var more := t.Push(pieces[i]);
      Regroup(out, more, PushAll(env, (t.Fields(), t.buffer), left[1..]).1);
      out := out + more;
    }
    assert out + [] == out;
    CutsNeverMatter(env, start, pieces);
    assert "" + Concat(pieces) == Concat(pieces);
    var last := t.End();
    out := out + last;
  }

  // end() again closes nothing more, but it repeats the two terminal events, so a client that keeps
  // the protocol refuses the second call whatever it saw.
  lemma {:induction false} EndTwice(env: Env, c: Core, v: Client)
    requires c.started || (c.textIndex == -1 && c.toolBlocks == [])
    requires SeeAll(v, Finish(env, c).1).watch.Some?
    ensures var (after, first) := Finish(env, c); var second := Finish(env, after).1;
      && |first| >= 2 && second == first[|first| - 2..]
      && SeeAll(v, first + second).watch.None?
  {
    var (after, first) := Finish(env, c);
    var second := Finish(env, after).1;
    var last := first[|first| - 2..];
    assert Stops([]) == [];
    assert second == [] + [] + [MessageDelta(c.stopReason.GetOr(EndTurn), if c.usageReported then c.outputTokens else Max(1, env.countTokens(c.content))), MessageStop];
    assert second == last;
    SeeLast(v, first);
    SeeAppend(v, first, second);
    assert SeeAll(v, first + second) == SeeAll(SeeAll(v, first), second);
    assert second == [second[0]] + second[1..];
    SeeTwo(SeeAll(v, first), second[0], second[1]);
    assert second == [second[0], second[1]];
  }
}
