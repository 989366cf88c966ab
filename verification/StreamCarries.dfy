// What reaches the client of a stream: everything its chunks carry, failures too, in the order they came;
// and that the frames a provider sends are the chunks that are translated.
module StreamCarries {
  import opened Options
  import opened Text
  import opened AnthropicStream
  import opened StreamMeaning

  // ── What chunks tell and a client hears ──────────────────────────────────────────────────────

  datatype Word = Said(text: string) | Args(partial: string) | Failed(message: string)

  function HeardIn(e: Event): seq<Word> {
    match e
    case TextDelta(_, text) => [Said(text)]
    case ArgsDelta(_, partial) => [Args(partial)]
    case ErrorEvent(message) => [Failed(message)]
    case _ => []
  }

  function Heard(es: seq<Event>): seq<Word> {
    if es == [] then [] else Heard(es[..|es| - 1]) + HeardIn(es[|es| - 1])
  }

  function ToldByTools(fs: seq<Fragment>): seq<Word> {
    if fs == [] then []
    else (if fs[0].arguments.GetOr("") != "" then [Args(fs[0].arguments.value)] else []) + ToldByTools(fs[1..])
  }

  // A failure's own message, or the one given in its place; nothing else of a chunk that carries one.
  function Told(chunk: Chunk): seq<Word> {
    match chunk.error
    case Some(None) => [Failed("The stream ended early.")]
    case Some(Some(message)) => [Failed(message)]
    case None =>
      if chunk.choice.None? then []
      else
        var choice := chunk.choice.value;
        (if choice.content.GetOr("") != "" then [Said(choice.content.value)] else []) + ToldByTools(choice.tools)
  }

  function ToldBy(chunks: seq<Chunk>): seq<Word> {
    if chunks == [] then [] else ToldBy(chunks[..|chunks| - 1]) + Told(chunks[|chunks| - 1])
  }

  lemma {:induction false} HeardMore(a: seq<Event>, b: seq<Event>)
    ensures Heard(a + b) == Heard(a) + Heard(b)
    decreases |b|
  {
    if b == [] {
      assert a + b == a && Heard(a) + [] == Heard(a);
    } else {
      var n := |b| - 1;
      assert (a + b)[..|a + b| - 1] == a + b[..n];
      HeardMore(a, b[..n]);
      Regroup(Heard(a), Heard(b[..n]), HeardIn(b[n]));
    }
  }

  lemma {:induction false} HeardOne(e: Event)
    ensures Heard([e]) == HeardIn(e)
  {
    assert [e][..0] == [] && [] + HeardIn(e) == HeardIn(e);
  }

  lemma {:induction false} HeardTwo(d: Event, e: Event)
    ensures Heard([d, e]) == HeardIn(d) + HeardIn(e)
  {
    assert [d, e] == [d] + [e];
    HeardMore([d], [e]);
    HeardOne(d);
    HeardOne(e);
  }

  lemma {:induction false} TextHeard(c: Core, content: Option<string>)
    ensures Heard(TakeText(c, content).1) == if content.GetOr("") != "" then [Said(content.value)] else []
  {
    if content.GetOr("") != "" {
      HeardTwo(BlockStart(c.nextIndex, TextKind), TextDelta(c.nextIndex, content.value));
      if c.textIndex != -1 { HeardOne(TextDelta(c.textIndex, content.value)); }
    }
  }

  lemma {:induction false} ToolHeard(env: Env, c: Core, f: Fragment)
    ensures Heard(TakeTool(env, c, f).1) == if f.arguments.GetOr("") != "" then [Args(f.arguments.value)] else []
  {
    var tool, args := f.index.GetOr(0), f.arguments.GetOr("");
    var (c1, opening) := if Lookup(c.toolBlocks, tool).None? then OpenTool(env, c, f) else (c, []);
    if Lookup(c.toolBlocks, tool).None? {
      LookupAppend(c.toolBlocks, tool, c.nextIndex);
      OpeningHeard(env, c, f);
    }
    var block := Lookup(c1.toolBlocks, tool).value;
    if args != "" {
      HeardMore(opening, [ArgsDelta(block, args)]);
      HeardOne(ArgsDelta(block, args));
    } else {
      assert opening + [] == opening;
    }
  }

  lemma {:induction false} OpeningHeard(env: Env, c: Core, f: Fragment)
    ensures Heard(OpenTool(env, c, f).1) == []
  {
    var start := BlockStart(c.nextIndex, ToolKind(f.id.GetOr(env.freshId(c.minted)), f.name.GetOr("")));
    HeardOne(start);
    if c.textIndex == -1 {
      assert [] + [start] == [start];
    } else {
      HeardTwo(BlockStop(c.textIndex), start);
      assert [BlockStop(c.textIndex)] + [start] == [BlockStop(c.textIndex), start];
    }
  }

  lemma {:induction false} ToolsHeard(env: Env, c: Core, fs: seq<Fragment>)
    ensures Heard(TakeTools(env, c, fs).1) == ToldByTools(fs)
    decreases fs
  {
    if fs != [] {
      var (c1, out1) := TakeTool(env, c, fs[0]);
      ToolHeard(env, c, fs[0]);
      ToolsHeard(env, c1, fs[1..]);
      HeardMore(out1, TakeTools(env, c1, fs[1..]).1);
    }
  }

  lemma {:induction false} ChunkHeard(env: Env, c: Core, chunk: Chunk)
    ensures Heard(Take(env, c, chunk).1) == Told(chunk)
  {
    var (c0, begun) := if c.started then (c, []) else Begin(c, chunk.model);
    if !c.started { HeardOne(begun[0]); }
    assert Heard(begun) == [];
    if chunk.error.Some? {
      var failure := ErrorEvent(chunk.error.value.GetOr("The stream ended early."));
      HeardMore(begun, [failure]);
      HeardOne(failure);
    } else if chunk.choice.Some? {
      var c1 := if chunk.usage.Some? then TakeUsage(c0, chunk.usage.value) else c0;
      var choice := chunk.choice.value;
      TextHeard(c1, choice.content);
      ToolsHeard(env, TakeText(c1, choice.content).0, choice.tools);
      HeardMore(TakeText(c1, choice.content).1, TakeTools(env, TakeText(c1, choice.content).0, choice.tools).1);
      HeardMore(begun, TakeChoice(env, c1, choice).1);
    }
  }

  lemma {:induction false} FeedHeard(env: Env, c: Core, chunks: seq<Chunk>)
    ensures Heard(Feed(env, c, chunks).1) == ToldBy(chunks)
    decreases |chunks|
  {
    if chunks != [] {
      var n := |chunks| - 1;
      var (c1, out1) := Feed(env, c, chunks[..n]);
      FeedHeard(env, c, chunks[..n]);
      ChunkHeard(env, c1, chunks[n]);
      HeardMore(out1, Take(env, c1, chunks[n]).1);
    }
  }

  lemma {:induction false} StopsHeard(tools: seq<(int, nat)>)
    ensures Heard(Stops(tools)) == []
  {
    if tools != [] {
      StopsHeard(tools[1..]);
      HeardMore([BlockStop(tools[0].1)], Stops(tools[1..]));
      HeardOne(BlockStop(tools[0].1));
    }
  }

  lemma {:induction false} FinishHeard(env: Env, c: Core)
    ensures Heard(Finish(env, c).1) == []
  {
    var closed := CloseBlocks(c).1;
    var delta := MessageDelta(c.stopReason.GetOr(EndTurn), if c.usageReported then c.outputTokens else Max(1, env.countTokens(c.content)));
    HeardTwo(delta, MessageStop);
    HeardMore(closed, [delta, MessageStop]);
    ClosingHeard(c);
  }

  lemma {:induction false} ClosingHeard(c: Core)
    ensures Heard(CloseBlocks(c).1) == []
  {
    if c.started {
      var text := if c.textIndex != -1 then [BlockStop(c.textIndex)] else [];
      if c.textIndex != -1 { HeardOne(text[0]); }
      StopsHeard(c.toolBlocks);
      HeardMore(text, Stops(c.toolBlocks));
    } else {
      var begun := Begin(c, None).1;
      HeardOne(begun[0]);
      HeardTwo(BlockStart(0, TextKind), BlockStop(0));
      HeardMore(begun, [BlockStart(0, TextKind), BlockStop(0)]);
    }
  }

  // Over every run: the texts, the argument fragments and the failures that reach the client are those
  // the chunks carry, in order, and no others.
  lemma {:induction false} NothingLost(env: Env, model: string, chunks: seq<Chunk>)
    ensures Heard(Run(env, model, chunks)) == ToldBy(chunks)
  {
    var (c, out) := Feed(env, NewCore(env, model), chunks);
    FeedHeard(env, NewCore(env, model), chunks);
    FinishHeard(env, c);
    HeardMore(out, Finish(env, c).1);
    assert ToldBy(chunks) + [] == ToldBy(chunks);
  }

  // ── Failures ─────────────────────────────────────────────────────────────────────────────────

  // The messages of the error events, in order.
  function ErrorsSent(es: seq<Event>): seq<string> {
    if es == [] then []
    else
      var last := es[|es| - 1];
      ErrorsSent(es[..|es| - 1]) + if last.ErrorEvent? then [last.message] else []
  }

  // The messages of the chunks that carry an error, in order.
  function ErrorsCarried(chunks: seq<Chunk>): seq<string> {
    if chunks == [] then []
    else
      var last := chunks[|chunks| - 1];
      ErrorsCarried(chunks[..|chunks| - 1])
      + if last.error.None? then [] else if last.error.value.None? then ["The stream ended early."] else [last.error.value.value]
  }

  function Failures(words: seq<Word>): seq<string> {
    if words == [] then []
    else
      var last := words[|words| - 1];
      Failures(words[..|words| - 1]) + if last.Failed? then [last.message] else []
  }

  lemma {:induction false} FailuresMore(a: seq<Word>, b: seq<Word>)
    ensures Failures(a + b) == Failures(a) + Failures(b)
    decreases |b|
  {
    if b == [] {
      assert a + b == a && Failures(a) + [] == Failures(a);
    } else {
      var n := |b| - 1;
      assert (a + b)[..|a + b| - 1] == a + b[..n];
      FailuresMore(a, b[..n]);
      Regroup(Failures(a), Failures(b[..n]), if b[n].Failed? then [b[n].message] else []);
    }
  }

  lemma {:induction false} FailureOne(w: Word)
    ensures Failures([w]) == if w.Failed? then [w.message] else []
  {
    assert [w][..0] == [];
  }

  lemma {:induction false} SentAreHeard(es: seq<Event>)
    ensures ErrorsSent(es) == Failures(Heard(es))
    decreases |es|
  {
    if es != [] {
      var n := |es| - 1;
      SentAreHeard(es[..n]);
      FailuresMore(Heard(es[..n]), HeardIn(es[n]));
      FailureIn(es[n]);
    }
  }

  lemma {:induction false} FailureIn(e: Event)
    ensures Failures(HeardIn(e)) == if e.ErrorEvent? then [e.message] else []
  {
    if HeardIn(e) != [] { FailureOne(HeardIn(e)[0]); }
  }

  lemma {:induction false} ToolsDoNotFail(fs: seq<Fragment>)
    ensures Failures(ToldByTools(fs)) == []
  {
    if fs != [] {
      ToolsDoNotFail(fs[1..]);
      var head := if fs[0].arguments.GetOr("") != "" then [Args(fs[0].arguments.value)] else [];
      if head != [] { FailureOne(head[0]); }
      FailuresMore(head, ToldByTools(fs[1..]));
    }
  }

  lemma {:induction false} FailuresOfChunk(chunk: Chunk)
    ensures Failures(Told(chunk)) == if chunk.error.None? then [] else [chunk.error.value.GetOr("The stream ended early.")]
  {
    if chunk.error.Some? {
      FailureOne(Told(chunk)[0]);
    } else if chunk.choice.Some? {
      var choice := chunk.choice.value;
      var head := if choice.content.GetOr("") != "" then [Said(choice.content.value)] else [];
      if head != [] { FailureOne(head[0]); }
      ToolsDoNotFail(choice.tools);
      FailuresMore(head, ToldByTools(choice.tools));
    }
  }

  lemma {:induction false} CarriedAreTold(chunks: seq<Chunk>)
    ensures ErrorsCarried(chunks) == Failures(ToldBy(chunks))
    decreases |chunks|
  {
    if chunks != [] {
      var n := |chunks| - 1;
      CarriedAreTold(chunks[..n]);
      FailuresOfChunk(chunks[n]);
      FailuresMore(ToldBy(chunks[..n]), Told(chunks[n]));
    }
  }

  // Over every run: one error event for each chunk that carries an error, in order, each with its message;
  // all of them after message_start and before message_delta.
  lemma {:induction false} ErrorsReach(env: Env, model: string, chunks: seq<Chunk>)
    ensures ErrorsSent(Run(env, model, chunks)) == ErrorsCarried(chunks)
    ensures var es := Run(env, model, chunks);
            && |es| >= 3 && es[0].MessageStart? && es[|es| - 2].MessageDelta?
            && forall p :: 0 <= p < |es| && es[p].ErrorEvent? ==> 0 < p < |es| - 2
  {
    NothingLost(env, model, chunks);
    SentAreHeard(Run(env, model, chunks));
    CarriedAreTold(chunks);
    var k := RunEvents(env, model, chunks);
  }

  // And each stands where it was carried: after all that the chunks before it told, and nothing more.
  lemma {:induction false} ErrorInPlace(env: Env, model: string, chunks: seq<Chunk>, n: nat) returns (p: nat)
    requires n < |chunks| && chunks[n].error.Some?
    ensures var es := Run(env, model, chunks);
            && p < |es| && es[p] == ErrorEvent(chunks[n].error.value.GetOr("The stream ended early."))
            && Heard(es[..p]) == ToldBy(chunks[..n])
  {
    var c0 := NewCore(env, model);
    var (c, before) := Feed(env, c0, chunks[..n]);
    FeedHeard(env, c0, chunks[..n]);
    FailureLast(env, c, chunks[n]);
    FedFirst(env, c0, chunks, n);
    RunStarts(env, model, chunks, before + Take(env, c, chunks[n]).1);
    p := PlaceOf(before, Take(env, c, chunks[n]).1, Run(env, model, chunks));
  }

  lemma {:induction false} PlaceOf(before: seq<Event>, more: seq<Event>, es: seq<Event>) returns (p: nat)
    requires more != [] && Heard(more[..|more| - 1]) == [] && before + more <= es
    ensures p < |es| && es[p] == more[|more| - 1] && Heard(es[..p]) == Heard(before)
  {
    p := |before| + |more| - 1;
    LastOf(before, more, es);
    HeardNothing(before, more[..|more| - 1]);
  }

  lemma {:induction false} HeardNothing(a: seq<Event>, b: seq<Event>)
    requires Heard(b) == []
    ensures Heard(a + b) == Heard(a)
  {
    HeardMore(a, b);
  }

  lemma {:induction false} LastOf<T>(a: seq<T>, b: seq<T>, all: seq<T>)
    requires b != [] && a + b <= all
    ensures var p := |a| + |b| - 1; all[..p] == a + b[..|b| - 1] && all[p] == b[|b| - 1]
  {
    assert all[|a| + |b| - 1] == (a + b)[|a| + |b| - 1];
    assert all[..|a| + |b| - 1] == (a + b)[..|a| + |b| - 1];
  }

  lemma {:induction false} FailureLast(env: Env, c: Core, chunk: Chunk)
    requires chunk.error.Some?
    ensures var out := Take(env, c, chunk).1;
            && out != [] && out[|out| - 1] == ErrorEvent(chunk.error.value.GetOr("The stream ended early."))
            && Heard(out[..|out| - 1]) == []
  {
    var out := Take(env, c, chunk).1;
    if c.started { assert out[..0] == []; } else { assert out[..1] == [out[0]]; HeardOne(out[0]); }
  }

  // The events of the first chunks come first.
  lemma {:induction false} FedFirst(env: Env, c: Core, chunks: seq<Chunk>, n: nat)
    requires n < |chunks|
    ensures var (c1, before) := Feed(env, c, chunks[..n]);
            before + Take(env, c1, chunks[n]).1 <= Feed(env, c, chunks).1
  {
    assert chunks[..n + 1][..n] == chunks[..n];
    assert chunks == chunks[..n + 1] + chunks[n + 1..];
    FeedAppend(env, c, chunks[..n + 1], chunks[n + 1..]);
  }

  lemma {:induction false} RunStarts(env: Env, model: string, chunks: seq<Chunk>, es: seq<Event>)
    requires es <= Feed(env, NewCore(env, model), chunks).1
    ensures es <= Run(env, model, chunks)
  {
  }

  // ── The message that is started ──────────────────────────────────────────────────────────────

  lemma {:induction false} StaysStarted(env: Env, c: Core, fs: seq<Fragment>)
    ensures TakeTools(env, c, fs).0.started == c.started
    decreases fs
  {
    if fs != [] { StaysStarted(env, TakeTool(env, c, fs[0]).0, fs[1..]); }
  }

  lemma {:induction false} TakeStarts(env: Env, c: Core, chunk: Chunk)
    ensures var (c1, out) := Take(env, c, chunk);
            c1.started && (!c.started ==> out != [] && out[0] == MessageStart(c.id, chunk.model.GetOr(c.model), c.inputTokens))
  {
    if chunk.error.None? && chunk.choice.Some? {
      var c0 := if c.started then c else Begin(c, chunk.model).0;
      var c1 := if chunk.usage.Some? then TakeUsage(c0, chunk.usage.value) else c0;
      StaysStarted(env, TakeText(c1, chunk.choice.value.content).0, chunk.choice.value.tools);
    }
  }

  lemma {:induction false} StartedBy(env: Env, model: string, chunks: seq<Chunk>)
    requires chunks != []
    ensures var (c, out) := Feed(env, NewCore(env, model), chunks);
            c.started && out != [] && out[0] == MessageStart(env.freshId(0), chunks[0].model.GetOr(model), 0)
    decreases |chunks|
  {
    var n := |chunks| - 1;
    if n > 0 { StartedBy(env, model, chunks[..n]); } else { assert chunks[..n] == []; }
    TakeStarts(env, Feed(env, NewCore(env, model), chunks[..n]).0, chunks[n]);
  }

  // Its id is the first drawn, its model the first chunk's own or the one given, and its tokens none yet.
  lemma {:induction false} HeadSays(env: Env, model: string, chunks: seq<Chunk>)
    ensures var es := Run(env, model, chunks);
            es != [] && es[0] == MessageStart(env.freshId(0), if chunks == [] then model else chunks[0].model.GetOr(model), 0)
  {
    if chunks != [] { StartedBy(env, model, chunks); }
  }

  // ── From frames to chunks ────────────────────────────────────────────────────────────────────

  // Lines, each with its newline.
  function Joined(lines: seq<string>): string {
    if lines == [] then "" else lines[0] + "\n" + Joined(lines[1..])
  }

  function ChunksOf(env: Env, lines: seq<string>): seq<Chunk> {
    if lines == [] then [] else ChunkOfLine(env, lines[0]) + ChunksOf(env, lines[1..])
  }

  lemma {:induction false} LineEndIs(line: string, rest: string)
    requires '\n' !in line
    ensures LineEnd(line + "\n" + rest) == |line|
  {
    var s := line + "\n" + rest;
    var n := LineEnd(s);
    assert s[|line|] == '\n' && s[..|line|] == line;
    assert forall i :: 0 <= i < |line| ==> s[i] == line[i];
    assert forall i :: 0 <= i < n ==> s[..n][i] == s[i];
  }

  ghost predicate OneLineEach(lines: seq<string>) { forall i :: 0 <= i < |lines| ==> '\n' !in lines[i] }

  // Every complete line is read, in order, and what is left is what follows the last newline.
  lemma {:induction false} ReadByLine(env: Env, lines: seq<string>, rest: string)
    requires '\n' !in rest && OneLineEach(lines)
    ensures Parsed(env, Joined(lines) + rest) == ChunksOf(env, lines) && Partial(Joined(lines) + rest) == rest
    decreases |lines|
  {
    var text := Joined(lines) + rest;
    if lines == [] {
      assert text == rest;
    } else {
      var more := Joined(lines[1..]) + rest;
      assert text == lines[0] + "\n" + more;
      LineEndIs(lines[0], more);
      assert text[..|lines[0]|] == lines[0] && text[|lines[0]| + 1..] == more;
      ReadByLine(env, lines[1..], rest);
    }
  }

  // A data line yields what its payload holds, whatever space is around either; no other line yields any.
  lemma {:induction false} DataLine(env: Env, a: string, b: string, payload: string, c: string)
    requires AllSpace(a) && AllSpace(b) && AllSpace(c) && Bare(payload)
    ensures ChunkOfLine(env, a + "data:" + b + payload + c) ==
      if payload == "" || payload == "[DONE]" || env.parse(payload).None? then [] else [env.parse(payload).value]
  {
    if payload == "" { EmptyData(env, a, b, c); } else { FullData(env, a, b, payload, c); }
  }

  lemma {:induction false} EmptyData(env: Env, a: string, b: string, c: string)
    requires AllSpace(a) && AllSpace(b) && AllSpace(c)
    ensures ChunkOfLine(env, a + "data:" + b + "" + c) == []
  {
    assert a + "data:" + b + "" + c == a + "data:" + (b + c);
    TrimOf(a, "data:", b + c);
    HeldAfter(env, "data:", "");
  }

  lemma {:induction false} FullData(env: Env, a: string, b: string, payload: string, c: string)
    requires AllSpace(a) && AllSpace(b) && AllSpace(c) && Bare(payload) && payload != ""
    ensures ChunkOfLine(env, a + "data:" + b + payload + c) == ChunkOf(env, payload)
  {
    DataTrimmed(a, b, payload, c);
    TrimOf(b, payload, "");
    assert ("data:" + b + payload)[5..] == b + payload + "";
    HeldAfter(env, "data:" + b + payload, payload);
  }

  lemma {:induction false} DataTrimmed(a: string, b: string, payload: string, c: string)
    requires AllSpace(a) && AllSpace(c) && Bare(payload) && payload != ""
    ensures Trim(a + "data:" + b + payload + c) == "data:" + b + payload
  {
    var kept := "data:" + b + payload;
    assert kept[0] == 'd' && kept[|kept| - 1] == payload[|payload| - 1];
    assert a + "data:" + b + payload + c == a + kept + c;
    TrimOf(a, kept, c);
  }

  lemma {:induction false} HeldAfter(env: Env, kept: string, payload: string)
    requires "data:" <= kept && Trim(kept[5..]) == payload
    ensures forall line :: Trim(line) == kept ==> ChunkOfLine(env, line) == ChunkOf(env, payload)
  {
  }

  lemma {:induction false} OtherLine(env: Env, line: string)
    requires !("data:" <= Trim(line))
    ensures ChunkOfLine(env, line) == []
  {
  }

  function Frame(payload: string): seq<string> { ["data: " + payload, ""] }

  // A provider's stream: a frame for each payload, and the closing frame.
  function Frames(payloads: seq<string>): seq<string> {
    if payloads == [] then Frame("[DONE]") else Frame(payloads[0]) + Frames(payloads[1..])
  }

  ghost predicate Sendable(env: Env, payloads: seq<string>) {
    forall i :: 0 <= i < |payloads| ==> '\n' !in payloads[i] && Bare(payloads[i]) && Holds(env, payloads[i])
  }

  predicate Holds(env: Env, payload: string) { payload != "" && payload != "[DONE]" && env.parse(payload).Some? }

  function Held(env: Env, payloads: seq<string>): seq<Chunk>
    requires forall i :: 0 <= i < |payloads| ==> Holds(env, payloads[i])
  {
    if payloads == [] then []
    else
      assert Holds(env, payloads[0]);
      [env.parse(payloads[0]).value] + Held(env, payloads[1..])
  }

  lemma {:induction false} FrameHolds(env: Env, payload: string, rest: seq<string>)
    requires Bare(payload)
    ensures ChunksOf(env, Frame(payload) + rest) ==
      (if payload == "[DONE]" || !Holds(env, payload) then [] else [env.parse(payload).value]) + ChunksOf(env, rest)
  {
    var all := Frame(payload) + rest;
    DataLine(env, "", " ", payload, "");
    assert "" + "data:" + " " + payload + "" == "data: " + payload;
    assert all[1..] == [""] + rest && all[1..][1..] == rest;
    assert ChunkOfLine(env, "") == [];
    assert ChunksOf(env, all[1..]) == [] + ChunksOf(env, rest) == ChunksOf(env, rest);
  }

  lemma {:induction false} FrameLines(payload: string, rest: seq<string>)
    requires '\n' !in payload && OneLineEach(rest)
    ensures OneLineEach(Frame(payload) + rest)
  {
  }

  lemma {:induction false} FramesHold(env: Env, payloads: seq<string>)
    requires Sendable(env, payloads)
    ensures ChunksOf(env, Frames(payloads)) == Held(env, payloads)
    ensures OneLineEach(Frames(payloads))
    decreases |payloads|
  {
    if payloads == [] {
      ClosingFrame(env);
    } else {
      assert Sendable(env, payloads[1..]) && Holds(env, payloads[0]);
      FramesHold(env, payloads[1..]);
      FrameHolds(env, payloads[0], Frames(payloads[1..]));
      FrameLines(payloads[0], Frames(payloads[1..]));
    }
  }

  lemma {:induction false} ClosingFrame(env: Env)
    ensures ChunksOf(env, Frame("[DONE]")) == [] && OneLineEach(Frame("[DONE]"))
  {
    FrameHolds(env, "[DONE]", []);
    FrameLines("[DONE]", []);
    assert Frame("[DONE]") + [] == Frame("[DONE]");
  }

  // However a provider's stream is cut, the translator's output is the run of the chunks it sent.
  method TranslateFrames(env: Env, model: string, payloads: seq<string>, pieces: seq<string>) returns (out: seq<Event>)
    requires Sendable(env, payloads) && Concat(pieces) == Joined(Frames(payloads))
    ensures out == Run(env, model, Held(env, payloads))
  {
    FramesHold(env, payloads);
    ReadByLine(env, Frames(payloads), "");
    assert Joined(Frames(payloads)) + "" == Joined(Frames(payloads));
    out := Translate(env, model, pieces);
  }
}
