// Nothing the chunks carried is lost or misplaced, and the streamed reply is the unstreamed one
// (openAIToAnthropic, src/lib/anthropic.ts:168-198) exactly when no text follows a tool call and
// the stream is not a contentless one.
module StreamAgreement {
  import opened Options
  import opened AnthropicStream
  import opened StreamRuns

  // ── Conservation ─────────────────────────────────────────────────────────────────────────────

  function AllText(ds: seq<Delta>): string {
    if ds == [] then ""
    else AllText(ds[..|ds| - 1]) + if ds[|ds| - 1].TextOf? then ds[|ds| - 1].text else ""
  }

  function PartsText(parts: seq<Part>): string {
    if parts == [] then ""
    else PartsText(parts[..|parts| - 1]) + if parts[|parts| - 1].TextPart? then parts[|parts| - 1].text else ""
  }

  predicate IsFor(d: Delta, tool: int) { d.ToolOf? && d.fragment.index.GetOr(0) == tool }

  function AllArgs(ds: seq<Delta>, tool: int): string {
    if ds == [] then ""
    else
      var d := ds[|ds| - 1];
      AllArgs(ds[..|ds| - 1], tool) + if IsFor(d, tool) then d.fragment.arguments.GetOr("") else ""
  }

  // The arguments gathered for a tool, "" when it has no part.
  function PartsArgs(parts: seq<Part>, tool: int): string {
    var p := Position(parts, tool);
    if p.Some? then parts[p.value].args else ""
  }

  lemma {:induction false} PartsTextMore(parts: seq<Part>, p: Part)
    ensures PartsText(parts + [p]) == PartsText(parts) + if p.TextPart? then p.text else ""
  {
    assert (parts + [p])[..|parts|] == parts;
  }

  lemma {:induction false} PartsTextArgs(parts: seq<Part>, i: nat, p: Part)
    requires i < |parts| && parts[i].ToolPart? && p.ToolPart?
    ensures PartsText(parts[i := p]) == PartsText(parts)
  {
    var n := |parts| - 1;
    if i == n {
      assert parts[i := p][..n] == parts[..n];
    } else {
      assert parts[i := p][..n] == parts[..n][i := p];
      PartsTextArgs(parts[..n], i, p);
    }
  }

  lemma {:induction false} TextKept(env: Env, ds: seq<Delta>)
    ensures PartsText(Render(env, ds).parts) == AllText(ds)
    decreases |ds|
  {
    if ds != [] {
      var d := ds[|ds| - 1];
      var parts := Render(env, ds[..|ds| - 1]).parts;
      TextKept(env, ds[..|ds| - 1]);
      var after := Add(env, Render(env, ds[..|ds| - 1]), d).parts;
      var n := |parts|;
      if d.TextOf? {
        if n > 0 && parts[n - 1].TextPart? {
          assert after == parts[..n - 1] + [TextPart(parts[n - 1].text + d.text)];
          PartsTextMore(parts[..n - 1], TextPart(parts[n - 1].text + d.text));
        } else {
          PartsTextMore(parts, TextPart(d.text));
        }
      } else {
        var p := Position(parts, d.fragment.index.GetOr(0));
        if p.Some? {
          PartsTextArgs(parts, p.value, after[p.value]);
        } else {
          PartsTextMore(parts, after[n]);
        }
      }
    }
  }

  // No tool has two parts, so each has the one block Position names.
  ghost predicate OnePartEach(parts: seq<Part>) {
    forall i :: 0 <= i < |parts| && parts[i].ToolPart? ==> Position(parts, parts[i].tool) == Some(i)
  }

  lemma {:induction false} PositionSame(a: seq<Part>, b: seq<Part>, tool: int)
    requires |a| == |b|
    requires forall i :: 0 <= i < |a| ==> a[i].ToolPart? == b[i].ToolPart? && (a[i].ToolPart? ==> a[i].tool == b[i].tool)
    ensures Position(a, tool) == Position(b, tool)
  {
    if a != [] {
      PositionSame(a[..|a| - 1], b[..|b| - 1], tool);
    }
  }

  lemma {:induction false} AddArgs(env: Env, doc: Doc, d: Delta, tool: int)
    requires OnePartEach(doc.parts)
    ensures var after := Add(env, doc, d).parts;
            && OnePartEach(after)
            && PartsArgs(after, tool)
               == PartsArgs(doc.parts, tool) + (if IsFor(d, tool) then d.fragment.arguments.GetOr("") else "")
            && (Position(after, tool).Some? <==> Position(doc.parts, tool).Some? || IsFor(d, tool))
  {
    match d
    case TextOf(t) => AddTextArgs(env, doc, t, tool);
    case ToolOf(f) =>
      if Position(doc.parts, f.index.GetOr(0)).Some? { FeedArgs(env, doc, f, tool); } else { OpenArgs(env, doc, f, tool); }
  }

  lemma {:induction false} AddTextArgs(env: Env, doc: Doc, t: string, tool: int)
    requires OnePartEach(doc.parts)
    ensures var after := Add(env, doc, TextOf(t)).parts;
            && OnePartEach(after) && PartsArgs(after, tool) == PartsArgs(doc.parts, tool)
            && Position(after, tool) == Position(doc.parts, tool)
  {
    var parts, after := doc.parts, Add(env, doc, TextOf(t)).parts;
    if |after| == |parts| {
      SameKinds(parts, after);
    } else {
      OnePartMore(parts, TextPart(t), tool);
    }
  }

  lemma {:induction false} FeedArgs(env: Env, doc: Doc, f: Fragment, tool: int)
    requires OnePartEach(doc.parts) && Position(doc.parts, f.index.GetOr(0)).Some?
    ensures var after := Add(env, doc, ToolOf(f)).parts;
            && OnePartEach(after) && Position(after, tool) == Position(doc.parts, tool)
            && PartsArgs(after, tool)
               == PartsArgs(doc.parts, tool) + (if f.index.GetOr(0) == tool then f.arguments.GetOr("") else "")
  {
    SameKinds(doc.parts, Add(env, doc, ToolOf(f)).parts);
  }

  lemma {:induction false} OpenArgs(env: Env, doc: Doc, f: Fragment, tool: int)
    requires OnePartEach(doc.parts) && Position(doc.parts, f.index.GetOr(0)).None?
    ensures var after := Add(env, doc, ToolOf(f)).parts;
            && OnePartEach(after)
            && (Position(after, tool).Some? <==> Position(doc.parts, tool).Some? || f.index.GetOr(0) == tool)
            && PartsArgs(after, tool)
               == PartsArgs(doc.parts, tool) + (if f.index.GetOr(0) == tool then f.arguments.GetOr("") else "")
  {
    var part := ToolPart(f.index.GetOr(0), f.id.GetOr(env.freshId(doc.minted)), f.name.GetOr(""), f.arguments.GetOr(""));
    assert Add(env, doc, ToolOf(f)).parts == doc.parts + [part];
    OnePartMore(doc.parts, part, tool);
    ArgsOfMore(doc.parts, part, tool);
  }

  lemma {:induction false} ArgsOfMore(parts: seq<Part>, p: Part, tool: int)
    requires p.ToolPart? && Position(parts, p.tool).None?
    requires Position(parts + [p], tool)
          == if Position(parts, tool).Some? then Position(parts, tool) else if p.tool == tool then Some(|parts|) else None
    ensures PartsArgs(parts + [p], tool) == PartsArgs(parts, tool) + (if p.tool == tool then p.args else "")
  {
    assert "" + p.args == p.args && PartsArgs(parts, tool) + "" == PartsArgs(parts, tool);
  }

  // A change in place of some part leaves every tool its part.
  lemma {:induction false} SameKinds(a: seq<Part>, b: seq<Part>)
    requires OnePartEach(a) && |a| == |b|
    requires forall i :: 0 <= i < |a| ==> a[i].ToolPart? == b[i].ToolPart? && (a[i].ToolPart? ==> a[i].tool == b[i].tool)
    ensures OnePartEach(b) && forall t :: Position(b, t) == Position(a, t)
  {
    forall t ensures Position(b, t) == Position(a, t) { PositionSame(a, b, t); }
  }

  // A new part, of no tool or of one without a part.
  lemma {:induction false} OnePartMore(parts: seq<Part>, p: Part, tool: int)
    requires OnePartEach(parts) && (p.ToolPart? ==> Position(parts, p.tool).None?)
    ensures OnePartEach(parts + [p])
    ensures Position(parts + [p], tool)
         == if Position(parts, tool).Some? then Position(parts, tool)
            else if p.ToolPart? && p.tool == tool then Some(|parts|) else None
  {
    var more := parts + [p];
    PositionMore(parts, p, tool);
    forall i | 0 <= i < |more| && more[i].ToolPart? ensures Position(more, more[i].tool) == Some(i) {
      PositionMore(parts, p, more[i].tool);
      if i < |parts| { assert more[i] == parts[i]; }
    }
  }

  // Every fragment of a tool reaches the one part of that tool, in order, and no two parts share
  // a tool.
  lemma {:induction false} ArgsKept(env: Env, ds: seq<Delta>, tool: int)
    ensures PartsArgs(Render(env, ds).parts, tool) == AllArgs(ds, tool)
    ensures OnePartEach(Render(env, ds).parts)
    ensures Position(Render(env, ds).parts, tool).Some? <==> Names(ds, tool)
    decreases |ds|
  {
    if ds != [] {
      var n := |ds| - 1;
      ArgsKept(env, ds[..n], tool);
      AddArgs(env, Render(env, ds[..n]), ds[n], tool);
      assert Render(env, ds) == Add(env, Render(env, ds[..n]), ds[n]);
    }
  }

  // Some fragment is for this tool.
  predicate Names(ds: seq<Delta>, tool: int) {
    ds != [] && (IsFor(ds[|ds| - 1], tool) || Names(ds[..|ds| - 1], tool))
  }

  lemma {:induction false} NamesAny(ds: seq<Delta>, i: nat, tool: int)
    requires i < |ds| && IsFor(ds[i], tool)
    ensures Names(ds, tool)
    decreases |ds|
  {
    if i < |ds| - 1 { NamesAny(ds[..|ds| - 1], i, tool); }
  }

  // ── The terminal events ──────────────────────────────────────────────────────────────────────

  function LastFinish(chunks: seq<Chunk>): Option<string> {
    if chunks == [] then None
    else
      var last := chunks[|chunks| - 1];
      if last.error.None? && last.choice.Some? && last.choice.value.finish.GetOr("") != ""
      then last.choice.value.finish
      else LastFinish(chunks[..|chunks| - 1])
  }

  // The completion tokens last reported: None when no usage was reported at all.
  function ReportedTokens(chunks: seq<Chunk>): Option<int> {
    if chunks == [] then None
    else
      var last, before := chunks[|chunks| - 1], ReportedTokens(chunks[..|chunks| - 1]);
      if last.error.None? && last.usage.Some? then Some(last.usage.value.completion.GetOr(before.GetOr(0))) else before
  }

  lemma {:induction false} FieldsSum(env: Env, model: string, chunks: seq<Chunk>)
    ensures var c := Feed(env, NewCore(env, model), chunks).0;
            && c.content == AllText(Deltas(chunks))
            && c.stopReason == (if LastFinish(chunks).Some? then Some(MapStopReason(LastFinish(chunks).value)) else None)
            && c.usageReported == ReportedTokens(chunks).Some?
            && c.outputTokens == ReportedTokens(chunks).GetOr(0)
    decreases |chunks|
  {
    if chunks != [] {
      var n := |chunks| - 1;
      FieldsSum(env, model, chunks[..n]);
      var c := Feed(env, NewCore(env, model), chunks[..n]).0;
      TakeSums(env, c, Deltas(chunks[..n]), chunks[n]);
    }
  }

  lemma {:induction false} AllTextAppend(a: seq<Delta>, b: seq<Delta>)
    ensures AllText(a + b) == AllText(a) + AllText(b)
    decreases |b|
  {
    if b == [] {
      assert a + b == a;
    } else {
      assert (a + b)[..|a + b| - 1] == a + b[..|b| - 1];
      AllTextAppend(a, b[..|b| - 1]);
    }
  }

  lemma {:induction false} ToolsNoText(fs: seq<Fragment>)
    ensures AllText(ToolDeltas(fs)) == ""
    decreases |fs|
  {
    if fs != [] {
      assert ToolDeltas(fs)[..|fs| - 1] == ToolDeltas(fs[..|fs| - 1]);
      ToolsNoText(fs[..|fs| - 1]);
    }
  }

  lemma {:induction false} ChoiceText(choice: Choice)
    ensures AllText(ChoiceDeltas(choice)) == choice.content.GetOr("")
  {
    var t := choice.content.GetOr("");
    var head := if t != "" then [TextOf(t)] else [];
    ToolsNoText(choice.tools);
    AllTextAppend(head, ToolDeltas(choice.tools));
    assert AllText(head) == t by { if t != "" { assert [TextOf(t)][..0] == []; assert "" + t == t; } }
    assert t + "" == t;
  }

  lemma {:induction false} ChoiceSums(env: Env, c: Core, choice: Choice)
    ensures var c1 := TakeChoice(env, c, choice).0;
            && c1.content == c.content + choice.content.GetOr("")
            && c1.stopReason == (if choice.finish.GetOr("") != "" then Some(MapStopReason(choice.finish.value)) else c.stopReason)
            && c1.usageReported == c.usageReported && c1.outputTokens == c.outputTokens
  {
    ToolsKeep(env, TakeText(c, choice.content).0, choice.tools);
    assert c.content + "" == c.content;
  }

  lemma {:induction false} TakeSums(env: Env, c: Core, ds: seq<Delta>, chunk: Chunk)
    requires c.content == AllText(ds)
    ensures var c1 := Take(env, c, chunk).0;
            && c1.content == AllText(ds + ChunkDeltas(chunk))
            && c1.stopReason == (if chunk.error.None? && chunk.choice.Some? && chunk.choice.value.finish.GetOr("") != ""
                                 then Some(MapStopReason(chunk.choice.value.finish.value)) else c.stopReason)
            && c1.usageReported == (c.usageReported || (chunk.error.None? && chunk.usage.Some?))
            && c1.outputTokens == (if chunk.error.None? && chunk.usage.Some?
                                   then chunk.usage.value.completion.GetOr(c.outputTokens) else c.outputTokens)
  {
    AllTextAppend(ds, ChunkDeltas(chunk));
    if chunk.error.None? && chunk.choice.Some? {
      var c0 := if c.started then c else Begin(c, chunk.model).0;
      var c1 := if chunk.usage.Some? then TakeUsage(c0, chunk.usage.value) else c0;
      ChoiceText(chunk.choice.value);
      ChoiceSums(env, c1, chunk.choice.value);
    } else {
      assert AllText(ds) + "" == AllText(ds);
    }
  }

  // The reply ends with the last finish reason given, and the tokens last reported, or counted
  // from the whole text when none were.
  lemma {:induction false} RunEnds(env: Env, model: string, chunks: seq<Chunk>)
    ensures var es := Run(env, model, chunks);
            && |es| >= 2 && es[|es| - 1] == MessageStop
            && es[|es| - 2] == MessageDelta(
                 MapStopReason(LastFinish(chunks).GetOr("stop")),
                 if ReportedTokens(chunks).Some? then ReportedTokens(chunks).value
                 else Max(1, env.countTokens(AllText(Deltas(chunks)))))
  {
    FieldsSum(env, model, chunks);
    var (c, out) := Feed(env, NewCore(env, model), chunks);
    FinishEnds(env, c);
    LastTwo(out, Finish(env, c).1);
  }

  lemma {:induction false} LastTwo<T>(a: seq<T>, b: seq<T>)
    requires |b| >= 2
    ensures var all := a + b; all[|all| - 1] == b[|b| - 1] && all[|all| - 2] == b[|b| - 2]
  {
  }

  lemma {:induction false} FinishEnds(env: Env, c: Core)
    ensures var fin := Finish(env, c).1;
            && |fin| >= 2 && fin[|fin| - 1] == MessageStop
            && fin[|fin| - 2] == MessageDelta(c.stopReason.GetOr(EndTurn),
                                              if c.usageReported then c.outputTokens else Max(1, env.countTokens(c.content)))
  {
  }

  // ── The unstreamed reply ─────────────────────────────────────────────────────────────────────

  datatype ToolCall = ToolCall(id: Option<string>, name: Option<string>, arguments: Option<string>)
  datatype Completion = Completion(id: Option<string>, model: Option<string>, content: Option<string>,
                                   toolCalls: seq<ToolCall>, finish: Option<string>, usage: Option<Usage>)
  datatype Reply = Reply(id: string, model: string, content: seq<Block>, stop: StopReason, inputTokens: int, outputTokens: int)

  function Missing(calls: seq<ToolCall>): nat {
    if calls == [] then 0 else Missing(calls[..|calls| - 1]) + if calls[|calls| - 1].id.None? then 1 else 0
  }

  // One tool_use block for each call, with a minted id when it came without one, and the arguments as
  // the string it carried.
  function ToolBlocks(env: Env, calls: seq<ToolCall>, minted: nat): seq<Block> {
    if calls == [] then []
    else
      var before, tc := calls[..|calls| - 1], calls[|calls| - 1];
      ToolBlocks(env, before, minted)
      + [Tool(tc.id.GetOr(env.freshId(minted + Missing(before))), tc.name.GetOr(""), tc.arguments.GetOr("{}"))]
  }

  lemma {:induction false} ToolBlocksNext(env: Env, calls: seq<ToolCall>, i: nat, minted: nat)
    requires i < |calls|
    ensures Missing(calls[..i + 1]) == Missing(calls[..i]) + (if calls[i].id.None? then 1 else 0)
    ensures ToolBlocks(env, calls[..i + 1], minted) == ToolBlocks(env, calls[..i], minted)
      + [Tool(calls[i].id.GetOr(env.freshId(minted + Missing(calls[..i]))), calls[i].name.GetOr(""), calls[i].arguments.GetOr("{}"))]
  {
    assert calls[..i + 1][..i] == calls[..i];
  }

  function TextHead(text: string): seq<Block> { if text != "" then [Text(text)] else [] }

  function Content(env: Env, completion: Completion, minted: nat): seq<Block> {
    var content := TextHead(completion.content.GetOr("")) + ToolBlocks(env, completion.toolCalls, minted);
    if content == [] then [Text("")] else content
  }

  // A block with its arguments read as JSON: an empty object where they hold none.
  function WithInput(env: Env, b: Block): Block {
    match b
    case Text(_) => b
    case Tool(id, name, args) => Tool(id, name, env.json(args).GetOr("{}"))
  }

  function AllInputs(env: Env, blocks: seq<Block>): seq<Block> {
    seq(|blocks|, i requires 0 <= i < |blocks| => WithInput(env, blocks[i]))
  }

  lemma {:induction false} InputsMore(env: Env, blocks: seq<Block>, b: Block)
    ensures AllInputs(env, blocks + [b]) == AllInputs(env, blocks) + [WithInput(env, b)]
  {
  }

  // openAIToAnthropic; ids are drawn from the supply from `minted` on, the message's own last.
  method OpenAIToAnthropic(env: Env, completion: Completion, fallbackModel: string, minted: nat) returns (r: Reply)
    ensures r.content == AllInputs(env, Content(env, completion, minted))
    ensures r.stop == MapStopReason(completion.finish.GetOr(""))
    ensures r.stop == MaxTokens <==> completion.finish == Some("length")
    ensures r.stop == ToolUse <==> completion.finish == Some("tool_calls")
    ensures completion.id.Some? ==> r.id == completion.id.value
    ensures completion.id.None? ==> r.id == env.freshId(minted + Missing(completion.toolCalls))
    ensures r.model == completion.model.GetOr(fallbackModel)
    ensures completion.usage.None? ==> r.inputTokens == r.outputTokens == 0
    ensures completion.usage.Some? ==>
      r.inputTokens == completion.usage.value.prompt.GetOr(0) && r.outputTokens == completion.usage.value.completion.GetOr(0)
  {
    var content, drawn := BuildContent(env, completion, minted);
    var usage := completion.usage.GetOr(Usage(None, None));
    r := Reply(completion.id.GetOr(env.freshId(drawn)), completion.model.GetOr(fallbackModel), content,
               MapStopReason(completion.finish.GetOr("")), usage.prompt.GetOr(0), usage.completion.GetOr(0));
  }

  // The block of a call: its own id if it has one, its name, and the JSON value its arguments hold, or an
  // empty object where they hold none.
  predicate Shows(env: Env, b: Block, tc: ToolCall) {
    && b.Tool? && (tc.id.Some? ==> b.id == tc.id.value) && b.name == tc.name.GetOr("")
    && (tc.arguments.Some? && env.json(tc.arguments.value).Some? ==> b.args == env.json(tc.arguments.value).value)
    && (tc.arguments.Some? && env.json(tc.arguments.value).None? ==> b.args == "{}")
  }

  lemma {:induction false} ToolBlocksShow(env: Env, calls: seq<ToolCall>, minted: nat)
    ensures |ToolBlocks(env, calls, minted)| == |calls|
    ensures forall i :: 0 <= i < |calls| ==> Shows(env, WithInput(env, ToolBlocks(env, calls, minted)[i]), calls[i])
    decreases |calls|
  {
    if calls != [] { ToolBlocksShow(env, calls[..|calls| - 1], minted); }
  }

  // What the content is: the text, where there is any, then a block for each call; never nothing.
  lemma {:induction false} ContentSays(env: Env, completion: Completion, minted: nat)
    ensures var content, text, calls := AllInputs(env, Content(env, completion, minted)), completion.content.GetOr(""), completion.toolCalls;
            var head := if text != "" then 1 else 0;
            && (text != "" || calls == [] ==> content != [] && content[0] == Text(text))
            && |content| == (if text == "" && calls == [] then 1 else head + |calls|)
            && forall i :: 0 <= i < |calls| ==> Shows(env, content[head + i], calls[i])
  {
    var calls, head := completion.toolCalls, TextHead(completion.content.GetOr(""));
    ToolBlocksShow(env, calls, minted);
    ShownAfter(env, head, ToolBlocks(env, calls, minted), calls);
  }

  lemma {:induction false} ShownAfter(env: Env, head: seq<Block>, blocks: seq<Block>, calls: seq<ToolCall>)
    requires |blocks| == |calls| && forall i :: 0 <= i < |calls| ==> Shows(env, WithInput(env, blocks[i]), calls[i])
    ensures forall i :: 0 <= i < |calls| ==> Shows(env, AllInputs(env, head + blocks)[|head| + i], calls[i])
  {
    forall i | 0 <= i < |calls| ensures Shows(env, AllInputs(env, head + blocks)[|head| + i], calls[i]) {
      assert AllInputs(env, head + blocks)[|head| + i] == WithInput(env, blocks[i]);
    }
  }

  // The blocks of the text and the first i calls, built so far.
  ghost predicate Built(env: Env, completion: Completion, i: nat, minted: nat, content: seq<Block>, drawn: nat)
    requires i <= |completion.toolCalls|
  {
    && drawn == minted + Missing(completion.toolCalls[..i])
    && content == AllInputs(env, TextHead(completion.content.GetOr("")) + ToolBlocks(env, completion.toolCalls[..i], minted))
  }

  // Its content blocks, and how far the supply of ids has been drawn.
  method BuildContent(env: Env, completion: Completion, minted: nat) returns (content: seq<Block>, drawn: nat)
    ensures content == AllInputs(env, Content(env, completion, minted))
    ensures drawn == minted + Missing(completion.toolCalls)
  {
    content, drawn := [], minted;
    if completion.content.Some? && completion.content.value != "" {
      content := content + [Text(completion.content.value)];
    }
    BuiltNone(env, completion, minted, content);
    for i := 0 to |completion.toolCalls|
      invariant Built(env, completion, i, minted, content, drawn)
    {
      var tc := completion.toolCalls[i];
      var block := Tool(tc.id.GetOr(env.freshId(drawn)), tc.name.GetOr(""), env.json(tc.arguments.GetOr("{}")).GetOr("{}"));
      BuiltNext(env, completion, i, minted, content, drawn);
      content := content + [block];
      if tc.id.None? { drawn := drawn + 1; }
    }
    BuiltAll(env, completion, minted, content, drawn);
    if |content| == 0 { content := content + [Text("")]; }
  }

  lemma {:induction false} BuiltNone(env: Env, completion: Completion, minted: nat, content: seq<Block>)
    requires content == TextHead(completion.content.GetOr(""))
    ensures Built(env, completion, 0, minted, content, minted)
  {
    assert completion.toolCalls[..0] == [];
  }

  lemma {:induction false} BuiltNext(env: Env, completion: Completion, i: nat, minted: nat, content: seq<Block>, drawn: nat)
    requires i < |completion.toolCalls| && Built(env, completion, i, minted, content, drawn)
    ensures var tc := completion.toolCalls[i];
      var block := Tool(tc.id.GetOr(env.freshId(drawn)), tc.name.GetOr(""), env.json(tc.arguments.GetOr("{}")).GetOr("{}"));
      Built(env, completion, i + 1, minted, content + [block], if tc.id.None? then drawn + 1 else drawn)
  {
    var calls, head := completion.toolCalls, TextHead(completion.content.GetOr(""));
    var before := ToolBlocks(env, calls[..i], minted);
    var raw := Tool(calls[i].id.GetOr(env.freshId(drawn)), calls[i].name.GetOr(""), calls[i].arguments.GetOr("{}"));
    ToolBlocksNext(env, calls, i, minted);
    Regroup(head, before, [raw]);
    InputsMore(env, head + before, raw);
  }

  lemma {:induction false} BuiltAll(env: Env, completion: Completion, minted: nat, content: seq<Block>, drawn: nat)
    requires Built(env, completion, |completion.toolCalls|, minted, content, drawn)
    ensures drawn == minted + Missing(completion.toolCalls)
    ensures AllInputs(env, Content(env, completion, minted)) == if content == [] then [Text("")] else content
  {
    assert completion.toolCalls[..|completion.toolCalls|] == completion.toolCalls;
  }

  // ── The completion a stream's chunks merge into: each tool call at its own index ─────────────

  function MergeCall(calls: seq<ToolCall>, f: Fragment): seq<ToolCall> {
    var i, args := f.index.GetOr(0), f.arguments.GetOr("");
    if 0 <= i < |calls| then calls[i := calls[i].(arguments := Some(calls[i].arguments.GetOr("") + args))]
    else calls + [ToolCall(f.id, f.name, Some(args))]
  }

  function Calls(ds: seq<Delta>): seq<ToolCall> {
    if ds == [] then []
    else
      var d, before := ds[|ds| - 1], Calls(ds[..|ds| - 1]);
      if d.ToolOf? then MergeCall(before, d.fragment) else before
  }

  function Merged(chunks: seq<Chunk>): Completion {
    var reported := ReportedTokens(chunks);
    Completion(None, None, Some(AllText(Deltas(chunks))), Calls(Deltas(chunks)), LastFinish(chunks),
               if reported.Some? then Some(Usage(None, reported)) else None)
  }

  // Tool indices first appear in the order 0, 1, 2, ...
  ghost predicate InOrder(ds: seq<Delta>) {
    forall n :: 0 <= n < |ds| && ds[n].ToolOf? ==> 0 <= ds[n].fragment.index.GetOr(0) <= |Calls(ds[..n])|
  }

  ghost predicate TextFirst(ds: seq<Delta>) {
    forall i, j :: 0 <= i < j < |ds| && ds[i].ToolOf? ==> ds[j].ToolOf?
  }

  // A stream never carries an empty text delta.
  ghost predicate TextsCarried(ds: seq<Delta>) {
    forall i :: 0 <= i < |ds| && ds[i].TextOf? ==> ds[i].text != ""
  }

  // The parts of a stream whose text comes first: the text, then each call at its index.
  function HeadPart(text: string): seq<Part> { if text != "" then [TextPart(text)] else [] }

  function CallParts(env: Env, calls: seq<ToolCall>): seq<Part> {
    if calls == [] then []
    else
      var before := calls[..|calls| - 1];
      CallParts(env, before) + [CallPart(env, before, calls[|calls| - 1])]
  }

  function CallPart(env: Env, before: seq<ToolCall>, tc: ToolCall): Part {
    ToolPart(|before|, tc.id.GetOr(env.freshId(1 + Missing(before))), tc.name.GetOr(""), tc.arguments.GetOr("{}"))
  }

  lemma {:induction false} CallPartsMore(env: Env, calls: seq<ToolCall>, tc: ToolCall)
    ensures CallParts(env, calls + [tc]) == CallParts(env, calls) + [CallPart(env, calls, tc)]
    ensures Missing(calls + [tc]) == Missing(calls) + (if tc.id.None? then 1 else 0)
  {
    assert (calls + [tc])[..|calls|] == calls;
  }

  // Call k is part k after the text, and carries the call's arguments.
  lemma {:induction false} CallPartsAt(env: Env, calls: seq<ToolCall>, k: nat)
    requires k < |calls|
    ensures |CallParts(env, calls)| == |calls|
    ensures CallParts(env, calls)[k].ToolPart? && CallParts(env, calls)[k].tool == k
    ensures CallParts(env, calls)[k].args == calls[k].arguments.GetOr("{}")
  {
    var n := |calls| - 1;
    if n > 0 { CallPartsAt(env, calls[..n], if k < n then k else 0); }
  }

  // The first part of a tool is where its fragments go.
  lemma {:induction false} PositionIs(parts: seq<Part>, tool: int, p: nat)
    requires p < |parts| && parts[p].ToolPart? && parts[p].tool == tool
    requires forall i :: 0 <= i < p ==> !(parts[i].ToolPart? && parts[i].tool == tool)
    ensures Position(parts, tool) == Some(p)
    decreases |parts|
  {
    var n := |parts| - 1;
    var early := parts[..n];
    if p < n {
      PositionIs(early, tool, p);
    } else {
      assert forall i :: 0 <= i < n ==> early[i] == parts[i];
      PositionNone(early, tool);
    }
  }

  lemma {:induction false} PositionNone(parts: seq<Part>, tool: int)
    requires forall i :: 0 <= i < |parts| ==> !(parts[i].ToolPart? && parts[i].tool == tool)
    ensures Position(parts, tool) == None
  {
    var p := Position(parts, tool);
  }

  lemma {:induction false} PositionOfCall(env: Env, text: string, calls: seq<ToolCall>, tool: int)
    ensures |CallParts(env, calls)| == |calls|
    ensures Position(HeadPart(text) + CallParts(env, calls), tool)
         == if 0 <= tool < |calls| then Some(|HeadPart(text)| + tool) else None
  {
    var head, parts := HeadPart(text), CallParts(env, calls);
    if calls != [] { CallPartsAt(env, calls, 0); }
    forall k: nat | k < |calls| ensures |parts| == |calls| && parts[k].ToolPart? && parts[k].tool == k {
      CallPartsAt(env, calls, k);
    }
    var all := head + parts;
    assert forall i :: 0 <= i < |all| && all[i].ToolPart? ==> i >= |head| && all[i] == parts[i - |head|];
    if 0 <= tool < |calls| {
      assert all[|head| + tool] == parts[tool];
      PositionIs(all, tool, |head| + tool);
    } else {
      PositionNone(all, tool);
    }
  }

  lemma {:induction false} CallPartsFed(env: Env, calls: seq<ToolCall>, i: nat, arguments: string)
    requires i < |calls|
    ensures |CallParts(env, calls)| == |calls| && CallParts(env, calls)[i].ToolPart?
    ensures var fed := calls[i := calls[i].(arguments := Some(arguments))];
            && Missing(fed) == Missing(calls)
            && CallParts(env, fed) == CallParts(env, calls)[i := CallParts(env, calls)[i].(args := arguments)]
    decreases |calls|
  {
    var n := |calls| - 1;
    CallPartsAt(env, calls, i);
    var fed := calls[i := calls[i].(arguments := Some(arguments))];
    if i == n {
      assert fed[..n] == calls[..n];
    } else {
      assert fed[..n] == calls[..n][i := calls[i].(arguments := Some(arguments))];
      CallPartsFed(env, calls[..n], i, arguments);
    }
  }

  ghost predicate HasArgs(calls: seq<ToolCall>) {
    forall k :: 0 <= k < |calls| ==> calls[k].arguments.Some?
  }

  lemma {:induction false} InOrderPrefix(ds: seq<Delta>, n: nat)
    requires InOrder(ds) && n <= |ds|
    ensures InOrder(ds[..n])
  {
    forall i | 0 <= i < n && ds[..n][i].ToolOf?
      ensures 0 <= ds[..n][i].fragment.index.GetOr(0) <= |Calls(ds[..n][..i])|
    {
      assert ds[..n][..i] == ds[..i];
    }
  }

  // What a stream with its text first renders to.
  ghost predicate RendersTo(env: Env, ds: seq<Delta>) {
    && Render(env, ds) == Doc(HeadPart(AllText(ds)) + CallParts(env, Calls(ds)), 1 + Missing(Calls(ds)))
    && HasArgs(Calls(ds))
  }

  lemma {:induction false} NoCalls(ds: seq<Delta>)
    ensures Calls(ds) == [] <==> forall i :: 0 <= i < |ds| ==> ds[i].TextOf?
  {
    if ds != [] {
      var n := |ds| - 1;
      NoCalls(ds[..n]);
      assert forall i :: 0 <= i < n ==> ds[..n][i] == ds[i];
    }
  }

  lemma {:induction false} TextFirstParts(env: Env, ds: seq<Delta>)
    requires InOrder(ds) && TextFirst(ds) && TextsCarried(ds)
    ensures RendersTo(env, ds)
    decreases |ds|
  {
    if ds != [] {
      var n := |ds| - 1;
      InOrderPrefix(ds, n);
      TextFirstParts(env, ds[..n]);
      TextFirstStep(env, ds, n);
    }
  }

  lemma {:induction false} TextFirstStep(env: Env, ds: seq<Delta>, n: nat)
    requires n == |ds| - 1 && InOrder(ds) && TextFirst(ds) && TextsCarried(ds) && RendersTo(env, ds[..n])
    ensures RendersTo(env, ds)
  {
    var doc := Render(env, ds[..n]);
    assert Render(env, ds) == Add(env, doc, ds[n]);
    if ds[n].TextOf? {
      NoCalls(ds[..n]);
      assert Calls(ds[..n]) == [];
      TextFirstText(env, doc, AllText(ds[..n]), ds[n].text);
    } else {
      TextFirstTool(env, doc, AllText(ds[..n]), Calls(ds[..n]), ds[n].fragment);
      assert AllText(ds[..n]) + "" == AllText(ds[..n]);
    }
  }

  lemma {:induction false} TextFirstText(env: Env, doc: Doc, text: string, more: string)
    requires doc == Doc(HeadPart(text) + CallParts(env, []), 1) && more != ""
    ensures Add(env, doc, TextOf(more)) == Doc(HeadPart(text + more) + CallParts(env, []), 1)
  {
    assert "" + more == more;
    assert HeadPart(text) + CallParts(env, []) == HeadPart(text);
    assert Add(env, doc, TextOf(more)).parts == HeadPart(text + more);
  }

  lemma {:induction false} TextFirstTool(env: Env, doc: Doc, text: string, calls: seq<ToolCall>, f: Fragment)
    requires doc == Doc(HeadPart(text) + CallParts(env, calls), 1 + Missing(calls)) && HasArgs(calls)
    requires 0 <= f.index.GetOr(0) <= |calls|
    ensures Add(env, doc, ToolOf(f))
         == Doc(HeadPart(text) + CallParts(env, MergeCall(calls, f)), 1 + Missing(MergeCall(calls, f)))
    ensures HasArgs(MergeCall(calls, f)) && MergeCall(calls, f) != []
  {
    if f.index.GetOr(0) < |calls| { TextFirstFed(env, doc, text, calls, f); } else { TextFirstOpened(env, doc, text, calls, f); }
  }

  lemma {:induction false} TextFirstFed(env: Env, doc: Doc, text: string, calls: seq<ToolCall>, f: Fragment)
    requires doc == Doc(HeadPart(text) + CallParts(env, calls), 1 + Missing(calls)) && HasArgs(calls)
    requires 0 <= f.index.GetOr(0) < |calls|
    ensures Add(env, doc, ToolOf(f))
         == Doc(HeadPart(text) + CallParts(env, MergeCall(calls, f)), 1 + Missing(MergeCall(calls, f)))
    ensures HasArgs(MergeCall(calls, f)) && MergeCall(calls, f) != []
  {
    var i, h, parts := f.index.GetOr(0), |HeadPart(text)|, CallParts(env, calls);
    var args := calls[i].arguments.value + f.arguments.GetOr("");
    PositionOfCall(env, text, calls, i);
    CallPartsAt(env, calls, i);
    CallPartsFed(env, calls, i, args);
    assert doc.parts[h + i] == parts[i];
    assert doc.parts[h + i := parts[i].(args := args)] == HeadPart(text) + parts[i := parts[i].(args := args)];
  }

  lemma {:induction false} TextFirstOpened(env: Env, doc: Doc, text: string, calls: seq<ToolCall>, f: Fragment)
    requires doc == Doc(HeadPart(text) + CallParts(env, calls), 1 + Missing(calls)) && HasArgs(calls)
    requires f.index.GetOr(0) == |calls|
    ensures Add(env, doc, ToolOf(f))
         == Doc(HeadPart(text) + CallParts(env, MergeCall(calls, f)), 1 + Missing(MergeCall(calls, f)))
    ensures HasArgs(MergeCall(calls, f)) && MergeCall(calls, f) != []
  {
    var tc := ToolCall(f.id, f.name, Some(f.arguments.GetOr("")));
    PositionOfCall(env, text, calls, |calls|);
    CallPartsMore(env, calls, tc);
    assert MergeCall(calls, f) == calls + [tc];
    assert HeadPart(text) + (CallParts(env, calls) + [CallPart(env, calls, tc)])
        == (HeadPart(text) + CallParts(env, calls)) + [CallPart(env, calls, tc)];
  }

  // ── When streaming and not streaming agree ───────────────────────────────────────────────────

  lemma {:induction false} DeltasCarryText(chunks: seq<Chunk>)
    ensures TextsCarried(Deltas(chunks))
    decreases |chunks|
  {
    if chunks != [] { DeltasCarryText(chunks[..|chunks| - 1]); }
  }

  lemma {:induction false} AddKeepsKinds(env: Env, doc: Doc, d: Delta)
    ensures |Add(env, doc, d).parts| >= |doc.parts|
    ensures forall i :: 0 <= i < |doc.parts| ==> Add(env, doc, d).parts[i].TextPart? == doc.parts[i].TextPart?
  {
  }

  // Text after a tool call opens a text part that is not the first part.
  lemma {:induction false} LateText(env: Env, ds: seq<Delta>) returns (p: nat)
    requires !TextFirst(ds)
    ensures 1 <= p < |Render(env, ds).parts| && Render(env, ds).parts[p].TextPart?
    decreases |ds|
  {
    var n := |ds| - 1;
    var doc := Render(env, ds[..n]);
    assert Render(env, ds) == Add(env, doc, ds[n]);
    AddKeepsKinds(env, doc, ds[n]);
    assert forall i :: 0 <= i < n ==> ds[..n][i] == ds[i];
    if !TextFirst(ds[..n]) {
      p := LateText(env, ds[..n]);
    } else {
      var i, j :| 0 <= i < j < |ds| && ds[i].ToolOf? && !ds[j].ToolOf?;
      var tool := ds[i].fragment.index.GetOr(0);
      ArgsKept(env, ds[..n], tool);
      NamesAny(ds[..n], i, tool);
      var q := Position(doc.parts, tool).value;
      p := |Render(env, ds).parts| - 1;
      assert p > q;
    }
  }

  lemma {:induction false} ToolBlocksAreTools(env: Env, calls: seq<ToolCall>, minted: nat)
    ensures |ToolBlocks(env, calls, minted)| == |calls|
    ensures forall k :: 0 <= k < |calls| ==> ToolBlocks(env, calls, minted)[k].Tool?
  {
    if calls != [] { ToolBlocksAreTools(env, calls[..|calls| - 1], minted); }
  }

  lemma {:induction false} ShowCalls(env: Env, calls: seq<ToolCall>)
    ensures ShowAll(CallParts(env, calls)) == ToolBlocks(env, calls, 1)
  {
    if calls != [] {
      var before := calls[..|calls| - 1];
      ShowCalls(env, before);
      assert ShowAll(CallParts(env, calls)) == ShowAll(CallParts(env, before)) + [Show(CallParts(env, calls)[|CallParts(env, before)|])];
    }
  }

  lemma {:induction false} ContentShown(env: Env, ds: seq<Delta>)
    requires InOrder(ds) && TextFirst(ds) && TextsCarried(ds)
    ensures ShowAll(Render(env, ds).parts) == TextHead(AllText(ds)) + ToolBlocks(env, Calls(ds), 1)
  {
    TextFirstParts(env, ds);
    ShowCalls(env, Calls(ds));
    var head, calls := HeadPart(AllText(ds)), CallParts(env, Calls(ds));
    assert ShowAll(head + calls) == ShowAll(head) + ShowAll(calls);
  }

  lemma {:induction false} NothingCarried(env: Env, ds: seq<Delta>)
    requires TextsCarried(ds)
    ensures ds == [] <==> TextHead(AllText(ds)) + ToolBlocks(env, Calls(ds), 1) == []
  {
    NoCalls(ds);
    ToolBlocksAreTools(env, Calls(ds), 1);
    if ds != [] && Calls(ds) == [] {
      assert ds[|ds| - 1].TextOf?;
      assert |AllText(ds)| >= |ds[|ds| - 1].text| > 0;
    }
  }

  predicate KindsMatch(a: seq<Block>, b: seq<Block>) {
    |a| == |b| && forall i :: 0 <= i < |a| ==> a[i].Text? == b[i].Text?
  }

  // Where the two differ, they differ in how many blocks there are or in the kind of one.
  lemma {:induction false} EqualOrOtherKinds(env: Env, chunks: seq<Chunk>)
    requires InOrder(Deltas(chunks))
    ensures var same := TextFirst(Deltas(chunks)) && (Deltas(chunks) != [] || chunks == []);
      && (same ==> Read(chunks, env) == Content(env, Merged(chunks), 1))
      && (!same ==> !KindsMatch(Read(chunks, env), Content(env, Merged(chunks), 1)))
  {
    var ds, whole := Deltas(chunks), Content(env, Merged(chunks), 1);
    DeltasCarryText(chunks);
    if TextFirst(ds) {
      ContentShown(env, ds);
      NothingCarried(env, ds);
    } else {
      var p := LateText(env, ds);
      assert Read(chunks, env)[p].Text?;
      ToolBlocksAreTools(env, Calls(ds), 1);
      assert p < |whole| ==> whole[p].Tool?;
    }
  }

  // For tool calls numbered as they appear: what a client reads from the stream is what the
  // unstreamed translation of the merged completion holds exactly when no text follows a tool
  // call, and the stream either carried content or never carried a chunk at all. It is the same whether
  // arguments are compared as strings or, read by the same rule, as JSON.
  lemma {:induction false} StreamedEqualsUnstreamed(env: Env, chunks: seq<Chunk>)
    requires InOrder(Deltas(chunks))
    ensures Read(chunks, env) == Content(env, Merged(chunks), 1)
       <==> TextFirst(Deltas(chunks)) && (Deltas(chunks) != [] || chunks == [])
    ensures AllInputs(env, Read(chunks, env)) == AllInputs(env, Content(env, Merged(chunks), 1))
       <==> TextFirst(Deltas(chunks)) && (Deltas(chunks) != [] || chunks == [])
  {
    EqualOrOtherKinds(env, chunks);
    InputsMatch(env, Read(chunks, env), Content(env, Merged(chunks), 1));
  }

  lemma {:induction false} InputsMatch(env: Env, a: seq<Block>, b: seq<Block>)
    ensures AllInputs(env, a) == AllInputs(env, b) ==> KindsMatch(a, b)
  {
    var x, y := AllInputs(env, a), AllInputs(env, b);
    assert |x| == |a| && |y| == |b|;
    assert forall i :: 0 <= i < |a| ==> x[i].Text? == a[i].Text?;
    assert forall i :: 0 <= i < |b| ==> y[i].Text? == b[i].Text?;
  }

  // The reply stops for the reason last given: for length, for tool calls, or at the end of the turn.
  lemma {:induction false} StopSaid(env: Env, model: string, chunks: seq<Chunk>)
    ensures var es := Run(env, model, chunks);
            && |es| >= 2 && es[|es| - 2].MessageDelta?
            && (es[|es| - 2].stop == MaxTokens <==> LastFinish(chunks) == Some("length"))
            && (es[|es| - 2].stop == ToolUse <==> LastFinish(chunks) == Some("tool_calls"))
  {
    RunEnds(env, model, chunks);
  }

  // The stop reason agrees on every stream.
  lemma {:induction false} StopReasonAgrees(env: Env, model: string, chunks: seq<Chunk>)
    ensures var es := Run(env, model, chunks);
            |es| >= 2 && es[|es| - 2].MessageDelta?
            && es[|es| - 2].stop == MapStopReason(Merged(chunks).finish.GetOr(""))
  {
    RunEnds(env, model, chunks);
  }

  // The output tokens agree exactly when the stream reported some: the unstreamed reply has 0 where
  // none were reported, and the stream's end never has.
  lemma {:induction false} TokensAgree(env: Env, model: string, chunks: seq<Chunk>)
    ensures var es := Run(env, model, chunks);
            |es| >= 2 && es[|es| - 2].MessageDelta?
            && (es[|es| - 2].outputTokens == Merged(chunks).usage.GetOr(Usage(None, None)).completion.GetOr(0)
                <==> ReportedTokens(chunks).Some?)
  {
    RunEnds(env, model, chunks);
  }

  // A stream whose text resumes after a tool call: read as two blocks, merged into one.
  lemma {:induction false} TextAfterToolDiffers(env: Env, call: Fragment, text: string)
    requires text != "" && call.index.GetOr(0) == 0
    ensures var chunks := [Chunk(None, None, None, Some(Choice(None, [call], None))),
                           Chunk(None, None, None, Some(Choice(Some(text), [], None)))];
            InOrder(Deltas(chunks)) && Read(chunks, env) != Content(env, Merged(chunks), 1)
  {
    var c1 := Chunk(None, None, None, Some(Choice(None, [call], None)));
    var c2 := Chunk(None, None, None, Some(Choice(Some(text), [], None)));
    var chunks := [c1, c2];
    TwoDeltas(c1, c2, ToolOf(call), TextOf(text));
    var ds := Deltas(chunks);
    assert ds[..0] == [] && |Calls(ds[..0])| == 0;
    assert !TextFirst(ds) by { assert ds[0].ToolOf? && !ds[1].ToolOf?; }
    StreamedEqualsUnstreamed(env, chunks);
  }

  lemma {:induction false} TwoDeltas(c1: Chunk, c2: Chunk, d1: Delta, d2: Delta)
    requires ChunkDeltas(c1) == [d1] && ChunkDeltas(c2) == [d2]
    ensures Deltas([c1, c2]) == [d1, d2]
  {
    assert [c1, c2][..1] == [c1] && [c1][..0] == [];
    assert Deltas([c1]) == [d1];
  }
}
