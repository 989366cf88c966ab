// The stream translator of src/lib/anthropic.ts (lines 223-380): OpenAI chunks in, Anthropic
// content-block events out. First what one chunk does, as functions on the translator's fields;
// then the class, whose methods do it step by step.
module AnthropicStream {
  import opened Options
  import opened Text

  // ── What comes in: one parsed SSE payload ────────────────────────────────────────────────────

  datatype Usage = Usage(prompt: Option<int>, completion: Option<int>)
  datatype Fragment = Fragment(index: Option<int>, id: Option<string>, name: Option<string>, arguments: Option<string>)
  datatype Choice = Choice(content: Option<string>, tools: seq<Fragment>, finish: Option<string>)
  // `error` holds the failure's own message, if it has one.
  datatype Chunk = Chunk(model: Option<string>, error: Option<Option<string>>, usage: Option<Usage>, choice: Option<Choice>)

  // ── What goes out ────────────────────────────────────────────────────────────────────────────

  datatype Kind = TextKind | ToolKind(id: string, name: string)
  datatype StopReason = EndTurn | MaxTokens | ToolUse
  datatype Event =
    | MessageStart(id: string, model: string, inputTokens: int)
    | BlockStart(index: nat, kind: Kind)
    | TextDelta(index: nat, text: string)
    | ArgsDelta(index: nat, partial: string)
    | BlockStop(index: nat)
    | MessageDelta(stop: StopReason, outputTokens: int)
    | MessageStop
    | ErrorEvent(message: string)

  // What the translator calls and cannot see into: JSON.parse (None when it throws), the id supply
  // and the token counter.
  // `json` gives the JSON value a text holds, as one text a value, if it holds one.
  datatype Env = Env(parse: string -> Option<Chunk>, freshId: nat -> string, countTokens: string -> nat,
                     json: string -> Option<string>)

  function MapStopReason(finish: string): StopReason {
    if finish == "length" then MaxTokens
    else if finish == "tool_calls" then ToolUse
    else EndTurn
  }

  // ── The translator's fields, but for the line buffer ─────────────────────────────────────────

  // The index of the open text block, or -1.
  type Index = i: int | -1 <= i witness -1

  // toolBlocks is a JS Map: pairs of (OpenAI index, block index) in insertion order.
  datatype Core = Core(
    started: bool, textIndex: Index, nextIndex: nat, toolBlocks: seq<(int, nat)>, stopReason: Option<StopReason>,
    outputTokens: int, inputTokens: int, usageReported: bool, content: string, model: string, id: string, minted: nat)

  type Step = (Core, seq<Event>)

  function NewCore(env: Env, model: string): Core {
    Core(false, -1, 0, [], None, 0, 0, false, "", model, env.freshId(0), 1)
  }

  function Lookup(tools: seq<(int, nat)>, tool: int): Option<nat> {
    if tools == [] then None
    else if tools[0].0 == tool then Some(tools[0].1)
    else Lookup(tools[1..], tool)
  }

  function Begin(c: Core, model: Option<string>): Step {
    var c1 := c.(started := true, model := model.GetOr(c.model));
    (c1, [MessageStart(c1.id, c1.model, c1.inputTokens)])
  }

  function TakeUsage(c: Core, u: Usage): Core {
    c.(usageReported := true, inputTokens := u.prompt.GetOr(c.inputTokens), outputTokens := u.completion.GetOr(c.outputTokens))
  }

  function TakeText(c: Core, content: Option<string>): Step {
    if content.None? || content.value == "" then (c, [])
    else
      var c1 := c.(content := c.content + content.value);
      if c.textIndex == -1 then
        (c1.(textIndex := c.nextIndex, nextIndex := c.nextIndex + 1),
         [BlockStart(c.nextIndex, TextKind), TextDelta(c.nextIndex, content.value)])
      else (c1, [TextDelta(c.textIndex, content.value)])
  }

  // Open the block of a tool call not seen before.
  function OpenTool(env: Env, c: Core, f: Fragment): Step {
    var stop := if c.textIndex != -1 then [BlockStop(c.textIndex)] else [];
    var kind := ToolKind(f.id.GetOr(env.freshId(c.minted)), f.name.GetOr(""));
    (c.(textIndex := -1, nextIndex := c.nextIndex + 1, toolBlocks := c.toolBlocks + [(f.index.GetOr(0), c.nextIndex)],
        minted := if f.id.None? then c.minted + 1 else c.minted),
     stop + [BlockStart(c.nextIndex, kind)])
  }

  function TakeTool(env: Env, c: Core, f: Fragment): Step {
    var (c1, opening) := if Lookup(c.toolBlocks, f.index.GetOr(0)).None? then OpenTool(env, c, f) else (c, []);
    var block := Lookup(c1.toolBlocks, f.index.GetOr(0));
    var args := f.arguments.GetOr("");
    (c1, opening + if args != "" && block.Some? then [ArgsDelta(block.value, args)] else [])
  }

  function TakeTools(env: Env, c: Core, fs: seq<Fragment>): Step
    decreases fs
  {
    if fs == [] then (c, [])
    else
      var (c1, out1) := TakeTool(env, c, fs[0]);
      var (c2, out2) := TakeTools(env, c1, fs[1..]);
      (c2, out1 + out2)
  }

  function TakeFinish(c: Core, finish: Option<string>): Core {
    if finish.Some? && finish.value != "" then c.(stopReason := Some(MapStopReason(finish.value))) else c
  }

  function TakeChoice(env: Env, c: Core, choice: Choice): Step {
    var (c1, text) := TakeText(c, choice.content);
    var (c2, tools) := TakeTools(env, c1, choice.tools);
    (TakeFinish(c2, choice.finish), text + tools)
  }

  // consume(), once the payload is parsed.
  function Take(env: Env, c: Core, chunk: Chunk): Step {
    var (c0, begun) := if c.started then (c, []) else Begin(c, chunk.model);
    if chunk.error.Some? then
      (c0, begun + [ErrorEvent(chunk.error.value.GetOr("The stream ended early."))])
    else
      var c1 := if chunk.usage.Some? then TakeUsage(c0, chunk.usage.value) else c0;
      if chunk.choice.None? then (c1, begun)
      else
        var (c2, more) := TakeChoice(env, c1, chunk.choice.value);
        (c2, begun + more)
  }

  function Feed(env: Env, c: Core, chunks: seq<Chunk>): Step {
    if chunks == [] then (c, [])
    else
      var (c1, out1) := Feed(env, c, chunks[..|chunks| - 1]);
      var (c2, out2) := Take(env, c1, chunks[|chunks| - 1]);
      (c2, out1 + out2)
  }

  function Stops(tools: seq<(int, nat)>): seq<Event> {
    if tools == [] then [] else [BlockStop(tools[0].1)] + Stops(tools[1..])
  }

  // The blocks end() closes, or the empty block of a stream that never began.
  function CloseBlocks(c: Core): Step {
    if !c.started then
      var (c1, begun) := Begin(c, None);
      (c1, begun + [BlockStart(0, TextKind), BlockStop(0)])
    else
      (c.(textIndex := -1, toolBlocks := []),
       (if c.textIndex != -1 then [BlockStop(c.textIndex)] else []) + Stops(c.toolBlocks))
  }

  function Max(a: int, b: int): int { if a >= b then a else b }

  function Finish(env: Env, c: Core): Step {
    var (c1, closed) := CloseBlocks(c);
    var tokens := if c.usageReported then c.outputTokens else Max(1, env.countTokens(c.content));
    (c1, closed + [MessageDelta(c.stopReason.GetOr(EndTurn), tokens), MessageStop])
  }

  // A whole stream of parsed chunks, then end().
  function Run(env: Env, model: string, chunks: seq<Chunk>): seq<Event> {
    var (c, out) := Feed(env, NewCore(env, model), chunks);
    out + Finish(env, c).1
  }

  // ── Lines ────────────────────────────────────────────────────────────────────────────────────

  // The chunk a payload holds, if it holds one.
  function ChunkOf(env: Env, payload: string): seq<Chunk> {
    if payload == "" || payload == "[DONE]" || env.parse(payload).None? then [] else [env.parse(payload).value]
  }

  // The chunk a line holds, if it holds one.
  function ChunkOfLine(env: Env, line: string): seq<Chunk> {
    var t := Trim(line);
    if "data:" <= t then ChunkOf(env, Trim(t[5..])) else []
  }

  // Where the first line ends: its newline, or the end of the text when there is none.
  function LineEnd(s: string): (n: nat)
    ensures n <= |s|
    ensures n < |s| ==> s[n] == '\n'
    ensures '\n' !in s[..n]
  {
    if s == [] || s[0] == '\n' then 0
    else
      var n := LineEnd(s[1..]);
      assert s[..n + 1] == [s[0]] + s[1..][..n];
      n + 1
  }

  // The chunks in the complete lines of a text, in order; and the partial line left after them.
  function Parsed(env: Env, text: string): seq<Chunk>
    decreases |text|
  {
    var n := LineEnd(text);
    if n == |text| then [] else ChunkOfLine(env, text[..n]) + Parsed(env, text[n + 1..])
  }

  function Partial(text: string): string
    decreases |text|
  {
    var n := LineEnd(text);
    if n == |text| then text else Partial(text[n + 1..])
  }

  // ── The translator ───────────────────────────────────────────────────────────────────────────

  class AnthropicStreamTranslator {
    const env: Env
    const id: string
    var buffer: string
    var started: bool
    var textIndex: Index
    var nextIndex: nat
    var toolBlocks: seq<(int, nat)>
    var stopReason: Option<StopReason>
    var outputTokens: int
    var inputTokens: int
    var usageReported: bool
    var content: string
    var model: string
    var minted: nat

    ghost function Fields(): Core
      reads this
    {
      Core(started, textIndex, nextIndex, toolBlocks, stopReason, outputTokens, inputTokens, usageReported,
           content, model, id, minted)
    }

    constructor (env: Env, model: string)
      ensures this.env == env && buffer == "" && Fields() == NewCore(env, model)
    {
      this.env, id := env, env.freshId(0);
      buffer, started, textIndex, nextIndex, toolBlocks := "", false, -1, 0, [];
      stopReason, outputTokens, inputTokens, usageReported := None, 0, 0, false;
      content, this.model, minted := "", model, 1;
    }

    method SetModel(model: string)
      modifies this`model
      ensures Fields() == old(Fields()).(model := if model != "" then model else old(this.model))
    {
      if model != "" { this.model := model; }
    }

    method BeginMessage(model: Option<string>) returns (out: seq<Event>)
      modifies this`started, this`model
      ensures (Fields(), out) == Begin(old(Fields()), model)
    {
      started := true;
      if model.Some? { this.model := model.value; }
      out := [MessageStart(id, this.model, inputTokens)];
    }

    method Consume(payload: string) returns (out: seq<Event>)
      modifies this
      ensures buffer == old(buffer)
      ensures (Fields(), out) == Feed(env, old(Fields()), ChunkOf(env, payload))
    {
      out := [];
      if payload == "" || payload == "[DONE]" { return; }
      var parsed := env.parse(payload);
      if parsed.None? { return; }
      var chunk := parsed.value;
      FeedOne(env, Fields(), chunk);
      if !started { out := BeginMessage(chunk.model); }
      if chunk.error.Some? {
        out := out + [ErrorEvent(chunk.error.value.GetOr("The stream ended early."))];
        return;
      }
      if chunk.usage.Some? {
        var usage := chunk.usage.value;
        usageReported := true;
        inputTokens := usage.prompt.GetOr(inputTokens);
        outputTokens := usage.completion.GetOr(outputTokens);
      }
      if chunk.choice.None? { return; }
      var more := ConsumeChoice(chunk.choice.value);
      out := out + more;
    }

    // The text, the tools and the finish reason of a chunk.
    method ConsumeChoice(choice: Choice) returns (out: seq<Event>)
      modifies this
      ensures buffer == old(buffer)
      ensures (Fields(), out) == TakeChoice(env, old(Fields()), choice)
    {
      var text := ConsumeText(choice.content);
      var tools := ConsumeTools(choice.tools);
      out := text + tools;
      if choice.finish.Some? && choice.finish.value != "" { stopReason := Some(MapStopReason(choice.finish.value)); }
    }

    // The text run of a chunk.
    method ConsumeText(text: Option<string>) returns (out: seq<Event>)
      modifies this
      ensures buffer == old(buffer)
      ensures (Fields(), out) == TakeText(old(Fields()), text)
    {
      out := [];
      if text.Some? && text.value != "" {
        content := content + text.value;
        if textIndex == -1 {
          textIndex := nextIndex;
          nextIndex := nextIndex + 1;
          out := [BlockStart(textIndex, TextKind)];
        }
        out := out + [TextDelta(textIndex, text.value)];
      }
      assert out == TakeText(old(Fields()), text).1;
    }

    // The loop over a chunk's tool-call fragments.
    method ConsumeTools(fragments: seq<Fragment>) returns (out: seq<Event>)
      modifies this
      ensures buffer == old(buffer)
      ensures (Fields(), out) == TakeTools(env, old(Fields()), fragments)
    {
      out := [];
      ghost var all := TakeTools(env, Fields(), fragments);
      assert fragments[0..] == fragments;
      for i := 0 to |fragments|
        invariant buffer == old(buffer)
        invariant all.0 == TakeTools(env, Fields(), fragments[i..]).0
        invariant all.1 == out + TakeTools(env, Fields(), fragments[i..]).1
      {
        ghost var c, left := Fields(), fragments[i..];
        assert left[0] == fragments[i] && left[1..] == fragments[i + 1..];
        var one := ConsumeTool(fragments[i]);
        Regroup(out, one, TakeTools(env, Fields(), left[1..]).1);
        out := out + one;
      }
      assert out + [] == out;
    }

    method ConsumeTool(tc: Fragment) returns (out: seq<Event>)
      modifies this
      ensures buffer == old(buffer)
      ensures (Fields(), out) == TakeTool(env, old(Fields()), tc)
    {
      out := [];
      var oaiIdx := tc.index.GetOr(0);
      if Lookup(toolBlocks, oaiIdx).None? {
        if textIndex != -1 {
          out := out + [BlockStop(textIndex)];
          textIndex := -1;
        }
        var idx := nextIndex;
        nextIndex := nextIndex + 1;
        LookupAppend(toolBlocks, oaiIdx, idx);
        toolBlocks := toolBlocks + [(oaiIdx, idx)];
        var toolId := tc.id.GetOr(env.freshId(minted));
        if tc.id.None? { minted := minted + 1; }
        out := out + [BlockStart(idx, ToolKind(toolId, tc.name.GetOr("")))];
      }
      if tc.arguments.GetOr("") != "" {
        out := out + [ArgsDelta(Lookup(toolBlocks, oaiIdx).value, tc.arguments.value)];
      }
      assert out == TakeTool(env, old(Fields()), tc).1;
    }

    // Feed raw text; process complete lines only, the rest waits in the buffer.
    method Push(chunk: string) returns (out: seq<Event>)
      modifies this
      ensures buffer == Partial(old(buffer) + chunk)
      ensures (Fields(), out) == Feed(env, old(Fields()), Parsed(env, old(buffer) + chunk))
    {
      buffer := buffer + chunk;
      out := [];
      ghost var c0, all, done := Fields(), buffer, [];
      while LineEnd(buffer) != |buffer|
        invariant Partial(all) == Partial(buffer)
        invariant Parsed(env, all) == done + Parsed(env, buffer)
        invariant (Fields(), out) == Feed(env, c0, done)
        decreases |buffer|
      {
        ghost var held := ChunkOfLine(env, buffer[..LineEnd(buffer)]);
        Regroup(done, held, Parsed(env, buffer[LineEnd(buffer) + 1..]));
        FeedAppend(env, c0, done, held);
        var more := NextLine();
        out := out + more;
        done := done + held;
      }
      assert done + [] == done;
    }

    // Take the first complete line off the buffer and consume it.
    method NextLine() returns (out: seq<Event>)
      requires LineEnd(buffer) != |buffer|
      modifies this
      ensures buffer == old(buffer)[LineEnd(old(buffer)) + 1..]
      ensures (Fields(), out) == Feed(env, old(Fields()), ChunkOfLine(env, old(buffer)[..LineEnd(old(buffer))]))
    {
      var nl := LineEnd(buffer);
      var line := Trim(buffer[..nl]);
      buffer := buffer[nl + 1..];
      out := [];
      if "data:" <= line { out := Consume(Trim(line[5..])); }
    }

    // Flush the terminal events.
    method End() returns (out: seq<Event>)
      modifies this
      ensures (Fields(), out) == Finish(env, old(Fields()))
    {
      out := [];
      if !started {
        out := BeginMessage(None);
        out := out + [BlockStart(0, TextKind), BlockStop(0)];
      } else {
        if textIndex != -1 {
          out := out + [BlockStop(textIndex)];
          textIndex := -1;
        }
        ghost var text, tools := out, toolBlocks;
        assert tools[0..] == tools;
        for i := 0 to |toolBlocks|
          invariant Fields() == old(Fields()).(textIndex := -1)
          invariant text + Stops(tools) == out + Stops(tools[i..])
        {
          assert tools[i..][1..] == tools[i + 1..];
          Regroup(out, [BlockStop(toolBlocks[i].1)], Stops(tools[i + 1..]));
          out := out + [BlockStop(toolBlocks[i].1)];
        }
        assert out + [] == out;
        toolBlocks := [];
      }
      var tokens := if usageReported then outputTokens else Max(1, env.countTokens(content));
      out := out + [MessageDelta(stopReason.GetOr(EndTurn), tokens), MessageStop];
      assert out == Finish(env, old(Fields())).1;
    }
  }

  lemma {:induction false} Regroup<T>(a: seq<T>, b: seq<T>, c: seq<T>)
    ensures a + (b + c) == (a + b) + c
  {
  }

  lemma {:induction false} LookupAppend(tools: seq<(int, nat)>, tool: int, block: nat)
    requires Lookup(tools, tool).None?
    ensures Lookup(tools + [(tool, block)], tool) == Some(block)
  {
    if tools != [] {
      assert (tools + [(tool, block)])[1..] == tools[1..] + [(tool, block)];
      LookupAppend(tools[1..], tool, block);
    }
  }

  lemma {:induction false} FeedOne(env: Env, c: Core, chunk: Chunk)
    ensures Feed(env, c, [chunk]) == Take(env, c, chunk)
  {
    assert [chunk][..0] == [];
    assert Feed(env, c, []) == (c, []);
    assert [] + Take(env, c, chunk).1 == Take(env, c, chunk).1;
  }

  // Feeding two batches in turn is feeding them as one.
  lemma {:induction false} FeedAppend(env: Env, c: Core, a: seq<Chunk>, b: seq<Chunk>)
    ensures Feed(env, c, a + b) == (Feed(env, Feed(env, c, a).0, b).0, Feed(env, c, a).1 + Feed(env, Feed(env, c, a).0, b).1)
    decreases |b|
  {
    if b == [] {
      assert a + b == a;
      assert Feed(env, c, a).1 + [] == Feed(env, c, a).1;
    } else {
      assert (a + b)[..|a + b| - 1] == a + b[..|b| - 1];
      FeedAppend(env, c, a, b[..|b| - 1]);
      var c1 := Feed(env, c, a).0;
      var c2 := Feed(env, c1, b[..|b| - 1]).0;
      Regroup(Feed(env, c, a).1, Feed(env, c1, b[..|b| - 1]).1, Take(env, c2, b[|b| - 1]).1);
    }
  }
}
