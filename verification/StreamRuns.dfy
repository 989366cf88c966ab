// Whole runs of the stream translator: every run keeps the block protocol, and a client that follows
// the protocol reads exactly the parts the chunks carried.
module StreamRuns {
  import opened Options
  import opened AnthropicStream

  // ── The protocol, as an automaton over events ────────────────────────────────────────────────

  datatype Phase = Waiting | Streaming | Closing | Done

  // `open` holds the open blocks: true for a text block, false for a tool block.
  datatype Watch = Watch(phase: Phase, next: nat, open: map<nat, bool>)

  // Blocks are numbered 0,1,2,..., fed only while open and in their own kind, and stopped once. At
  // most one text block is open, and none when a tool block starts. Everything is stopped before
  // the one message_delta, and message_stop is last.
  function Accept(w: Watch, e: Event): Option<Watch> {
    match e
    case MessageStart(_, _, _) =>
      if w.phase == Waiting then Some(w.(phase := Streaming)) else None
    case BlockStart(i, kind) =>
      if w.phase == Streaming && i == w.next && (forall j | j in w.open :: !w.open[j])
      then Some(w.(next := i + 1, open := w.open[i := kind.TextKind?])) else None
    case TextDelta(i, _) =>
      if w.phase == Streaming && i in w.open && w.open[i] then Some(w) else None
    case ArgsDelta(i, _) =>
      if w.phase == Streaming && i in w.open && !w.open[i] then Some(w) else None
    case BlockStop(i) =>
      if w.phase == Streaming && i in w.open then Some(w.(open := w.open - {i})) else None
    case MessageDelta(_, _) =>
      if w.phase == Streaming && w.open == map[] then Some(w.(phase := Closing)) else None
    case MessageStop =>
      if w.phase == Closing then Some(w.(phase := Done)) else None
    case ErrorEvent(_) =>
      if w.phase == Streaming then Some(w) else None
  }

  // ── What a client reads ──────────────────────────────────────────────────────────────────────

  datatype Block = Text(text: string) | Tool(id: string, name: string, args: string)

  function Put(blocks: seq<Block>, e: Event): seq<Block> {
    match e
    case BlockStart(_, TextKind) => blocks + [Text("")]
    case BlockStart(_, ToolKind(id, name)) => blocks + [Tool(id, name, "")]
    case TextDelta(i, t) =>
      if i < |blocks| && blocks[i].Text? then blocks[i := Text(blocks[i].text + t)] else blocks
    case ArgsDelta(i, a) =>
      if i < |blocks| && blocks[i].Tool? then blocks[i := blocks[i].(args := blocks[i].args + a)] else blocks
    case _ => blocks
  }

  // A client: the protocol state, None once the protocol is broken, and the blocks so far.
  datatype Client = Client(watch: Option<Watch>, blocks: seq<Block>)

  function See(v: Client, e: Event): Client {
    Client(if v.watch.Some? then Accept(v.watch.value, e) else None, Put(v.blocks, e))
  }

  function SeeAll(v: Client, es: seq<Event>): Client
    decreases es
  {
    if es == [] then v else SeeAll(See(v, es[0]), es[1..])
  }

  lemma {:induction false} SeeAppend(v: Client, a: seq<Event>, b: seq<Event>)
    ensures SeeAll(v, a + b) == SeeAll(SeeAll(v, a), b)
    decreases a
  {
    if a == [] {
      assert a + b == b;
    } else {
      assert (a + b)[1..] == a[1..] + b;
      SeeAppend(See(v, a[0]), a[1..], b);
    }
  }

  lemma {:induction false} SeeOne(v: Client, e: Event)
    ensures SeeAll(v, [e]) == See(v, e)
  {
    assert [e][1..] == [];
  }

  lemma {:induction false} SeeTwo(v: Client, d: Event, e: Event)
    ensures SeeAll(v, [d, e]) == See(See(v, d), e)
  {
    assert [d, e][1..] == [e];
    SeeOne(See(v, d), e);
  }

  const NewClient := Client(Some(Watch(Waiting, 0, map[])), [])

  // ── The parts the chunks carry, told simply ──────────────────────────────────────────────────

  datatype Delta = TextOf(text: string) | ToolOf(fragment: Fragment)
  datatype Part = TextPart(text: string) | ToolPart(tool: int, id: string, name: string, args: string)
  datatype Doc = Doc(parts: seq<Part>, minted: nat)

  function ToolDeltas(fs: seq<Fragment>): seq<Delta> {
    seq(|fs|, i requires 0 <= i < |fs| => ToolOf(fs[i]))
  }

  function ChoiceDeltas(choice: Choice): seq<Delta> {
    var text := choice.content.GetOr("");
    (if text != "" then [TextOf(text)] else []) + ToolDeltas(choice.tools)
  }

  // The pieces of content one chunk carries: none when it is an error frame.
  function ChunkDeltas(chunk: Chunk): seq<Delta> {
    if chunk.error.Some? || chunk.choice.None? then [] else ChoiceDeltas(chunk.choice.value)
  }

  function Deltas(chunks: seq<Chunk>): seq<Delta> {
    if chunks == [] then [] else Deltas(chunks[..|chunks| - 1]) + ChunkDeltas(chunks[|chunks| - 1])
  }

  // The part that carries a tool's fragments.
  function Position(parts: seq<Part>, tool: int): (p: Option<nat>)
    ensures p.Some? ==> p.value < |parts| && parts[p.value].ToolPart? && parts[p.value].tool == tool
    ensures p.None? ==> forall i :: 0 <= i < |parts| && parts[i].ToolPart? ==> parts[i].tool != tool
  {
    if parts == [] then None
    else
      var n := |parts| - 1;
      var before := Position(parts[..n], tool);
      if before.Some? then before
      else if parts[n].ToolPart? && parts[n].tool == tool then Some(n)
      else None
  }

  // Text goes on in a last text part, or opens one; a tool's fragments all go to its one part.
  function Add(env: Env, doc: Doc, d: Delta): Doc {
    var parts, n := doc.parts, |doc.parts|;
    match d
    case TextOf(t) =>
      if n > 0 && parts[n - 1].TextPart?
      then doc.(parts := parts[n - 1 := TextPart(parts[n - 1].text + t)])
      else doc.(parts := parts + [TextPart(t)])
    case ToolOf(f) =>
      var tool, args := f.index.GetOr(0), f.arguments.GetOr("");
      var p := Position(parts, tool);
      if p.Some? then doc.(parts := parts[p.value := parts[p.value].(args := parts[p.value].args + args)])
      else Doc(parts + [ToolPart(tool, f.id.GetOr(env.freshId(doc.minted)), f.name.GetOr(""), args)],
               if f.id.None? then doc.minted + 1 else doc.minted)
  }

  function AddAll(env: Env, doc: Doc, ds: seq<Delta>): Doc {
    if ds == [] then doc else Add(env, AddAll(env, doc, ds[..|ds| - 1]), ds[|ds| - 1])
  }

  function Render(env: Env, ds: seq<Delta>): Doc { AddAll(env, Doc([], 1), ds) }

  lemma {:induction false} AddAppend(env: Env, doc: Doc, a: seq<Delta>, b: seq<Delta>)
    ensures AddAll(env, doc, a + b) == AddAll(env, AddAll(env, doc, a), b)
    decreases |b|
  {
    if b == [] {
      assert a + b == a;
    } else {
      assert (a + b)[..|a + b| - 1] == a + b[..|b| - 1];
      AddAppend(env, doc, a, b[..|b| - 1]);
    }
  }

  function Show(p: Part): Block {
    match p
    case TextPart(t) => Text(t)
    case ToolPart(_, id, name, args) => Tool(id, name, args)
  }

  function ShowAll(parts: seq<Part>): seq<Block> {
    seq(|parts|, i requires 0 <= i < |parts| => Show(parts[i]))
  }

  // ── The translator's fields against the parts so far ─────────────────────────────────────────

  function ToolsOf(parts: seq<Part>): seq<(int, nat)> {
    if parts == [] then []
    else
      var n := |parts| - 1;
      ToolsOf(parts[..n]) + if parts[n].ToolPart? then [(parts[n].tool, n)] else []
  }

  function OpenText(parts: seq<Part>): Index {
    if parts != [] && parts[|parts| - 1].TextPart? then |parts| - 1 else -1
  }

  // Tool blocks stay open to the end; a text block is open while it is the last.
  function OpenBlocks(parts: seq<Part>): map<nat, bool> {
    map i: nat | i < |parts| && (parts[i].ToolPart? || i == |parts| - 1) :: parts[i].TextPart?
  }

  ghost predicate Tracks(c: Core, doc: Doc) {
    && c.nextIndex == |doc.parts| && c.minted == doc.minted
    && c.textIndex == OpenText(doc.parts) && c.toolBlocks == ToolsOf(doc.parts)
  }

  function ClientOf(parts: seq<Part>): Client {
    Client(Some(Watch(Streaming, |parts|, OpenBlocks(parts))), ShowAll(parts))
  }

  lemma {:induction false} LookupLast(tools: seq<(int, nat)>, entry: (int, nat), tool: int)
    ensures Lookup(tools + [entry], tool)
         == if Lookup(tools, tool).Some? then Lookup(tools, tool)
            else if entry.0 == tool then Some(entry.1) else None
  {
    var all := tools + [entry];
    if tools == [] {
      assert all[1..] == [];
    } else {
      assert all[1..] == tools[1..] + [entry];
      LookupLast(tools[1..], entry, tool);
    }
  }

  lemma {:induction false} LookupIsPosition(parts: seq<Part>, tool: int)
    ensures Lookup(ToolsOf(parts), tool) == Position(parts, tool)
  {
    if parts != [] {
      var n := |parts| - 1;
      LookupIsPosition(parts[..n], tool);
      if parts[n].ToolPart? {
        LookupLast(ToolsOf(parts[..n]), (parts[n].tool, n), tool);
      } else {
        assert ToolsOf(parts) == ToolsOf(parts[..n]);
      }
    }
  }

  lemma {:induction false} SameTools(a: seq<Part>, b: seq<Part>)
    requires |a| == |b|
    requires forall i :: 0 <= i < |a| ==> a[i].ToolPart? == b[i].ToolPart? && (a[i].ToolPart? ==> a[i].tool == b[i].tool)
    ensures ToolsOf(a) == ToolsOf(b)
  {
    if a != [] {
      SameTools(a[..|a| - 1], b[..|b| - 1]);
    }
  }

  lemma {:induction false} ToolsOfMore(parts: seq<Part>, p: Part)
    ensures ToolsOf(parts + [p]) == ToolsOf(parts) + if p.ToolPart? then [(p.tool, |parts|)] else []
  {
    assert (parts + [p])[..|parts|] == parts;
  }

  // ── One step ─────────────────────────────────────────────────────────────────────────────────

  // Starting a block: the open text block, if any, must have been stopped.
  lemma {:induction false} StartSeen(parts: seq<Part>, p: Part, kind: Kind)
    requires OpenText(parts) == -1
    requires kind == if p.TextPart? then TextKind else ToolKind(p.id, p.name)
    requires if p.TextPart? then p.text == "" else p.args == ""
    ensures See(ClientOf(parts), BlockStart(|parts|, kind)) == ClientOf(parts + [p])
  {
    assert OpenBlocks(parts)[|parts| := kind.TextKind?] == OpenBlocks(parts + [p]);
    assert ShowAll(parts + [p]) == ShowAll(parts) + [Show(p)];
  }

  lemma {:induction false} TextSeen(parts: seq<Part>, t: string)
    requires OpenText(parts) != -1
    ensures See(ClientOf(parts), TextDelta(|parts| - 1, t))
         == ClientOf(parts[|parts| - 1 := TextPart(parts[|parts| - 1].text + t)])
  {
    var n := |parts| - 1;
    var after := parts[n := TextPart(parts[n].text + t)];
    assert OpenBlocks(after) == OpenBlocks(parts);
    assert ShowAll(after) == ShowAll(parts)[n := Show(after[n])];
  }

  lemma {:induction false} ArgsSeen(parts: seq<Part>, p: nat, args: string)
    requires p < |parts| && parts[p].ToolPart?
    ensures See(ClientOf(parts), ArgsDelta(p, args))
         == ClientOf(parts[p := parts[p].(args := parts[p].args + args)])
  {
    var after := parts[p := parts[p].(args := parts[p].args + args)];
    assert OpenBlocks(after) == OpenBlocks(parts);
    assert ShowAll(after) == ShowAll(parts)[p := Show(after[p])];
  }

  lemma {:induction false} TextStep(env: Env, c: Core, doc: Doc, t: string)
    requires Tracks(c, doc) && t != ""
    ensures Tracks(TakeText(c, Some(t)).0, Add(env, doc, TextOf(t)))
    ensures SeeAll(ClientOf(doc.parts), TakeText(c, Some(t)).1) == ClientOf(Add(env, doc, TextOf(t)).parts)
  {
    var parts, n := doc.parts, |doc.parts|;
    if OpenText(parts) != -1 {
      SameTools(parts, parts[n - 1 := TextPart(parts[n - 1].text + t)]);
      TextSeen(parts, t);
      SeeOne(ClientOf(parts), TextDelta(n - 1, t));
    } else {
      var blank := parts + [TextPart("")];
      ToolsOfMore(parts, TextPart(t));
      StartSeen(parts, TextPart(""), TextKind);
      TextSeen(blank, t);
      SeeTwo(ClientOf(parts), BlockStart(n, TextKind), TextDelta(n, t));
      assert "" + t == t;
      assert blank[n := TextPart(t)] == parts + [TextPart(t)];
    }
  }

  // After the open text block is stopped only tool blocks are open.
  lemma {:induction false} StopThenStart(parts: seq<Part>, p: Part)
    requires OpenText(parts) != -1 && p.ToolPart? && p.args == ""
    ensures See(See(ClientOf(parts), BlockStop(|parts| - 1)), BlockStart(|parts|, ToolKind(p.id, p.name)))
         == ClientOf(parts + [p])
  {
    var n := |parts|;
    var open := OpenBlocks(parts) - {n - 1};
    assert open[n := false] == OpenBlocks(parts + [p]);
    assert ShowAll(parts + [p]) == ShowAll(parts) + [Show(p)];
  }

  lemma {:induction false} OpenToolStep(env: Env, c: Core, doc: Doc, f: Fragment)
    requires Tracks(c, doc) && Position(doc.parts, f.index.GetOr(0)).None?
    ensures Tracks(OpenTool(env, c, f).0, Add(env, doc, ToolOf(f.(arguments := None))))
    ensures SeeAll(ClientOf(doc.parts), OpenTool(env, c, f).1)
         == ClientOf(Add(env, doc, ToolOf(f.(arguments := None))).parts)
  {
    var parts, n := doc.parts, |doc.parts|;
    var p := ToolPart(f.index.GetOr(0), f.id.GetOr(env.freshId(doc.minted)), f.name.GetOr(""), "");
    var start := BlockStart(n, ToolKind(p.id, p.name));
    ToolsOfMore(parts, p);
    if OpenText(parts) != -1 {
      StopThenStart(parts, p);
      SeeTwo(ClientOf(parts), BlockStop(n - 1), start);
      assert OpenTool(env, c, f).1 == [BlockStop(n - 1), start];
    } else {
      StartSeen(parts, p, ToolKind(p.id, p.name));
      SeeOne(ClientOf(parts), start);
      assert OpenTool(env, c, f).1 == [start];
    }
  }

  // A fragment whose block is open already.
  lemma {:induction false} FeedToolStep(env: Env, c: Core, doc: Doc, f: Fragment)
    requires Tracks(c, doc) && Position(doc.parts, f.index.GetOr(0)).Some?
    ensures Tracks(TakeTool(env, c, f).0, Add(env, doc, ToolOf(f)))
    ensures SeeAll(ClientOf(doc.parts), TakeTool(env, c, f).1) == ClientOf(Add(env, doc, ToolOf(f)).parts)
  {
    var parts, tool, args := doc.parts, f.index.GetOr(0), f.arguments.GetOr("");
    LookupIsPosition(parts, tool);
    var p := Position(parts, tool).value;
    SameTools(parts, parts[p := parts[p].(args := parts[p].args + args)]);
    if args == "" {
      assert parts[p].args + "" == parts[p].args;
      assert TakeTool(env, c, f).1 == [];
      assert parts[p := parts[p].(args := parts[p].args + args)] == parts;
    } else {
      ArgsSeen(parts, p, args);
      SeeOne(ClientOf(parts), ArgsDelta(p, args));
      assert TakeTool(env, c, f).1 == [ArgsDelta(p, args)];
    }
  }

  lemma {:induction false} PositionMore(parts: seq<Part>, p: Part, tool: int)
    ensures Position(parts + [p], tool)
         == if Position(parts, tool).Some? then Position(parts, tool)
            else if p.ToolPart? && p.tool == tool then Some(|parts|) else None
  {
    assert (parts + [p])[..|parts|] == parts;
  }

  // A new block is opening and then feeding an open one.
  lemma {:induction false} AddInTwo(env: Env, doc: Doc, f: Fragment)
    requires Position(doc.parts, f.index.GetOr(0)).None?
    ensures var doc1 := Add(env, doc, ToolOf(f.(arguments := None)));
            Position(doc1.parts, f.index.GetOr(0)).Some? && Add(env, doc1, ToolOf(f)) == Add(env, doc, ToolOf(f))
  {
    var tool, args, n := f.index.GetOr(0), f.arguments.GetOr(""), |doc.parts|;
    var p := ToolPart(tool, f.id.GetOr(env.freshId(doc.minted)), f.name.GetOr(""), "");
    PositionMore(doc.parts, p, tool);
    assert "" + args == args;
    assert (doc.parts + [p])[n := p.(args := args)] == doc.parts + [p.(args := args)];
  }

  lemma {:induction false} TakeInTwo(env: Env, c: Core, f: Fragment)
    requires Lookup(c.toolBlocks, f.index.GetOr(0)).None?
    requires Lookup(OpenTool(env, c, f).0.toolBlocks, f.index.GetOr(0)).Some?
    ensures var (c1, out1) := OpenTool(env, c, f);
            TakeTool(env, c, f) == (TakeTool(env, c1, f).0, out1 + TakeTool(env, c1, f).1)
  {
    var (c1, out1) := OpenTool(env, c, f);
    var block, args := Lookup(c1.toolBlocks, f.index.GetOr(0)), f.arguments.GetOr("");
    var fed := if args != "" && block.Some? then [ArgsDelta(block.value, args)] else [];
    assert TakeTool(env, c1, f).1 == [] + fed == fed;
  }

  lemma {:induction false} ToolStep(env: Env, c: Core, doc: Doc, f: Fragment)
    requires Tracks(c, doc)
    ensures Tracks(TakeTool(env, c, f).0, Add(env, doc, ToolOf(f)))
    ensures SeeAll(ClientOf(doc.parts), TakeTool(env, c, f).1) == ClientOf(Add(env, doc, ToolOf(f)).parts)
  {
    var tool := f.index.GetOr(0);
    LookupIsPosition(doc.parts, tool);
    if Position(doc.parts, tool).Some? {
      FeedToolStep(env, c, doc, f);
    } else {
      OpenToolStep(env, c, doc, f);
      var (c1, out1) := OpenTool(env, c, f);
      var doc1 := Add(env, doc, ToolOf(f.(arguments := None)));
      AddInTwo(env, doc, f);
      FeedToolStep(env, c1, doc1, f);
      LookupIsPosition(doc1.parts, tool);
      TakeInTwo(env, c, f);
      SeeAppend(ClientOf(doc.parts), out1, TakeTool(env, c1, f).1);
    }
  }

  lemma {:induction false} ToolsStep(env: Env, c: Core, doc: Doc, fs: seq<Fragment>)
    requires Tracks(c, doc)
    ensures Tracks(TakeTools(env, c, fs).0, AddAll(env, doc, ToolDeltas(fs)))
    ensures SeeAll(ClientOf(doc.parts), TakeTools(env, c, fs).1) == ClientOf(AddAll(env, doc, ToolDeltas(fs)).parts)
    decreases fs
  {
    if fs != [] {
      var (c1, out1) := TakeTool(env, c, fs[0]);
      var doc1 := Add(env, doc, ToolOf(fs[0]));
      ToolStep(env, c, doc, fs[0]);
      ToolsStep(env, c1, doc1, fs[1..]);
      SeeAppend(ClientOf(doc.parts), out1, TakeTools(env, c1, fs[1..]).1);
      assert ToolDeltas(fs) == [ToolOf(fs[0])] + ToolDeltas(fs[1..]);
      AddAppend(env, doc, [ToolOf(fs[0])], ToolDeltas(fs[1..]));
      AddOne(env, doc, ToolOf(fs[0]));
    }
  }

  lemma {:induction false} AddOne(env: Env, doc: Doc, d: Delta)
    ensures AddAll(env, doc, [d]) == Add(env, doc, d)
  {
    assert [d][..0] == [];
  }

  // ── One chunk, and a whole run ───────────────────────────────────────────────────────────────

  // What the client is before the chunk: one that has seen nothing, or the parts so far.
  function Before(started: bool, parts: seq<Part>): Client {
    if started then ClientOf(parts) else NewClient
  }

  lemma {:induction false} BeginStep(c: Core, model: Option<string>)
    requires !c.started
    ensures SeeAll(NewClient, Begin(c, model).1) == ClientOf([])
  {
    SeeOne(NewClient, Begin(c, model).1[0]);
    assert OpenBlocks([]) == map[];
    assert ShowAll([]) == [];
  }

  lemma {:induction false} ToolsKeep(env: Env, c: Core, fs: seq<Fragment>)
    ensures var c1 := TakeTools(env, c, fs).0;
            c1 == c.(textIndex := c1.textIndex, nextIndex := c1.nextIndex, toolBlocks := c1.toolBlocks, minted := c1.minted)
    decreases fs
  {
    if fs != [] { ToolsKeep(env, TakeTool(env, c, fs[0]).0, fs[1..]); }
  }

  lemma {:induction false} ChoiceStep(env: Env, c: Core, doc: Doc, choice: Choice)
    requires Tracks(c, doc) && c.started
    ensures var (c1, out) := TakeChoice(env, c, choice);
            var after := AddAll(env, doc, ChoiceDeltas(choice));
            c1.started && Tracks(c1, after) && SeeAll(ClientOf(doc.parts), out) == ClientOf(after.parts)
  {
    var (c1, text) := TakeText(c, choice.content);
    var t := choice.content.GetOr("");
    var head := if t != "" then [TextOf(t)] else [];
    var doc1 := AddAll(env, doc, head);
    if t != "" {
      TextStep(env, c, doc, t);
      AddOne(env, doc, TextOf(t));
    }
    ToolsStep(env, c1, doc1, choice.tools);
    ToolsKeep(env, c1, choice.tools);
    SeeAppend(ClientOf(doc.parts), text, TakeTools(env, c1, choice.tools).1);
    AddAppend(env, doc, head, ToolDeltas(choice.tools));
  }

  // A chunk for a translator that has begun.
  lemma {:induction false} StartedStep(env: Env, c: Core, doc: Doc, chunk: Chunk)
    requires Tracks(c, doc) && c.started
    ensures var (c1, out) := Take(env, c, chunk);
            var after := AddAll(env, doc, ChunkDeltas(chunk));
            c1.started && Tracks(c1, after) && SeeAll(ClientOf(doc.parts), out) == ClientOf(after.parts)
  {
    if chunk.error.Some? {
      var e := ErrorEvent(chunk.error.value.GetOr("The stream ended early."));
      SeeOne(ClientOf(doc.parts), e);
      assert Take(env, c, chunk).1 == [e];
    } else if chunk.choice.Some? {
      var c1 := if chunk.usage.Some? then TakeUsage(c, chunk.usage.value) else c;
      ChoiceStep(env, c1, doc, chunk.choice.value);
      assert Take(env, c, chunk).1 == TakeChoice(env, c1, chunk.choice.value).1;
    }
  }

  // The first chunk begins the message, and is then taken like any other.
  lemma {:induction false} BeginThenTake(env: Env, c: Core, chunk: Chunk)
    requires !c.started
    ensures var (c0, begun) := Begin(c, chunk.model);
            Take(env, c, chunk) == (Take(env, c0, chunk).0, begun + Take(env, c0, chunk).1)
  {
    var (c0, begun) := Begin(c, chunk.model);
    assert Take(env, c, chunk).1 == begun + Take(env, c0, chunk).1;
  }

  lemma {:induction false} ChunkStep(env: Env, c: Core, doc: Doc, chunk: Chunk)
    requires Tracks(c, doc) && (c.started || doc.parts == [])
    ensures var (c1, out) := Take(env, c, chunk);
            var after := AddAll(env, doc, ChunkDeltas(chunk));
            c1.started && Tracks(c1, after)
            && SeeAll(Before(c.started, doc.parts), out) == ClientOf(after.parts)
  {
    if c.started {
      StartedStep(env, c, doc, chunk);
    } else {
      var (c0, begun) := Begin(c, chunk.model);
      BeginStep(c, chunk.model);
      BeginThenTake(env, c, chunk);
      StartedStep(env, c0, doc, chunk);
      SeeAppend(NewClient, begun, Take(env, c0, chunk).1);
    }
  }

  lemma {:induction false} FeedStep(env: Env, model: string, chunks: seq<Chunk>)
    ensures var (c, out) := Feed(env, NewCore(env, model), chunks);
            var doc := Render(env, Deltas(chunks));
            c.started == (chunks != []) && Tracks(c, doc)
            && SeeAll(NewClient, out) == Before(chunks != [], doc.parts)
    decreases |chunks|
  {
    if chunks != [] {
      var n := |chunks| - 1;
      FeedStep(env, model, chunks[..n]);
      var (c, out) := Feed(env, NewCore(env, model), chunks[..n]);
      var doc := Render(env, Deltas(chunks[..n]));
      ChunkStep(env, c, doc, chunks[n]);
      SeeAppend(NewClient, out, Take(env, c, chunks[n]).1);
      AddAppend(env, Doc([], 1), Deltas(chunks[..n]), ChunkDeltas(chunks[n]));
    }
  }

  // ── end() ────────────────────────────────────────────────────────────────────────────────────

  function Indices(tools: seq<(int, nat)>): set<nat> {
    set j | 0 <= j < |tools| :: tools[j].1
  }

  function Falses(tools: seq<(int, nat)>): map<nat, bool> {
    map i | i in Indices(tools) :: false
  }

  ghost predicate Rising(tools: seq<(int, nat)>, bound: nat) {
    && (forall j :: 0 <= j < |tools| ==> tools[j].1 < bound)
    && (forall j, k :: 0 <= j < k < |tools| ==> tools[j].1 < tools[k].1)
  }

  lemma {:induction false} FirstIndex(tools: seq<(int, nat)>, next: nat)
    requires tools != [] && Rising(tools, next)
    ensures Indices(tools) - {tools[0].1} == Indices(tools[1..]) && tools[0].1 in Indices(tools)
    ensures Rising(tools[1..], next)
  {
    var rest := tools[1..];
    forall i | i in Indices(tools) && i != tools[0].1 ensures i in Indices(rest) {
      var j :| 0 <= j < |tools| && tools[j].1 == i;
      assert rest[j - 1].1 == i;
    }
    forall i | i in Indices(rest) ensures i in Indices(tools) && i != tools[0].1 {
      var j :| 0 <= j < |rest| && rest[j].1 == i;
      assert tools[j + 1].1 == i;
    }
  }

  lemma {:induction false} StopTools(next: nat, blocks: seq<Block>, tools: seq<(int, nat)>)
    requires Rising(tools, next)
    ensures SeeAll(Client(Some(Watch(Streaming, next, Falses(tools))), blocks), Stops(tools))
         == Client(Some(Watch(Streaming, next, map[])), blocks)
    decreases tools
  {
    if tools == [] {
      assert Falses(tools) == map[];
    } else {
      FirstIndex(tools, next);
      assert Falses(tools) - {tools[0].1} == Falses(tools[1..]);
      StopTools(next, blocks, tools[1..]);
      assert Stops(tools)[1..] == Stops(tools[1..]);
    }
  }

  lemma {:induction false} ToolsRise(parts: seq<Part>)
    ensures Rising(ToolsOf(parts), |parts|)
    ensures forall i: nat :: i in Indices(ToolsOf(parts)) <==> i < |parts| && parts[i].ToolPart?
  {
    if parts != [] {
      var n := |parts| - 1;
      ToolsRise(parts[..n]);
      var init, tools := ToolsOf(parts[..n]), ToolsOf(parts);
      if parts[n].ToolPart? {
        IndicesMore(init, (parts[n].tool, n));
      } else {
        assert tools == init;
      }
    }
  }

  lemma {:induction false} IndicesMore(tools: seq<(int, nat)>, entry: (int, nat))
    ensures Indices(tools + [entry]) == Indices(tools) + {entry.1}
  {
    var all := tools + [entry];
    assert all[|tools|] == entry;
    forall i | i in Indices(tools) ensures i in Indices(all) {
      var j :| 0 <= j < |tools| && tools[j].1 == i;
      assert all[j].1 == i;
    }
  }

  // But for a last text part, the open blocks are the tools'.
  lemma {:induction false} OpenAreTools(parts: seq<Part>)
    ensures OpenText(parts) == -1 ==> OpenBlocks(parts) == Falses(ToolsOf(parts))
    ensures OpenText(parts) != -1 ==> OpenBlocks(parts) - {|parts| - 1} == Falses(ToolsOf(parts))
  {
    ToolsRise(parts);
  }

  // Closing every open block of a started stream.
  lemma {:induction false} CloseStep(c: Core, doc: Doc)
    requires Tracks(c, doc) && c.started
    ensures SeeAll(ClientOf(doc.parts), CloseBlocks(c).1)
         == Client(Some(Watch(Streaming, |doc.parts|, map[])), ShowAll(doc.parts))
  {
    var parts, n := doc.parts, |doc.parts|;
    var tools := ToolsOf(parts);
    ToolsRise(parts);
    OpenAreTools(parts);
    StopTools(n, ShowAll(parts), tools);
    if OpenText(parts) != -1 {
      StopTextSeen(parts);
      SeeAppend(ClientOf(parts), [BlockStop(n - 1)], Stops(tools));
      SeeOne(ClientOf(parts), BlockStop(n - 1));
    } else {
      assert [] + Stops(tools) == Stops(tools);
    }
  }

  lemma {:induction false} StopTextSeen(parts: seq<Part>)
    requires OpenText(parts) != -1
    ensures See(ClientOf(parts), BlockStop(|parts| - 1))
         == Client(Some(Watch(Streaming, |parts|, OpenBlocks(parts) - {|parts| - 1})), ShowAll(parts))
  {
  }

  // What a finished client has read.
  function Read(chunks: seq<Chunk>, env: Env): seq<Block> {
    if chunks == [] then [Text("")] else ShowAll(Render(env, Deltas(chunks)).parts)
  }

  // Every block stopped, and nothing more but the terminal events to come.
  function Stopped(next: nat, started: bool, parts: seq<Part>): Client {
    Client(Some(Watch(Streaming, next, map[])), if started then ShowAll(parts) else [Text("")])
  }

  lemma {:induction false} CloseAny(c: Core, doc: Doc)
    requires Tracks(c, doc) && (c.started || doc.parts == [])
    ensures exists n :: SeeAll(Before(c.started, doc.parts), CloseBlocks(c).1) == Stopped(n, c.started, doc.parts)
  {
    if c.started {
      CloseStep(c, doc);
      assert SeeAll(Before(c.started, doc.parts), CloseBlocks(c).1) == Stopped(|doc.parts|, c.started, doc.parts);
    } else {
      var begun := Begin(c, None).1;
      BeginStep(c, None);
      SeeAppend(NewClient, begun, [BlockStart(0, TextKind), BlockStop(0)]);
      StartSeen([], TextPart(""), TextKind);
      SeeTwo(ClientOf([]), BlockStart(0, TextKind), BlockStop(0));
      assert [] + [TextPart("")] == [TextPart("")];
      assert OpenBlocks([TextPart("")]) - {0} == map[];
      assert ShowAll([TextPart("")]) == [Text("")];
      assert SeeAll(Before(c.started, doc.parts), CloseBlocks(c).1) == Stopped(1, c.started, doc.parts);
    }
  }

  // Every run keeps the protocol to its end, and the client has then read exactly what the chunks
  // carried.
  lemma {:induction false} RunsAreWellFormed(env: Env, model: string, chunks: seq<Chunk>)
    ensures var end := SeeAll(NewClient, Run(env, model, chunks));
            && end.watch.Some? && end.watch.value.phase == Done && end.watch.value.open == map[]
            && end.blocks == Read(chunks, env)
  {
    var (c, out) := Feed(env, NewCore(env, model), chunks);
    var doc := Render(env, Deltas(chunks));
    FeedStep(env, model, chunks);
    FinishStep(env, c, doc);
    SeeAppend(NewClient, out, Finish(env, c).1);
  }

  lemma {:induction false} FinishStep(env: Env, c: Core, doc: Doc)
    requires Tracks(c, doc) && (c.started || doc.parts == [])
    ensures var end := SeeAll(Before(c.started, doc.parts), Finish(env, c).1);
            && end.watch.Some? && end.watch.value.phase == Done && end.watch.value.open == map[]
            && end.blocks == if c.started then ShowAll(doc.parts) else [Text("")]
  {
    CloseAny(c, doc);
    var start := Before(c.started, doc.parts);
    var n :| SeeAll(start, CloseBlocks(c).1) == Stopped(n, c.started, doc.parts);
    var closed, fin := CloseBlocks(c).1, Finish(env, c).1;
    var d, e := fin[|closed|], fin[|closed| + 1];
    assert fin == closed + [d, e];
    SeeAppend(start, closed, [d, e]);
    SeeTwo(Stopped(n, c.started, doc.parts), d, e);
  }
}
