// The write-then-rename protocol (src/lib/backupDestination.ts), over a directory whose names link to
// files. A stream writes to the file it opened, wherever that file's name goes later.
module BackupDestination {
  import opened Options
  import opened BackupNames
  import opened Retention

  newtype byte = x: int | 0 <= x < 256
  type Bytes = seq<byte>

  // A sink: what its stream was handed and how much of that has landed in the file, and how far
  // `commit` or `abort` has come.
  datatype Sink = Sink(
    name: string, file: nat, handed: Bytes, landed: nat, failure: Option<int>,
    ending: bool, aborting: bool, destroyed: bool, closed: bool, done: bool)

  // The directory, the files, and the sinks of the running process. `committed` remembers what each
  // name's last successful commit was handed; no step looks at it.
  datatype State = State(
    dir: map<string, nat>, files: map<nat, Bytes>, sinks: map<nat, Sink>,
    newFile: nat, newSink: nat, committed: map<string, Bytes>)

  // `ok` says whether the file system did what it was asked.
  datatype Event =
    | Begin(name: string, ok: bool)
    | Write(sink: nat, bytes: Bytes)
    | Land(sink: nat, count: nat)
    | Fail(sink: nat, error: int)
    | Close(sink: nat)
    | Destroy(sink: nat)
    | Commit(sink: nat)
    | Finish(sink: nat, ok: bool)
    | Abort(sink: nat)
    | Cleanup(sink: nat, ok: bool)
    | Remove(name: string, ok: bool)
    | Crash

  const START := State(map[], map[], map[], 0, 0, map[])

  function Partial(name: string): string { name + PARTIAL_SUFFIX }

  // Bytes put at a position of a file; a gap reads as zeros.
  function WriteAt(content: Bytes, at: nat, bytes: Bytes): (r: Bytes)
    ensures |r| == (if |content| < at + |bytes| then at + |bytes| else |content|) && r[at..at + |bytes|] == bytes
    ensures forall i :: 0 <= i < |r| && !(at <= i < at + |bytes|) ==> r[i] == if i < |content| then content[i] else 0
    ensures at == |content| ==> r == content + bytes
  {
    var front := if |content| < at then content + seq(at - |content|, _ => 0 as byte) else content[..at];
    var end := at + |bytes|;
    var r := front + bytes + (if end < |content| then content[end..] else []);
    assert r[at..end] == bytes;
    assert at == |content| ==> r == content + bytes by {
      if at == |content| { assert front == content && front + bytes + [] == content + bytes; }
    }
    r
  }

  function Without(dir: map<string, nat>, name: string): map<string, nat> { map n | n in dir && n != name :: dir[n] }

  // ── Steps ────────────────────────────────────────────────────────────────────────────────────

  // Opening the part file truncates one that is there.
  function BeginStep(s: State, name: string): State {
    var part := Partial(name);
    var file := if part in s.dir then s.dir[part] else s.newFile;
    s.(dir := s.dir[part := file], files := s.files[file := []],
       sinks := s.sinks[s.newSink := Sink(name, file, [], 0, None, false, false, false, false, false)],
       newFile := if part in s.dir then s.newFile else s.newFile + 1, newSink := s.newSink + 1)
  }

  // `commit` has ended its stream, and seen it close or fail.
  predicate Finishes(k: Sink) { k.ending && !k.done && (k.closed || k.failure.Some?) }

  // The end of `commit`: the first error is raised, or the part file is renamed.
  function FinishStep(s: State, id: nat, ok: bool): State
    requires id in s.sinks
  {
    var k := s.sinks[id];
    var s' := s.(sinks := s.sinks[id := k.(done := true)]);
    if k.failure.None? && ok && Partial(k.name) in s.dir then
      s'.(dir := Without(s.dir, Partial(k.name))[k.name := s.dir[Partial(k.name)]],
          committed := s.committed[k.name := k.handed])
    else s'
  }

  // What a stream can do: a sink's next state, or None where the event cannot happen.
  function SinkStep(k: Sink, e: Event): Option<Sink> {
    match e
    case Write(_, bytes) =>
      if !k.ending && !k.destroyed then Some(k.(handed := k.handed + bytes)) else None
    case Fail(_, error) =>
      if !k.closed then Some(k.(failure := if k.failure.None? then Some(error) else k.failure, destroyed := true)) else None
    case Close(_) =>
      if !k.closed && (k.destroyed || (k.ending && k.landed == |k.handed|)) then Some(k.(closed := true)) else None
    case Destroy(_) =>
      if !k.closed then Some(k.(destroyed := true)) else None
    case Commit(_) =>
      if !k.ending && !k.aborting then Some(k.(ending := true)) else None
    case Abort(_) =>
      if !k.ending && !k.aborting then Some(k.(aborting := true, destroyed := true)) else None
    case _ => None
  }

  // A write that reaches the file, some bytes at a time.
  predicate LandsAt(s: State, k: Sink, n: nat) {
    n > 0 && !k.closed && k.landed + n <= |k.handed| && k.file in s.files
  }

  function LandStep(s: State, id: nat, n: nat): State
    requires id in s.sinks && LandsAt(s, s.sinks[id], n)
  {
    var k := s.sinks[id];
    s.(files := s.files[k.file := WriteAt(s.files[k.file], k.landed, k.handed[k.landed..k.landed + n])],
       sinks := s.sinks[id := k.(landed := k.landed + n)])
  }

  function Step(s: State, e: Event): State {
    match e
    case Begin(name, ok) =>
      if ok then BeginStep(s, name) else s
    case Land(id, n) =>
      if id in s.sinks && LandsAt(s, s.sinks[id], n) then LandStep(s, id, n) else s
    case Finish(id, ok) =>
      if id in s.sinks && Finishes(s.sinks[id]) then FinishStep(s, id, ok) else s
    case Cleanup(id, ok) =>
      if id in s.sinks && s.sinks[id].aborting && !s.sinks[id].done then
        s.(sinks := s.sinks[id := s.sinks[id].(done := true)],
           dir := if ok then Without(s.dir, Partial(s.sinks[id].name)) else s.dir)
      else s
    case Remove(name, ok) => if ok then s.(dir := Without(s.dir, name)) else s
    case Crash => s.(sinks := map[])
    case _ =>
      if e.sink in s.sinks && SinkStep(s.sinks[e.sink], e).Some? then
        s.(sinks := s.sinks[e.sink := SinkStep(s.sinks[e.sink], e).value])
      else s
  }

  function Run(s: State, events: seq<Event>): State
    decreases |events|
  {
    if events == [] then s else Run(Step(s, events[0]), events[1..])
  }

  // ── Safety ───────────────────────────────────────────────────────────────────────────────────

  // Every file with a backup's name is complete: it holds all that a stream without an error was
  // handed before its commit.
  predicate Complete(s: State) {
    forall n :: n in s.dir && IsBackupName(n) ==>
      n in s.committed && s.dir[n] in s.files && s.files[s.dir[n]] == s.committed[n]
  }

  // It may yet commit: no error was seen, and it was not given up.
  predicate Healthy(k: Sink) { k.failure.None? && !k.aborting && !k.done }

  predicate CanLand(k: Sink) { Healthy(k) || (!k.closed && k.landed < |k.handed|) }

  // A sink that a second stream under its name cannot be trusted beside: one that may yet commit,
  // or whose last bytes may yet land in the part file.
  predicate InTheWay(s: State, k: Sink, name: string) {
    && k.name == name
    && (Healthy(k) || (CanLand(k) && Partial(name) in s.dir && s.dir[Partial(name)] == k.file))
  }

  predicate Clear(s: State, name: string) {
    forall id :: id in s.sinks ==> !InTheWay(s, s.sinks[id], name)
  }

  // A stream may be destroyed without an error, by whoever holds it: once it is closed or given up,
  // or has nothing left to land, or no part file to rename. `commit` looks at errors only.
  predicate MayDestroy(s: State, k: Sink) {
    Healthy(k) && !k.closed && Partial(k.name) in s.dir ==> k.landed == |k.handed|
  }

  // The care asked of the caller: it begins only backups, each while its name is clear, and destroys
  // no stream it means to commit while bytes are still to land.
  predicate Allowed(s: State, e: Event) {
    && (e.Begin? && e.ok ==> IsBackupName(e.name) && Clear(s, e.name))
    && (e.Destroy? && e.sink in s.sinks ==> MayDestroy(s, s.sinks[e.sink]))
  }

  predicate AllAllowed(s: State, events: seq<Event>)
    decreases |events|
  {
    events == [] || (Allowed(s, events[0]) && AllAllowed(Step(s, events[0]), events[1..]))
  }

  // What holds of a sink by itself.
  predicate SinkFits(k: Sink) {
    && IsBackupName(k.name) && k.landed <= |k.handed|
    && (k.failure.Some? || k.aborting ==> k.destroyed)
    && !(k.ending && k.aborting)
    && (k.done ==> k.ending || k.aborting)
    && (k.done && k.ending ==> k.closed || k.destroyed)
    && (k.closed && !k.destroyed ==> k.ending && k.landed == |k.handed|)
  }

  // What holds of it and its file: on its way to a commit, the file holds what has landed.
  predicate HoldsLanded(files: map<nat, Bytes>, k: Sink) {
    k.file in files && k.landed <= |k.handed| && (Healthy(k) ==> files[k.file] == k.handed[..k.landed])
  }

  // And of the names in the directory: the file has no name but the part's, and no other file has it.
  predicate NamedPart(dir: map<string, nat>, k: Sink) {
    && (Healthy(k) && Partial(k.name) in dir ==> dir[Partial(k.name)] == k.file)
    && (Healthy(k) && k.destroyed && Partial(k.name) in dir ==> k.landed == |k.handed|)
    && (CanLand(k) ==> forall n :: n in dir && dir[n] == k.file ==> n == Partial(k.name))
  }

  predicate Fits(s: State, k: Sink) { SinkFits(k) && HoldsLanded(s.files, k) && NamedPart(s.dir, k) }

  predicate Apart(k: Sink, l: Sink) { Healthy(k) && CanLand(l) ==> k.file != l.file }

  predicate AllApart(sinks: map<nat, Sink>) {
    forall i, j :: i in sinks && j in sinks && i != j ==> Apart(sinks[i], sinks[j])
  }

  predicate DirFits(s: State) {
    && (forall n :: n in s.dir ==> s.dir[n] in s.files)
    && (forall m, n :: m in s.dir && n in s.dir && s.dir[m] == s.dir[n] ==> m == n)
    && (forall f :: f in s.files ==> f < s.newFile)
  }

  predicate SinksFit(s: State) {
    && (forall id :: id in s.sinks ==> id < s.newSink && Fits(s, s.sinks[id]))
    && AllApart(s.sinks)
  }

  predicate Inv(s: State) { Complete(s) && DirFits(s) && SinksFit(s) }

  lemma {:induction false} StayApart(sinks: map<nat, Sink>, sinks': map<nat, Sink>)
    requires AllApart(sinks)
    requires forall id :: id in sinks' ==>
      && id in sinks && sinks'[id].file == sinks[id].file
      && (Healthy(sinks'[id]) ==> Healthy(sinks[id])) && (CanLand(sinks'[id]) ==> CanLand(sinks[id]))
    ensures AllApart(sinks')
  {
    forall i, j | i in sinks' && j in sinks' && i != j ensures Apart(sinks'[i], sinks'[j]) {
      assert Apart(sinks[i], sinks[j]);
    }
  }

  lemma {:induction false} JoinsApart(sinks: map<nat, Sink>, id: nat, k: Sink)
    requires AllApart(sinks) && id !in sinks
    requires forall j :: j in sinks ==> Apart(sinks[j], k) && Apart(k, sinks[j])
    ensures AllApart(sinks[id := k])
  {
    var more := sinks[id := k];
    forall i, j | i in more && j in more && i != j ensures Apart(more[i], more[j]) {
      assert i != id && j != id ==> Apart(sinks[i], sinks[j]);
    }
  }

  lemma {:induction false} PartialNames(n: string, m: string)
    ensures Partial(n) == Partial(m) ==> n == m
    ensures IsBackupName(n) ==> !IsBackupName(Partial(n))
  {
    RecognisedIsGiven(n);
    assert Partial(n)[..|Partial(n)| - 8] == n && Partial(m)[..|Partial(m)| - 8] == m;
  }

  lemma {:induction false} BeginKeeps(s: State, name: string)
    requires Inv(s) && IsBackupName(name) && Clear(s, name)
    ensures Inv(BeginStep(s, name))
  {
    var s' := BeginStep(s, name);
    var part := Partial(name);
    PartialNames(name, name);
    var file := s'.dir[part];
    forall id | id in s.sinks
      ensures CanLand(s.sinks[id]) ==> s.sinks[id].file != file
      ensures Healthy(s.sinks[id]) ==> Partial(s.sinks[id].name) != part
    {
      PartialNames(s.sinks[id].name, name);
      assert !InTheWay(s, s.sinks[id], name);
      assert HoldsLanded(s.files, s.sinks[id]) && NamedPart(s.dir, s.sinks[id]);
    }
    assert DirFits(s');
    assert Complete(s');
    BeginSinks(s, name);
  }

  lemma {:induction false} NewFits(s: State, name: string)
    requires DirFits(BeginStep(s, name)) && IsBackupName(name)
    ensures Fits(BeginStep(s, name), BeginStep(s, name).sinks[s.newSink])
  {
    assert BeginStep(s, name).sinks[s.newSink].handed[..0] == [];
  }

  lemma {:induction false} BesideFits(s: State, name: string, k: Sink)
    requires Fits(s, k)
    requires CanLand(k) ==> k.file != BeginStep(s, name).dir[Partial(name)]
    requires Healthy(k) ==> Partial(k.name) != Partial(name)
    ensures Fits(BeginStep(s, name), k)
  {
  }

  lemma {:induction false} BeginSinks(s: State, name: string)
    requires Inv(s) && IsBackupName(name)
    requires forall id :: id in s.sinks ==> CanLand(s.sinks[id]) ==> s.sinks[id].file != BeginStep(s, name).dir[Partial(name)]
    requires forall id :: id in s.sinks ==> Healthy(s.sinks[id]) ==> Partial(s.sinks[id].name) != Partial(name)
    requires DirFits(BeginStep(s, name))
    ensures SinksFit(BeginStep(s, name))
  {
    var s' := BeginStep(s, name);
    forall id | id in s'.sinks ensures Fits(s', s'.sinks[id]) {
      if id == s.newSink { NewFits(s, name); } else { assert Fits(s, s.sinks[id]); BesideFits(s, name, s.sinks[id]); }
    }
    assert s'.sinks == s.sinks[s.newSink := s'.sinks[s.newSink]];
    JoinsApart(s.sinks, s.newSink, s'.sinks[s.newSink]);
  }

  lemma {:induction false} LandKeeps(s: State, id: nat, n: nat)
    requires Inv(s) && id in s.sinks && LandsAt(s, s.sinks[id], n)
    ensures Inv(LandStep(s, id, n))
  {
    var s' := LandStep(s, id, n);
    var k := s.sinks[id];
    PartialNames(k.name, k.name);
    assert CanLand(k) && NamedPart(s.dir, k);
    assert Complete(s') && DirFits(s');
    LandSinks(s, id, n);
  }

  lemma {:induction false} LandedFits(s: State, s': State, k: Sink, n: nat)
    requires Fits(s, k) && LandsAt(s, k, n) && s'.dir == s.dir
    requires s'.files == s.files[k.file := WriteAt(s.files[k.file], k.landed, k.handed[k.landed..k.landed + n])]
    ensures Fits(s', k.(landed := k.landed + n))
  {
    assert CanLand(k);
    assert k.handed[..k.landed] + k.handed[k.landed..k.landed + n] == k.handed[..k.landed + n];
  }

  lemma {:induction false} ElsewhereFits(s: State, s': State, l: Sink, file: nat)
    requires Fits(s, l) && (Healthy(l) ==> l.file != file) && s'.dir == s.dir
    requires forall f :: f in s.files ==> f in s'.files && (f != file ==> s'.files[f] == s.files[f])
    ensures Fits(s', l)
  {
  }

  lemma {:induction false} LandSinks(s: State, id: nat, n: nat)
    requires Inv(s) && id in s.sinks && LandsAt(s, s.sinks[id], n)
    ensures SinksFit(LandStep(s, id, n))
  {
    var s', k := LandStep(s, id, n), s.sinks[id];
    assert CanLand(k);
    forall j | j in s'.sinks ensures Fits(s', s'.sinks[j]) { LandSink(s, id, n, j); }
    StayApart(s.sinks, s'.sinks);
  }

  lemma {:induction false} LandSink(s: State, id: nat, n: nat, j: nat)
    requires SinksFit(s) && id in s.sinks && j in s.sinks && LandsAt(s, s.sinks[id], n)
    ensures Fits(LandStep(s, id, n), LandStep(s, id, n).sinks[j])
  {
    var s', k := LandStep(s, id, n), s.sinks[id];
    assert CanLand(k) && Fits(s, s.sinks[j]);
    if j == id { LandedFits(s, s', k, n); } else {
      assert Apart(s.sinks[j], k);
      ElsewhereFits(s, s', s.sinks[j], k.file);
    }
  }

  // A sink that comes no nearer to touching files.
  predicate Settles(k: Sink, k': Sink) {
    && k'.name == k.name && k'.file == k.file && k'.landed == k.landed <= |k.handed| && k.handed <= k'.handed
    && SinkFits(k') && (Healthy(k') ==> Healthy(k)) && (CanLand(k') ==> CanLand(k))
    && (Healthy(k') && k'.destroyed ==> k.destroyed && k'.handed == k.handed)
  }

  lemma {:induction false} SettledFits(s: State, s': State, k: Sink, k': Sink)
    requires Fits(s, k) && Settles(k, k') && s'.files == s.files
    requires forall n :: n in s'.dir ==> n in s.dir && s'.dir[n] == s.dir[n]
    ensures Fits(s', k')
  {
    assert k'.handed[..k.landed] == k.handed[..k.landed];
  }

  // Names that go, and sinks that settle, keep the invariant.
  lemma {:induction false} FewerNamesKeep(s: State, s': State)
    requires Inv(s)
    requires s'.files == s.files && s'.committed == s.committed && s'.newFile == s.newFile && s'.newSink == s.newSink
    requires forall n :: n in s'.dir ==> n in s.dir && s'.dir[n] == s.dir[n]
    requires forall id :: id in s'.sinks ==> id in s.sinks && Settles(s.sinks[id], s'.sinks[id])
    ensures Inv(s')
  {
    forall id | id in s'.sinks ensures Fits(s', s'.sinks[id]) {
      SettledFits(s, s', s.sinks[id], s'.sinks[id]);
    }
    StayApart(s.sinks, s'.sinks);
  }

  lemma {:induction false} RenamedFits(s: State, s': State, k: Sink, l: Sink)
    requires Fits(s, k) && Fits(s, l) && Apart(k, l) && Healthy(k) && Partial(k.name) in s.dir
    requires s'.files == s.files && s'.dir == Without(s.dir, Partial(k.name))[k.name := k.file]
    ensures Fits(s', l)
  {
    PartialNames(l.name, k.name);
    PartialNames(l.name, l.name);
  }

  lemma {:induction false} RenamedDir(s: State, s': State, k: Sink)
    requires Complete(s) && DirFits(s) && Fits(s, k) && Healthy(k) && k.landed == |k.handed| && Partial(k.name) in s.dir
    requires s'.files == s.files && s'.dir == Without(s.dir, Partial(k.name))[k.name := k.file]
    requires s'.committed == s.committed[k.name := k.handed] && s'.newFile == s.newFile
    ensures DirFits(s') && Complete(s')
  {
    PartialNames(k.name, k.name);
    assert k.handed[..k.landed] == k.handed;
  }

  lemma {:induction false} RenameKeeps(s: State, id: nat)
    requires Inv(s) && id in s.sinks
    requires Finishes(s.sinks[id]) && s.sinks[id].failure.None? && Partial(s.sinks[id].name) in s.dir
    ensures Inv(FinishStep(s, id, true))
  {
    var s', k := FinishStep(s, id, true), s.sinks[id];
    assert Fits(s, k) && Healthy(k);
    RenamedDir(s, s', k);
    RenamedSinks(s, s', id);
  }

  lemma {:induction false} RenamedSinks(s: State, s': State, id: nat)
    requires SinksFit(s) && id in s.sinks && Healthy(s.sinks[id]) && Finishes(s.sinks[id]) && Partial(s.sinks[id].name) in s.dir
    requires s'.files == s.files && s'.newSink == s.newSink
    requires s'.dir == Without(s.dir, Partial(s.sinks[id].name))[s.sinks[id].name := s.sinks[id].file]
    requires s'.sinks == s.sinks[id := s.sinks[id].(done := true)]
    ensures SinksFit(s')
  {
    var k := s.sinks[id];
    forall j | j in s'.sinks ensures Fits(s', s'.sinks[j]) {
      if j == id { DoneFits(s, s', k); } else {
        assert Fits(s, s.sinks[j]) && Apart(k, s.sinks[j]);
        RenamedFits(s, s', k, s.sinks[j]);
      }
    }
    StayApart(s.sinks, s'.sinks);
  }

  lemma {:induction false} DoneFits(s: State, s': State, k: Sink)
    requires Fits(s, k) && Healthy(k) && Finishes(k) && s'.files == s.files
    ensures Fits(s', k.(done := true))
  {
  }

  lemma {:induction false} SinkStepSettles(k: Sink, e: Event)
    requires SinkFits(k) && !e.Destroy? && SinkStep(k, e).Some?
    ensures Settles(k, SinkStep(k, e).value)
  {
  }

  lemma {:induction false} SinkStepKeeps(s: State, e: Event)
    requires Inv(s) && (e.Write? || e.Fail? || e.Close? || e.Commit? || e.Abort?)
    ensures Inv(Step(s, e))
  {
    if e.sink in s.sinks && SinkStep(s.sinks[e.sink], e).Some? {
      assert Fits(s, s.sinks[e.sink]);
      SinkStepSettles(s.sinks[e.sink], e);
      SettlingKeeps(s, e.sink, SinkStep(s.sinks[e.sink], e).value, s.dir);
    }
  }

  lemma {:induction false} DestroyKeeps(s: State, id: nat)
    requires Inv(s) && Allowed(s, Destroy(id))
    ensures Inv(Step(s, Destroy(id)))
  {
    if id in s.sinks && !s.sinks[id].closed { DestroySinks(s, id); }
  }

  lemma {:induction false} DestroySinks(s: State, id: nat)
    requires SinksFit(s) && id in s.sinks && !s.sinks[id].closed && MayDestroy(s, s.sinks[id])
    ensures SinksFit(s.(sinks := s.sinks[id := s.sinks[id].(destroyed := true)]))
  {
    var k := s.sinks[id];
    var s' := s.(sinks := s.sinks[id := k.(destroyed := true)]);
    forall j | j in s'.sinks ensures Fits(s', s'.sinks[j]) { DestroyedSink(s, s', id, j); }
    StayApart(s.sinks, s'.sinks);
  }

  lemma {:induction false} DestroyedSink(s: State, s': State, id: nat, j: nat)
    requires SinksFit(s) && id in s.sinks && j in s.sinks && !s.sinks[id].closed && MayDestroy(s, s.sinks[id])
    requires s' == s.(sinks := s.sinks[id := s.sinks[id].(destroyed := true)])
    ensures Fits(s', s'.sinks[j])
  {
    assert Fits(s, s.sinks[j]);
    if j == id { DestroyedFits(s, s', s.sinks[id]); }
  }

  lemma {:induction false} DestroyedFits(s: State, s': State, k: Sink)
    requires Fits(s, k) && MayDestroy(s, k) && !k.closed && s'.files == s.files && s'.dir == s.dir
    ensures Fits(s', k.(destroyed := true))
  {
  }

  lemma {:induction false} SettlingKeeps(s: State, id: nat, k: Sink, dir: map<string, nat>)
    requires Inv(s) && id in s.sinks && Settles(s.sinks[id], k)
    requires forall n :: n in dir ==> n in s.dir && dir[n] == s.dir[n]
    ensures Inv(s.(sinks := s.sinks[id := k], dir := dir))
  {
    var s' := s.(sinks := s.sinks[id := k], dir := dir);
    forall j | j in s'.sinks ensures j in s.sinks && Settles(s.sinks[j], s'.sinks[j]) {
      assert SinkFits(s.sinks[j]);
    }
    FewerNamesKeep(s, s');
  }

  lemma {:induction false} FinishKeeps(s: State, id: nat, ok: bool)
    requires Inv(s) && id in s.sinks && Finishes(s.sinks[id])
    ensures Inv(FinishStep(s, id, ok))
  {
    var k := s.sinks[id];
    if k.failure.None? && ok && Partial(k.name) in s.dir {
      RenameKeeps(s, id);
    } else {
      assert SinkFits(k);
      SettlingKeeps(s, id, k.(done := true), s.dir);
    }
  }

  lemma {:induction false} CleanupKeeps(s: State, id: nat, ok: bool)
    requires Inv(s)
    ensures Inv(Step(s, Cleanup(id, ok)))
  {
    if id in s.sinks && s.sinks[id].aborting && !s.sinks[id].done {
      var k := s.sinks[id];
      assert SinkFits(k);
      SettlingKeeps(s, id, k.(done := true), if ok then Without(s.dir, Partial(k.name)) else s.dir);
    }
  }

  lemma {:induction false} LossKeeps(s: State, e: Event)
    requires Inv(s) && (e.Remove? || e.Crash?)
    ensures Inv(Step(s, e))
  {
    FewerNamesKeep(s, Step(s, e));
  }

  lemma {:induction false} StepKeeps(s: State, e: Event)
    requires Inv(s) && Allowed(s, e)
    ensures Inv(Step(s, e))
  {
    match e
    case Begin(name, ok) => if ok { BeginKeeps(s, name); }
    case Land(id, n) => if id in s.sinks && LandsAt(s, s.sinks[id], n) { LandKeeps(s, id, n); }
    case Finish(id, ok) => if id in s.sinks && Finishes(s.sinks[id]) { FinishKeeps(s, id, ok); }
    case Cleanup(id, ok) => CleanupKeeps(s, id, ok);
    case Remove(name, ok) => LossKeeps(s, e);
    case Crash => LossKeeps(s, e);
    case Destroy(id) => DestroyKeeps(s, id);
    case _ => SinkStepKeeps(s, e);
  }

  // At every point of every run, whatever fails and wherever it crashes, every file with a backup's
  // name is complete.
  lemma {:induction false} AlwaysComplete(s: State, events: seq<Event>)
    requires Inv(s) && AllAllowed(s, events)
    ensures Inv(Run(s, events)) && Complete(Run(s, events))
    decreases |events|
  {
    if events != [] {
      StepKeeps(s, events[0]);
      AlwaysComplete(Step(s, events[0]), events[1..]);
    }
  }

  // ── What stays, and what goes ────────────────────────────────────────────────────────────────

  // The name is removed, or a commit may put another file under it.
  predicate Replaces(s: State, e: Event, name: string) {
    || e == Remove(name, true)
    || (e.Finish? && e.ok && e.sink in s.sinks && s.sinks[e.sink].name == name)
  }

  ghost predicate NoneReplaces(s: State, events: seq<Event>, name: string)
    decreases |events|
  {
    events == [] || (!Replaces(s, events[0], name) && NoneReplaces(Step(s, events[0]), events[1..], name))
  }

  lemma {:induction false} StepStays(s: State, e: Event, name: string)
    requires Inv(s) && IsBackupName(name) && name in s.dir && !Replaces(s, e, name)
    ensures var s' := Step(s, e);
      name in s'.dir && s'.dir[name] == s.dir[name] && name in s'.committed && s'.committed[name] == s.committed[name]
  {
    PartialNames(name, name);
    if e.Finish? {
      FinishStays(s, e, name);
    } else if e.Cleanup? {
      if e.sink in s.sinks { NotAPart(s, s.sinks[e.sink], name); }
    }
  }

  lemma {:induction false} NotAPart(s: State, k: Sink, name: string)
    requires Fits(s, k) && IsBackupName(name)
    ensures Partial(k.name) != name
  {
    PartialNames(k.name, k.name);
  }

  lemma {:induction false} FinishStays(s: State, e: Event, name: string)
    requires Inv(s) && IsBackupName(name) && name in s.dir && e.Finish? && !Replaces(s, e, name)
    ensures var s' := Step(s, e);
      name in s'.dir && s'.dir[name] == s.dir[name] && name in s'.committed && s'.committed[name] == s.committed[name]
  {
    if e.sink in s.sinks {
      assert Fits(s, s.sinks[e.sink]);
      NotAPart(s, s.sinks[e.sink], name);
    }
  }

  // Over every run, crashes and aborts in it: a backup keeps its name, its file and every byte of it until
  // its name is removed or committed again.
  lemma {:induction false} BackupStays(s: State, events: seq<Event>, name: string)
    requires Inv(s) && AllAllowed(s, events) && NoneReplaces(s, events, name)
    requires IsBackupName(name) && name in s.dir
    ensures var s' := Run(s, events);
      name in s'.dir && s'.dir[name] == s.dir[name] && s.dir[name] in s'.files && s'.files[s.dir[name]] == s.files[s.dir[name]]
    decreases |events|
  {
    if events != [] {
      StepKeeps(s, events[0]);
      StepStays(s, events[0], name);
      BackupStays(Step(s, events[0]), events[1..], name);
    }
  }

  // The first error a stream raises is the one kept, whatever else happens to it.
  lemma {:induction false} FirstErrorKept(s: State, events: seq<Event>, id: nat)
    requires id in s.sinks && id < s.newSink && s.sinks[id].failure.Some?
    ensures id in Run(s, events).sinks ==> Run(s, events).sinks[id].failure == s.sinks[id].failure
    ensures Crash !in events ==> id in Run(s, events).sinks
    decreases |events|
  {
    if events != [] {
      var s1 := Step(s, events[0]);
      ErrorStep(s, events[0], id);
      if id in s1.sinks { FirstErrorKept(s1, events[1..], id); } else { GoneForGood(s1, events[1..], id); }
    }
  }

  lemma {:induction false} ErrorStep(s: State, e: Event, id: nat)
    requires id in s.sinks && id < s.newSink && s.sinks[id].failure.Some?
    ensures id < Step(s, e).newSink && (id in Step(s, e).sinks <==> !e.Crash?)
    ensures id in Step(s, e).sinks ==> Step(s, e).sinks[id].failure == s.sinks[id].failure
  {
  }

  lemma {:induction false} GoneForGood(s: State, events: seq<Event>, id: nat)
    requires id !in s.sinks && id < s.newSink
    ensures id !in Run(s, events).sinks
    decreases |events|
  {
    if events != [] { GoneForGood(Step(s, events[0]), events[1..], id); }
  }

  lemma {:induction false} RaisedFirst(s: State, id: nat, error: int)
    requires id in s.sinks && !s.sinks[id].closed && s.sinks[id].failure.None?
    ensures Step(s, Fail(id, error)).sinks[id].failure == Some(error)
  {
  }

  // An abort whose removal worked leaves no part file, and every other name as it was.
  lemma {:induction false} AbortClears(s: State, id: nat)
    requires id in s.sinks && s.sinks[id].aborting && !s.sinks[id].done
    ensures var s', part := Step(s, Cleanup(id, true)), Partial(s.sinks[id].name);
      && part !in s'.dir && s'.files == s.files && s'.committed == s.committed
      && forall n :: n != part ==> (n in s'.dir <==> n in s.dir) && (n in s.dir ==> s'.dir[n] == s.dir[n])
  {
  }

  // ── When a second stream under a name is safe ────────────────────────────────────────────────

  lemma {:induction false} RunJoin(s: State, events: seq<Event>, more: seq<Event>)
    ensures Run(s, events + more) == Run(Run(s, events), more)
    ensures AllAllowed(s, events + more) <==> AllAllowed(s, events) && AllAllowed(Run(s, events), more)
    decreases |events|
  {
    if events == [] {
      assert events + more == more;
    } else {
      RunJoin(Step(s, events[0]), events[1..], more);
      assert (events + more)[1..] == events[1..] + more;
    }
  }

  lemma {:induction false} RunTwo(s: State, e: Event, f: Event)
    ensures Run(s, [e, f]) == Step(Step(s, e), f)
    ensures !e.Begin? && !f.Begin? && !e.Destroy? && !f.Destroy? ==> AllAllowed(s, [e, f])
  {
    assert [e, f][1..] == [f] && [f][1..] == [];
    assert Run(Step(s, e), [f]) == Run(Step(Step(s, e), f), []);
  }

  // A healthy sink can always be committed: whatever file its part name links to is renamed.
  lemma {:induction false} CommitRun(s: State, id: nat) returns (events: seq<Event>)
    requires id in s.sinks && SinkFits(s.sinks[id]) && Healthy(s.sinks[id]) && s.sinks[id].file in s.files
    requires Partial(s.sinks[id].name) in s.dir
    ensures AllAllowed(s, events)
    ensures var s', k := Run(s, events), s.sinks[id];
      && k.name in s'.dir && s'.dir[k.name] == s.dir[Partial(k.name)]
      && s'.committed == s.committed[k.name := k.handed]
      && (forall j :: j in s.sinks && j != id ==> j in s'.sinks && s'.sinks[j] == s.sinks[j])
      && (forall f :: f in s.files ==> f in s'.files)
      && (k.handed == [] ==> s'.files == s.files)
  {
    var k := s.sinks[id];
    var land := Land(id, |k.handed| - k.landed);
    var s1 := Step(s, Commit(id));
    var k1 := k.(ending := true);
    assert s1 == s.(sinks := s.sinks[id := k1]);
    var s2 := Step(s1, land);
    var k2 := if k.closed then k1 else k1.(landed := |k.handed|);
    assert s2.sinks == s.sinks[id := k2] && s2.dir == s.dir && s2.committed == s.committed;
    RunTwo(s, Commit(id), land);
    FinishRun(s2, id);
    events := [Commit(id), land] + [Close(id), Finish(id, true)];
    RunJoin(s, [Commit(id), land], [Close(id), Finish(id, true)]);
  }

  lemma {:induction false} FinishRun(s: State, id: nat)
    requires id in s.sinks && Healthy(s.sinks[id]) && s.sinks[id].ending && s.sinks[id].failure.None?
    requires s.sinks[id].closed || s.sinks[id].destroyed || s.sinks[id].landed == |s.sinks[id].handed|
    requires Partial(s.sinks[id].name) in s.dir
    ensures AllAllowed(s, [Close(id), Finish(id, true)])
    ensures var s', k := Run(s, [Close(id), Finish(id, true)]), s.sinks[id];
      && k.name in s'.dir && s'.dir[k.name] == s.dir[Partial(k.name)] && s'.files == s.files
      && s'.committed == s.committed[k.name := k.handed]
      && (forall j :: j in s.sinks && j != id ==> j in s'.sinks && s'.sinks[j] == s.sinks[j])
  {
    var s1 := Step(s, Close(id));
    assert s1 == s.(sinks := s.sinks[id := s.sinks[id].(closed := true)]);
    RunTwo(s, Close(id), Finish(id, true));
  }

  // A healthy sink commits the part file it takes for its own, and the new stream writes on into it.
  lemma {:induction false} RivalCommits(s: State, a: nat, name: string) returns (events: seq<Event>)
    requires Inv(s) && IsBackupName(name) && a in s.sinks && s.sinks[a].name == name && Healthy(s.sinks[a])
    ensures AllAllowed(BeginStep(s, name), events) && !Complete(Run(BeginStep(s, name), events))
  {
    var s1, k, b := BeginStep(s, name), s.sinks[a], s.newSink;
    assert Fits(s, k) && a != b && s1.sinks[a] == k;
    var commit := CommitRun(s1, a);
    var s2 := Run(s1, commit);
    assert b in s2.sinks && s2.sinks[b] == s1.sinks[b];
    var x: byte := if k.handed != [] && k.handed[0] == 0 then 1 else 0;
    RunTwo(s2, Write(b, [x]), Land(b, 1));
    RunJoin(s1, commit, [Write(b, [x]), Land(b, 1)]);
    events := commit + [Write(b, [x]), Land(b, 1)];
    WritesFirst(s2, b, x);
  }

  lemma {:induction false} WritesFirst(s: State, b: nat, x: byte)
    requires b in s.sinks && s.sinks[b].file in s.files && s.sinks[b].handed == [] && s.sinks[b].landed == 0
    requires !s.sinks[b].ending && !s.sinks[b].destroyed && !s.sinks[b].closed
    ensures var s' := Step(Step(s, Write(b, [x])), Land(b, 1));
      && s'.dir == s.dir && s'.committed == s.committed && s.sinks[b].file in s'.files
      && s'.files[s.sinks[b].file] != [] && s'.files[s.sinks[b].file][0] == x
  {
    var file := s.sinks[b].file;
    var s1 := Step(s, Write(b, [x]));
    assert s1.sinks[b].handed == [x] && s1.files == s.files;
    var after := WriteAt(s.files[file], 0, [x]);
    assert [x][0..1] == [x] && after[0] == after[0..1][0] == x;
    assert Step(s1, Land(b, 1)) == LandStep(s1, b, 1);
    assert LandStep(s1, b, 1).files[file] == after;
  }

  // The last bytes of a stream given up land in the part file after the new stream has committed it.
  lemma {:induction false} LateBytes(s: State, a: nat, name: string) returns (events: seq<Event>)
    requires Inv(s) && IsBackupName(name) && a in s.sinks && !Healthy(s.sinks[a]) && CanLand(s.sinks[a])
    requires Partial(name) in s.dir && s.dir[Partial(name)] == s.sinks[a].file
    ensures AllAllowed(BeginStep(s, name), events) && !Complete(Run(BeginStep(s, name), events))
  {
    var s1, k, b := BeginStep(s, name), s.sinks[a], s.newSink;
    assert a != b && s1.sinks[a] == k;
    var commit := CommitRun(s1, b);
    var s2 := Run(s1, commit);
    assert s2.sinks[a] == k && s2.committed[name] == [] && s2.dir[name] == k.file;
    RunJoin(s1, commit, [Land(a, 1)]);
    events := commit + [Land(a, 1)];
    LandsLate(s2, a, name);
  }

  lemma {:induction false} LandsLate(s: State, a: nat, name: string)
    requires a in s.sinks && LandsAt(s, s.sinks[a], 1) && IsBackupName(name)
    requires name in s.dir && s.dir[name] == s.sinks[a].file && name in s.committed && s.committed[name] == []
    ensures AllAllowed(s, [Land(a, 1)]) && !Complete(Run(s, [Land(a, 1)]))
  {
    var after := Step(s, Land(a, 1));
    assert [Land(a, 1)][1..] == [] && Run(after, []) == after;
    assert after == LandStep(s, a, 1) && |after.files[s.sinks[a].file]| >= 1;
  }

  // So a stream may begin under a name exactly when no sink is in its way: only then does no run
  // from there, with the same care, ever leave an incomplete file under a backup's name.
  lemma {:induction false} SafeToBegin(s: State, name: string)
    requires Inv(s) && IsBackupName(name)
    ensures Clear(s, name) <==>
      forall events :: AllAllowed(BeginStep(s, name), events) ==> Complete(Run(BeginStep(s, name), events))
  {
    var s1 := BeginStep(s, name);
    if Clear(s, name) {
      BeginKeeps(s, name);
      forall events | AllAllowed(s1, events) ensures Complete(Run(s1, events)) {
        AlwaysComplete(s1, events);
      }
    } else {
      var a :| a in s.sinks && InTheWay(s, s.sinks[a], name);
      var events: seq<Event>;
      if Healthy(s.sinks[a]) { events := RivalCommits(s, a, name); } else { events := LateBytes(s, a, name); }
    }
  }

  lemma {:induction false} OneMore(names: seq<string>, i: nat)
    requires i < |names|
    ensures forall n :: n in names[..i + 1] <==> n in names[..i] || n == names[i]
  {
    assert names[..i + 1] == names[..i] + [names[i]];
  }

  // Nor may a stream that is to be committed be destroyed with bytes still to land: no error is seen,
  // and the commit names a file cut short. Only otherwise does no run from there, with the same care,
  // ever leave an incomplete file under a backup's name.
  lemma {:induction false} SafeToDestroy(s: State, id: nat)
    requires Inv(s) && id in s.sinks
    ensures var s1 := Step(s, Destroy(id));
      MayDestroy(s, s.sinks[id]) <==> forall events :: AllAllowed(s1, events) ==> Complete(Run(s1, events))
  {
    var s1 := Step(s, Destroy(id));
    if MayDestroy(s, s.sinks[id]) {
      DestroyKeeps(s, id);
      forall events | AllAllowed(s1, events) ensures Complete(Run(s1, events)) {
        AlwaysComplete(s1, events);
      }
    } else {
      var events := CutShort(s, id);
    }
  }

  lemma {:induction false} CutShort(s: State, id: nat) returns (events: seq<Event>)
    requires Inv(s) && id in s.sinks && !MayDestroy(s, s.sinks[id])
    ensures AllAllowed(Step(s, Destroy(id)), events) && !Complete(Run(Step(s, Destroy(id)), events))
  {
    var k, s1 := s.sinks[id], Step(s, Destroy(id));
    assert Fits(s, k) && s1 == s.(sinks := s.sinks[id := k.(destroyed := true)]);
    var s2, finish := Step(s1, Commit(id)), [Close(id), Finish(id, true)];
    assert s2.sinks[id] == k.(destroyed := true, ending := true) && s2.dir == s.dir && s2.files == s.files;
    FinishRun(s2, id);
    events := [Commit(id)] + finish;
    assert [Commit(id)][1..] == [] && Run(s2, []) == s2 && Run(s1, [Commit(id)]) == s2;
    RunJoin(s1, [Commit(id)], finish);
    assert s.files[k.file] == k.handed[..k.landed] != k.handed;
    assert Run(s2, finish).dir[k.name] == k.file;
  }

  // A sink that finishes without an error has all it was handed in the file its part name links to.
  lemma {:induction false} FinishedWhole(s: State, id: nat)
    requires Inv(s) && id in s.sinks && Finishes(s.sinks[id])
    ensures var k := s.sinks[id];
      k.failure.None? && Partial(k.name) in s.dir ==>
        s.dir[Partial(k.name)] in s.files && s.files[s.dir[Partial(k.name)]] == k.handed
  {
    var k := s.sinks[id];
    assert Fits(s, k);
    if k.failure.None? { assert k.handed[..|k.handed|] == k.handed; }
  }

  // ── The adapter ──────────────────────────────────────────────────────────────────────────────

  // DirectoryDestination. Where the file system decides, `ok` says how. What the stream does
  // between these calls (Write, Land and Close above) is not the adapter's.
  class DirectoryDestination {
    var dir: map<string, nat>
    var files: map<nat, Bytes>
    var sinks: map<nat, Sink>
    var newFile: nat
    var newSink: nat
    ghost var committed: map<string, Bytes>

    ghost function Now(): State
      reads this
    {
      State(dir, files, sinks, newFile, newSink, committed)
    }

    constructor ()
      ensures Now() == START && Inv(Now())
    {
      dir, files, sinks, newFile, newSink, committed := map[], map[], map[], 0, 0, map[];
    }

    method Begin(name: string, ok: bool) returns (sink: Option<nat>)
      modifies this
      ensures Now() == Step(old(Now()), Event.Begin(name, ok))
      ensures sink == if ok then Some(old(newSink)) else None
    {
      sink := None;
      if ok {
        var part := name + PARTIAL_SUFFIX;
        var file := newFile;
        if part in dir { file := dir[part]; } else { newFile := newFile + 1; }
        dir := dir[part := file];
        files := files[file := []];
        sinks := sinks[newSink := Sink(name, file, [], 0, None, false, false, false, false, false)];
        sink := Some(newSink);
        newSink := newSink + 1;
      }
    }

    // The stream's error listener keeps the first error; the stream destroys itself.
    method OnError(sink: nat, error: int)
      modifies this
      ensures Now() == Step(old(Now()), Fail(sink, error))
    {
      if sink in sinks && !sinks[sink].closed {
        var k := sinks[sink];
        if k.failure.None? { k := k.(failure := Some(error)); }
        sinks := sinks[sink := k.(destroyed := true)];
      }
    }

    // commit, up to where it waits for the stream to close.
    method CommitEnds(sink: nat)
      modifies this
      ensures Now() == Step(old(Now()), Commit(sink))
    {
      if sink in sinks && !sinks[sink].ending && !sinks[sink].aborting {
        sinks := sinks[sink := sinks[sink].(ending := true)];
      }
    }

    // commit, from there on: None where it throws, the file's size where it does not. It also throws
    // when the file is in place and its size cannot be read.
    method CommitFinishes(sink: nat, ok: bool, sizeRead: bool) returns (size: Option<nat>)
      requires sink in sinks && Finishes(sinks[sink])
      modifies this
      ensures Now() == Step(old(Now()), Finish(sink, ok))
      ensures old(Inv(Now())) && size.Some? ==>
        && size.value == |old(sinks[sink].handed)| && old(sinks[sink].failure).None?
        && old(sinks[sink].name) in dir && committed[old(sinks[sink].name)] == old(sinks[sink].handed)
    {
      size := None;
      var k := sinks[sink];
      var part := k.name + PARTIAL_SUFFIX;
      if Inv(Now()) { FinishedWhole(Now(), sink); }
      sinks := sinks[sink := k.(done := true)];
      if k.failure.None? && ok && part in dir {
        var file := dir[part];
        dir := Without(dir, part)[k.name := file];
        committed := committed[k.name := k.handed];
        if sizeRead && file in files { size := Some(|files[file]|); }
      }
    }

    // abort: the stream is destroyed, then the part file is removed if it will go.
    method AbortDestroys(sink: nat)
      modifies this
      ensures Now() == Step(old(Now()), Abort(sink))
    {
      if sink in sinks && !sinks[sink].ending && !sinks[sink].aborting {
        sinks := sinks[sink := sinks[sink].(aborting := true, destroyed := true)];
      }
    }

    method AbortCleans(sink: nat, ok: bool)
      modifies this
      ensures Now() == Step(old(Now()), Cleanup(sink, ok))
    {
      if sink in sinks && sinks[sink].aborting && !sinks[sink].done {
        var k := sinks[sink];
        sinks := sinks[sink := k.(done := true)];
        if ok { dir := Without(dir, k.name + PARTIAL_SUFFIX); }
      }
    }

    method RemoveName(name: string, ok: bool)
      modifies this
      ensures Now() == Step(old(Now()), Remove(name, ok))
      ensures old(Inv(Now())) ==> Inv(Now())
      ensures forall n :: n in dir <==> n in old(dir) && !(n == name && ok)
    {
      if Inv(Now()) { StepKeeps(Now(), Remove(name, ok)); }
      if ok { dir := Without(dir, name); }
    }

    // The sweep after a copy, over a listing of the directory. A removal that fails is passed over.
    method Sweep(listing: seq<string>, keep: int, works: set<string>) returns (pruned: nat)
      requires Inv(Now()) && Lists(listing, dir.Keys)
      modifies this
      ensures Inv(Now()) && Swept(old(dir.Keys), keep, dir.Keys)
      ensures forall n :: n in dir <==> n in old(dir) && !(n in Prunable(listing, keep) && n in works)
      ensures pruned == |Prunable(listing, keep)|
    {
      var doomed := Prunable(listing, keep);
      PrunableMeaning(listing, dir.Keys, keep);
      pruned := |doomed|;
      ghost var was := dir;
      for i := 0 to |doomed|
        invariant Inv(Now())
        invariant forall n :: n in dir <==> n in was && !(n in doomed[..i] && n in works)
      {
        var name := doomed[i];
        RemoveName(name, name in works);
        OneMore(doomed, i);
      }
      assert doomed[..|doomed|] == doomed;
    }
  }
}
