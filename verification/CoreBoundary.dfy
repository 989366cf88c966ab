// The core boundary check (scripts/lint/coreBoundary.ts:127-168): breadth-first over the imports that
// run, reporting each forbidden file, unresolved import and package that is not allowed.
module CoreBoundary {
  import opened Options
  import opened SortedStrings

  // What the check reads: the files there are with the runtime imports of each, the file a relative
  // import in a file loads, and the rules.
  datatype Repo = Repo(
    imports: map<string, seq<string>>,
    targets: map<(string, string), string>,
    builtins: set<string>,
    forbidden: set<string>,
    allowedPackages: set<string>)

  // A relative import loads a file that is there.
  predicate Sane(repo: Repo) { forall k :: k in repo.targets ==> repo.targets[k] in repo.imports }

  datatype Reason = MustNotLoad(file: string) | CannotResolve(specifier: string) | NotAllowed(package: string)
  datatype Violation = Violation(chain: seq<string>, reason: Reason)
  datatype Report =
    | Report(files: seq<string>, packages: seq<string>, violations: seq<Violation>)
    | Unreadable(file: string)

  // ── Specifiers ───────────────────────────────────────────────────────────────────────────────

  predicate StartsWith(s: string, prefix: string) { prefix <= s }

  function EndsWith(s: string, suffix: string): bool {
    |suffix| <= |s| && s[|s| - |suffix|..] == suffix
  }

  // Where the nth slash stands, or the end.
  function SlashAt(s: string, n: nat): (i: nat)
    ensures i <= |s|
    decreases |s|
  {
    if s == "" then 0
    else if s[0] == '/' then (if n == 0 then 0 else 1 + SlashAt(s[1..], n - 1))
    else 1 + SlashAt(s[1..], n)
  }

  // packageName: `@scope/name/sub` is `@scope/name`, `name/sub` is `name`.
  function PackageName(specifier: string): string {
    specifier[..SlashAt(specifier, if StartsWith(specifier, "@") then 1 else 0)]
  }

  predicate IsRelative(specifier: string) { StartsWith(specifier, ".") }

  predicate IsBuiltin(repo: Repo, specifier: string) {
    StartsWith(specifier, "node:") || PackageName(specifier) in repo.builtins
  }

  predicate IsPackage(repo: Repo, specifier: string) { !IsRelative(specifier) && !IsBuiltin(repo, specifier) }

  predicate IsTypeScript(file: string) { EndsWith(file, ".ts") || EndsWith(file, ".tsx") }

  // ── What is to be found ──────────────────────────────────────────────────────────────────────

  // The imports the check follows from a file: none from a forbidden one, or one that is not code.
  function Followed(repo: Repo, file: string): seq<string> {
    if file in repo.forbidden || !IsTypeScript(file) || file !in repo.imports then [] else repo.imports[file]
  }

  predicate Loads(repo: Repo, specifier: string, a: string, b: string) {
    IsRelative(specifier) && (a, specifier) in repo.targets && repo.targets[(a, specifier)] == b
  }

  predicate Edge(repo: Repo, a: string, b: string) {
    exists specifier :: specifier in Followed(repo, a) && Loads(repo, specifier, a, b)
  }

  // An import path: from the entry, each file loading the next.
  predicate IsPath(repo: Repo, entry: string, path: seq<string>) {
    path != [] && path[0] == entry && forall i :: 0 < i < |path| ==> EdgeInto(repo, path, i)
  }

  predicate EdgeInto(repo: Repo, path: seq<string>, i: nat)
    requires 0 < i < |path|
  {
    Edge(repo, path[i - 1], path[i])
  }

  predicate PathTo(repo: Repo, entry: string, path: seq<string>, file: string) {
    IsPath(repo, entry, path) && path[|path| - 1] == file
  }

  ghost predicate Reachable(repo: Repo, entry: string, file: string) {
    exists path :: PathTo(repo, entry, path, file)
  }

  ghost predicate Shortest(repo: Repo, entry: string, path: seq<string>, file: string) {
    PathTo(repo, entry, path, file) && forall other :: PathTo(repo, entry, other, file) ==> |path| <= |other|
  }

  function ImportProblem(repo: Repo, file: string, specifier: string): Option<Reason> {
    if IsRelative(specifier) then
      if (file, specifier) in repo.targets then None else Some(CannotResolve(specifier))
    else if IsPackage(repo, specifier) && PackageName(specifier) !in repo.allowedPackages then
      Some(NotAllowed(PackageName(specifier)))
    else None
  }

  function ImportProblems(repo: Repo, file: string, specifiers: seq<string>): seq<Reason> {
    if specifiers == [] then []
    else
      var n := |specifiers| - 1;
      var last := ImportProblem(repo, file, specifiers[n]);
      ImportProblems(repo, file, specifiers[..n]) + (if last.Some? then [last.value] else [])
  }

  // What is wrong with a file, in the order of its imports.
  function Problems(repo: Repo, file: string): seq<Reason> {
    if file in repo.forbidden then [MustNotLoad(file)] else ImportProblems(repo, file, Followed(repo, file))
  }

  function AllWith(chain: seq<string>, reasons: seq<Reason>): seq<Violation> {
    seq(|reasons|, i requires 0 <= i < |reasons| => Violation(chain, reasons[i]))
  }

  // The violations a report gives for one file.
  predicate At(v: Violation, file: string) { v.chain != [] && v.chain[|v.chain| - 1] == file }

  function Only(violations: seq<Violation>, file: string): seq<Violation> {
    if violations == [] then []
    else
      var n := |violations| - 1;
      Only(violations[..n], file) + (if At(violations[n], file) then [violations[n]] else [])
  }

  // The allowed packages among some specifiers.
  function PackagesOf(repo: Repo, specifiers: seq<string>): set<string> {
    set s | s in specifiers && IsPackage(repo, s) && PackageName(s) in repo.allowedPackages :: PackageName(s)
  }

  ghost predicate UsesPackage(repo: Repo, entry: string, name: string) {
    exists file :: Reachable(repo, entry, file) && name in PackagesOf(repo, Followed(repo, file))
  }

  predicate ByLength(violations: seq<Violation>) {
    forall i, j :: 0 <= i < j < |violations| ==> |violations[i].chain| <= |violations[j].chain|
  }

  // What a report promises: every file the core reaches, and every package it may use; each
  // problem of each file it reaches, once, with a shortest import path to that file; the nearest first.
  ghost predicate ReportFits(repo: Repo, entry: string, r: Report)
    requires r.Report?
  {
    && Ascending(r.files) && Distinct(r.files) && (forall file :: file in r.files <==> Reachable(repo, entry, file))
    && Ascending(r.packages) && Distinct(r.packages)
    && (forall name :: name in r.packages <==> UsesPackage(repo, entry, name))
    && ByLength(r.violations)
    && (forall v :: v in r.violations ==> exists file :: Reachable(repo, entry, file) && At(v, file))
    && (forall file :: Reachable(repo, entry, file) ==> ReportedOnce(repo, entry, r.violations, file))
  }

  ghost predicate ReportedOnce(repo: Repo, entry: string, violations: seq<Violation>, file: string) {
    exists chain :: Shortest(repo, entry, chain, file) && Only(violations, file) == AllWith(chain, Problems(repo, file))
  }

  // ── The walk, as it unfolds ──────────────────────────────────────────────────────────────────

  // The files in the order they were found, where in it the importer of each stands, and how many
  // imports it is from the entry.
  datatype Walk = Walk(order: seq<string>, origin: seq<nat>, depth: seq<nat>)

  predicate OriginsBefore(w: Walk) {
    |w.origin| == |w.order| && forall k :: 0 < k < |w.origin| ==> w.origin[k] < k
  }

  // The file at `k` is loaded by the one it was found from.
  predicate Linked(repo: Repo, w: Walk, k: nat)
    requires OriginsBefore(w) && |w.depth| == |w.order| && 0 < k < |w.order|
  {
    Edge(repo, w.order[w.origin[k]], w.order[k]) && w.depth[k] == w.depth[w.origin[k]] + 1
  }

  ghost predicate WalkFits(repo: Repo, entry: string, w: Walk) {
    && |w.origin| == |w.depth| == |w.order| > 0
    && w.order[0] == entry && w.depth[0] == 0
    && Distinct(w.order)
    && OriginsBefore(w)
    && (forall k :: 0 < k < |w.order| ==> Linked(repo, w, k))
    && (forall i, j :: 0 <= i < j < |w.order| ==> w.depth[i] <= w.depth[j])
  }

  // Found already when the file at `from` was visited.
  predicate FoundFrom(w: Walk, from: nat, file: string) {
    |w.origin| == |w.order| && exists k :: 0 <= k < |w.order| && w.order[k] == file && (k == 0 || w.origin[k] <= from)
  }

  // Whatever the first `done` files load is found, and nothing was found from a later one.
  ghost predicate Covered(repo: Repo, w: Walk, done: nat) {
    && done <= |w.order|
    && (forall i, b :: 0 <= i < done && Edge(repo, w.order[i], b) ==> FoundFrom(w, i, b))
  }

  predicate FromBefore(w: Walk, limit: nat) { forall k :: 0 < k < |w.origin| ==> w.origin[k] < limit }

  function Found(w: Walk, file: string, from: nat): Walk
    requires from < |w.depth|
  {
    Walk(w.order + [file], w.origin + [from], w.depth + [w.depth[from] + 1])
  }

  lemma {:induction false} FoundFits(repo: Repo, entry: string, w: Walk, file: string, from: nat)
    requires WalkFits(repo, entry, w) && from < |w.order| && FromBefore(w, from + 1)
    requires file !in w.order && Edge(repo, w.order[from], file)
    ensures WalkFits(repo, entry, Found(w, file, from)) && FromBefore(Found(w, file, from), from + 1)
    ensures FoundFrom(Found(w, file, from), from, file)
  {
    var w' := Found(w, file, from);
    var last := |w.order| - 1;
    assert w'.order[|w.order|] == file;
    if last > 0 {
      assert Linked(repo, w, last);
      assert w.origin[last] < from ==> w.depth[w.origin[last]] <= w.depth[from];
    }
    forall k | 0 < k < |w'.order| ensures Linked(repo, w', k) {
      if k < |w.order| { assert Linked(repo, w, k); }
    }
    forall i, j | 0 <= i < j < |w'.order| ensures w'.depth[i] <= w'.depth[j] {
      if j == |w.order| { assert w.depth[i] <= w.depth[last]; }
    }
  }

  lemma {:induction false} StillFound(w: Walk, file: string, from: nat)
    requires |w.origin| == |w.depth| == |w.order| && from < |w.depth|
    ensures forall i: nat, b :: FoundFrom(w, i, b) ==> FoundFrom(Found(w, file, from), i, b)
  {
    var w' := Found(w, file, from);
    forall i: nat, b | FoundFrom(w, i, b) ensures FoundFrom(w', i, b) {
      var k :| 0 <= k < |w.order| && w.order[k] == b && (k == 0 || w.origin[k] <= i);
      assert w'.order[k] == b && w'.origin[k] == w.origin[k];
    }
  }

  // The chain of importers of the file at `k`, entry first.
  function Chain(w: Walk, k: nat): seq<string>
    requires k < |w.order| && OriginsBefore(w)
    decreases k
  {
    if k == 0 then [w.order[0]] else Chain(w, w.origin[k]) + [w.order[k]]
  }

  lemma {:induction false} ChainIsPath(repo: Repo, entry: string, w: Walk, k: nat)
    requires WalkFits(repo, entry, w) && k < |w.order|
    ensures PathTo(repo, entry, Chain(w, k), w.order[k]) && |Chain(w, k)| == w.depth[k] + 1
    decreases k
  {
    if k > 0 {
      ChainIsPath(repo, entry, w, w.origin[k]);
      var before, chain := Chain(w, w.origin[k]), Chain(w, k);
      assert Linked(repo, w, k);
      forall i | 0 < i < |chain| ensures EdgeInto(repo, chain, i) {
        if i < |before| { assert EdgeInto(repo, before, i); assert chain[i - 1] == before[i - 1] && chain[i] == before[i]; }
        else { assert chain[i - 1] == before[|before| - 1] == w.order[w.origin[k]]; }
      }
    }
  }

  // Along any import path, each file is found, no deeper than the path is long.
  lemma {:induction false} PathIsFound(repo: Repo, entry: string, w: Walk, path: seq<string>, m: nat) returns (k: nat)
    requires WalkFits(repo, entry, w) && Covered(repo, w, |w.order|)
    requires IsPath(repo, entry, path) && m < |path|
    ensures k < |w.order| && w.order[k] == path[m] && w.depth[k] <= m
    decreases m
  {
    k := 0;
    if m > 0 {
      var i := PathIsFound(repo, entry, w, path, m - 1);
      assert EdgeInto(repo, path, m);
      assert FoundFrom(w, i, path[m]);
      k :| 0 <= k < |w.order| && w.order[k] == path[m] && (k == 0 || w.origin[k] <= i);
      if k > 0 {
        assert Linked(repo, w, k);
        assert w.origin[k] < i ==> w.depth[w.origin[k]] <= w.depth[i];
      }
    }
  }

  // A finished walk found exactly the files there is a path to, each by a shortest one.
  lemma {:induction false} WalkFinds(repo: Repo, entry: string, w: Walk)
    requires WalkFits(repo, entry, w) && Covered(repo, w, |w.order|)
    ensures forall file :: file in w.order <==> Reachable(repo, entry, file)
    ensures forall k: nat :: k < |w.order| ==> Shortest(repo, entry, Chain(w, k), w.order[k])
  {
    forall k: nat | k < |w.order| ensures Shortest(repo, entry, Chain(w, k), w.order[k]) {
      ChainIsPath(repo, entry, w, k);
      forall other | PathTo(repo, entry, other, w.order[k]) ensures |Chain(w, k)| <= |other| {
        var found := PathIsFound(repo, entry, w, other, |other| - 1);
        assert found == k;
      }
    }
    forall file ensures file in w.order <==> Reachable(repo, entry, file) {
      if path :| PathTo(repo, entry, path, file) {
        var found := PathIsFound(repo, entry, w, path, |path| - 1);
      }
      if file in w.order {
        var k :| 0 <= k < |w.order| && w.order[k] == file;
        assert Shortest(repo, entry, Chain(w, k), w.order[k]);
      }
    }
  }

  // ── What the walk reports ────────────────────────────────────────────────────────────────────

  ghost function Violations(repo: Repo, w: Walk, n: nat): seq<Violation>
    requires n <= |w.order| && OriginsBefore(w)
  {
    if n == 0 then [] else Violations(repo, w, n - 1) + AllWith(Chain(w, n - 1), Problems(repo, w.order[n - 1]))
  }

  lemma {:induction false} ChainKept(w: Walk, file: string, from: nat, k: nat)
    requires |w.depth| == |w.order| && from < |w.depth| && k < |w.order| && OriginsBefore(w)
    ensures Chain(Found(w, file, from), k) == Chain(w, k)
    decreases k
  {
    if k > 0 { ChainKept(w, file, from, w.origin[k]); }
  }

  lemma {:induction false} ViolationsKept(repo: Repo, w: Walk, file: string, from: nat, n: nat)
    requires |w.depth| == |w.order| && from < |w.depth| && n <= |w.order| && OriginsBefore(w)
    ensures Violations(repo, Found(w, file, from), n) == Violations(repo, w, n)
    decreases n
  {
    if n > 0 {
      ViolationsKept(repo, w, file, from, n - 1);
      ChainKept(w, file, from, n - 1);
    }
  }

  lemma {:induction false} OnlyMore(violations: seq<Violation>, v: Violation, file: string)
    ensures Only(violations + [v], file) == Only(violations, file) + (if At(v, file) then [v] else [])
  {
    assert (violations + [v])[..|violations|] == violations;
  }

  lemma {:induction false} OnlyJoin(a: seq<Violation>, b: seq<Violation>, file: string)
    ensures Only(a + b, file) == Only(a, file) + Only(b, file)
    decreases |b|
  {
    if b == [] {
      assert a + b == a;
    } else {
      var n := |b| - 1;
      var early, v := b[..n], b[n];
      OnlyJoin(a, early, file);
      OnlyMore(early, v, file);
      OnlyMore(a + early, v, file);
      assert b == early + [v];
      assert a + b == (a + early) + [v];
      var x, y, z := Only(a, file), Only(early, file), if At(v, file) then [v] else [];
      assert (x + y) + z == x + (y + z);
    }
  }

  lemma {:induction false} OnlyOfAll(violations: seq<Violation>, file: string)
    ensures (forall i :: 0 <= i < |violations| ==> At(violations[i], file)) ==> Only(violations, file) == violations
    ensures (forall i :: 0 <= i < |violations| ==> !At(violations[i], file)) ==> Only(violations, file) == []
    decreases |violations|
  {
    if violations != [] {
      var n := |violations| - 1;
      var early, v := violations[..n], violations[n];
      assert forall i :: 0 <= i < n ==> early[i] == violations[i];
      OnlyOfAll(early, file);
      OnlyMore(early, v, file);
      assert violations == early + [v];
    }
  }

  lemma {:induction false} OnlyOfOne(chain: seq<string>, reasons: seq<Reason>, file: string)
    requires chain != []
    ensures Only(AllWith(chain, reasons), file) == if chain[|chain| - 1] == file then AllWith(chain, reasons) else []
  {
    OnlyOfAll(AllWith(chain, reasons), file);
  }

  lemma {:induction false} OnlyAfter(before: seq<Violation>, chain: seq<string>, reasons: seq<Reason>, file: string)
    requires chain != []
    ensures chain[|chain| - 1] != file ==> Only(before + AllWith(chain, reasons), file) == Only(before, file)
    ensures chain[|chain| - 1] == file && Only(before, file) == [] ==>
      Only(before + AllWith(chain, reasons), file) == AllWith(chain, reasons)
  {
    OnlyJoin(before, AllWith(chain, reasons), file);
    OnlyOfOne(chain, reasons, file);
    assert Only(before, file) + [] == Only(before, file) && [] + AllWith(chain, reasons) == AllWith(chain, reasons);
  }

  // Each file's violations are its problems, once each, all with its one chain.
  lemma {:induction false} ViolationsOfFile(repo: Repo, entry: string, w: Walk, n: nat, k: nat)
    requires WalkFits(repo, entry, w) && n <= |w.order| && k < |w.order|
    ensures k >= n ==> Only(Violations(repo, w, n), w.order[k]) == []
    ensures k < n ==> Only(Violations(repo, w, n), w.order[k]) == AllWith(Chain(w, k), Problems(repo, w.order[k]))
    decreases n
  {
    if n > 0 {
      var m := n - 1;
      ViolationsOfFile(repo, entry, w, m, k);
      OneFileMore(repo, entry, w, m, k);
    }
  }

  lemma {:induction false} OneFileMore(repo: Repo, entry: string, w: Walk, m: nat, k: nat)
    requires WalkFits(repo, entry, w) && m < |w.order| && k < |w.order|
    requires k >= m ==> Only(Violations(repo, w, m), w.order[k]) == []
    ensures Only(Violations(repo, w, m + 1), w.order[k])
      == if k == m then AllWith(Chain(w, m), Problems(repo, w.order[m])) else Only(Violations(repo, w, m), w.order[k])
  {
    var before, chain, problems := Violations(repo, w, m), Chain(w, m), Problems(repo, w.order[m]);
    ChainIsPath(repo, entry, w, m);
    OnlyAfter(before, chain, problems, w.order[k]);
    assert k != m ==> w.order[k] != w.order[m];
    var all := Violations(repo, w, m + 1);
    assert all == before + AllWith(chain, problems);
  }

  ghost predicate Within(violations: seq<Violation>, length: nat) {
    forall i :: 0 <= i < |violations| ==> |violations[i].chain| <= length
  }

  lemma {:induction false} LongerLast(before: seq<Violation>, chain: seq<string>, reasons: seq<Reason>)
    requires ByLength(before) && Within(before, |chain|)
    ensures ByLength(before + AllWith(chain, reasons)) && Within(before + AllWith(chain, reasons), |chain|)
  {
  }

  // The violations nearest to the entry are reported first.
  lemma {:induction false} NearestFirst(repo: Repo, entry: string, w: Walk, n: nat)
    requires WalkFits(repo, entry, w) && n <= |w.order|
    ensures ByLength(Violations(repo, w, n))
    ensures Within(Violations(repo, w, n), if n == 0 then 0 else w.depth[n - 1] + 1)
    decreases n
  {
    if n > 0 {
      NearestFirst(repo, entry, w, n - 1);
      ChainIsPath(repo, entry, w, n - 1);
      assert n > 1 ==> w.depth[n - 2] <= w.depth[n - 1];
      LongerLast(Violations(repo, w, n - 1), Chain(w, n - 1), Problems(repo, w.order[n - 1]));
    }
  }

  // Every violation belongs to a file that was found.
  lemma {:induction false} ViolationFrom(repo: Repo, entry: string, w: Walk, n: nat, i: nat) returns (k: nat)
    requires WalkFits(repo, entry, w) && n <= |w.order| && i < |Violations(repo, w, n)|
    ensures k < n && Violations(repo, w, n)[i].chain == Chain(w, k)
    decreases n
  {
    k := n - 1;
    if i < |Violations(repo, w, n - 1)| { k := ViolationFrom(repo, entry, w, n - 1, i); }
  }

  // ── The check ────────────────────────────────────────────────────────────────────────────────

  ghost predicate ParentsFit(w: Walk, parent: map<string, Option<string>>) {
    && OriginsBefore(w) && |w.order| > 0
    && (forall file :: file in parent <==> file in w.order)
    && parent[w.order[0]] == None
    && (forall k :: 0 < k < |w.order| ==> ParentFits(w, parent, k))
  }

  ghost predicate ParentFits(w: Walk, parent: map<string, Option<string>>, k: nat)
    requires OriginsBefore(w) && 0 < k < |w.order|
  {
    w.order[k] in parent && parent[w.order[k]] == Some(w.order[w.origin[k]])
  }

  // chainTo: follow the parents back to the entry.
  method ChainTo(parent: map<string, Option<string>>, file: string, ghost w: Walk, ghost k: nat)
      returns (chain: seq<string>)
    requires ParentsFit(w, parent) && k < |w.order| && w.order[k] == file
    ensures chain == Chain(w, k)
  {
    chain := [];
    var at := Some(file);
    ghost var j: nat := k;
    while at.Some?
      invariant at.Some? ==> j < |w.order| && at.value == w.order[j] && Chain(w, j) + chain == Chain(w, k)
      invariant at.None? ==> chain == Chain(w, k)
      decreases at.Some?, j
    {
      ghost var before := chain;
      chain := [at.value] + chain;
      assert j > 0 ==> Chain(w, w.origin[j]) + chain == (Chain(w, w.origin[j]) + [w.order[j]]) + before;
      assert j > 0 ==> ParentFits(w, parent, j);
      at := parent[at.value];
      if at.Some? { j := w.origin[j]; }
    }
  }

  ghost function AllPackages(repo: Repo, order: seq<string>, n: nat): set<string>
    requires n <= |order|
  {
    if n == 0 then {} else AllPackages(repo, order, n - 1) + PackagesOf(repo, Followed(repo, order[n - 1]))
  }

  lemma {:induction false} AllPackagesKept(repo: Repo, order: seq<string>, more: seq<string>, n: nat)
    requires n <= |order|
    ensures AllPackages(repo, order + more, n) == AllPackages(repo, order, n)
    decreases n
  {
    if n > 0 { AllPackagesKept(repo, order, more, n - 1); }
  }

  lemma {:induction false} AllPackagesMeaning(repo: Repo, order: seq<string>, n: nat, name: string)
    requires n <= |order|
    ensures name in AllPackages(repo, order, n) <==>
      exists i :: 0 <= i < n && name in PackagesOf(repo, Followed(repo, order[i]))
    decreases n
  {
    if n > 0 { AllPackagesMeaning(repo, order, n - 1, name); }
  }

  // The names in a set that remembers the order they came in.
  ghost predicate Holds(names: seq<string>, all: set<string>) { Distinct(names) && forall x :: x in names <==> x in all }

  // What the check has so far. `order` is the parents' keys, as they were put in.
  datatype Progress = Progress(
    parent: map<string, Option<string>>, queue: seq<string>, order: seq<string>,
    packages: seq<string>, violations: seq<Violation>)

  ghost predicate WalkedTo(repo: Repo, entry: string, w: Walk, done: nat, p: Progress) {
    && WalkFits(repo, entry, w) && done <= |w.order|
    && Covered(repo, w, done) && ParentsFit(w, p.parent)
    && p.order == w.order && p.queue == w.order[done..]
    && (forall file :: file in w.order ==> file == entry || file in repo.imports)
  }

  // Between two files.
  ghost predicate Between(repo: Repo, entry: string, w: Walk, done: nat, p: Progress) {
    && WalkedTo(repo, entry, w, done, p) && FromBefore(w, done)
    && Holds(p.packages, AllPackages(repo, w.order, done))
    && p.violations == Violations(repo, w, done)
  }

  // Some imports into the file at `at`: what those load is found too...
  ghost predicate AmidWalk(repo: Repo, entry: string, w: Walk, at: nat, seen: seq<string>, p: Progress) {
    && at < |w.order| && WalkFits(repo, entry, w)
    && Covered(repo, w, at) && ParentsFit(w, p.parent) && FromBefore(w, at + 1)
    && p.order == w.order && p.queue == w.order[at + 1..]
    && (forall file :: file in w.order ==> file == entry || file in repo.imports)
    && (forall s, b :: s in seen && Loads(repo, s, w.order[at], b) ==> FoundFrom(w, at, b))
  }

  // ...and their packages and problems are noted.
  ghost predicate AmidNotes(repo: Repo, w: Walk, at: nat, seen: seq<string>, p: Progress)
    requires at < |w.order| && OriginsBefore(w)
  {
    && Holds(p.packages, AllPackages(repo, w.order, at) + PackagesOf(repo, seen))
    && p.violations == Violations(repo, w, at) + AllWith(Chain(w, at), ImportProblems(repo, w.order[at], seen))
  }

  ghost predicate Amid(repo: Repo, entry: string, w: Walk, at: nat, seen: seq<string>, p: Progress) {
    AmidWalk(repo, entry, w, at, seen, p) && AmidNotes(repo, w, at, seen, p)
  }

  lemma {:induction false} Enter(repo: Repo, entry: string, w: Walk, done: nat, p: Progress)
    requires Between(repo, entry, w, done, p) && done < |w.order|
    ensures p.queue != [] && p.queue[0] == w.order[done]
    ensures Amid(repo, entry, w, done, [], p.(queue := p.queue[1..]))
  {
    assert p.queue[1..] == w.order[done + 1..];
    assert p.violations + [] == p.violations;
  }

  // The file has been dealt with: its imports are all behind, or it has none that count.
  lemma {:induction false} Leave(repo: Repo, entry: string, w: Walk, at: nat, p: Progress)
    requires at < |w.order| && w.order[at] !in repo.forbidden
    requires Amid(repo, entry, w, at, Followed(repo, w.order[at]), p)
    ensures Between(repo, entry, w, at + 1, p)
  {
  }

  lemma {:induction false} LeaveForbidden(repo: Repo, entry: string, w: Walk, at: nat, p: Progress)
    requires at < |w.order| && w.order[at] in repo.forbidden && Amid(repo, entry, w, at, [], p)
    ensures Between(repo, entry, w, at + 1, p.(violations := p.violations + [Violation(Chain(w, at), MustNotLoad(w.order[at]))]))
  {
    assert p.violations == Violations(repo, w, at) + [] == Violations(repo, w, at);
    assert AllWith(Chain(w, at), [MustNotLoad(w.order[at])]) == [Violation(Chain(w, at), MustNotLoad(w.order[at]))];
  }

  // Whatever the next import loads is found: the walk is past it.
  lemma {:induction false} WalkPast(repo: Repo, entry: string, w: Walk, at: nat, seen: seq<string>, s: string, p: Progress)
    requires AmidWalk(repo, entry, w, at, seen, p)
    requires forall b :: Loads(repo, s, w.order[at], b) ==> b in w.order
    ensures AmidWalk(repo, entry, w, at, seen + [s], p)
  {
    forall b | Loads(repo, s, w.order[at], b) ensures FoundFrom(w, at, b) {
      var k :| 0 <= k < |w.order| && w.order[k] == b;
    }
  }

  // An import of a file already found, of a built-in, or of an allowed package already noted.
  lemma {:induction false} PassBy(repo: Repo, entry: string, w: Walk, at: nat, seen: seq<string>, s: string, p: Progress)
    requires Amid(repo, entry, w, at, seen, p) && ImportProblem(repo, w.order[at], s).None?
    requires IsRelative(s) ==> (w.order[at], s) in repo.targets && repo.targets[(w.order[at], s)] in w.order
    requires IsPackage(repo, s) ==> PackageName(s) in p.packages
    ensures Amid(repo, entry, w, at, seen + [s], p)
  {
    WalkPast(repo, entry, w, at, seen, s, p);
    ImportSeen(repo, w.order[at], seen, s);
    assert ImportProblems(repo, w.order[at], seen) + [] == ImportProblems(repo, w.order[at], seen);
  }

  lemma {:induction false} ImportSeen(repo: Repo, file: string, seen: seq<string>, s: string)
    ensures ImportProblems(repo, file, seen + [s]) ==
      ImportProblems(repo, file, seen) + (if ImportProblem(repo, file, s).Some? then [ImportProblem(repo, file, s).value] else [])
    ensures PackagesOf(repo, seen + [s]) == PackagesOf(repo, seen) +
      (if IsPackage(repo, s) && PackageName(s) in repo.allowedPackages then {PackageName(s)} else {})
  {
    assert (seen + [s])[..|seen|] == seen;
  }

  lemma {:induction false} NotePackage(repo: Repo, entry: string, w: Walk, at: nat, seen: seq<string>, s: string, p: Progress)
    requires Amid(repo, entry, w, at, seen, p) && IsPackage(repo, s) && PackageName(s) in repo.allowedPackages
    requires PackageName(s) !in p.packages
    ensures Amid(repo, entry, w, at, seen + [s], p.(packages := p.packages + [PackageName(s)]))
  {
    var p' := p.(packages := p.packages + [PackageName(s)]);
    assert AmidWalk(repo, entry, w, at, seen, p');
    WalkPast(repo, entry, w, at, seen, s, p');
    ImportSeen(repo, w.order[at], seen, s);
    assert ImportProblems(repo, w.order[at], seen) + [] == ImportProblems(repo, w.order[at], seen);
    HoldsMore(p.packages, AllPackages(repo, w.order, at) + PackagesOf(repo, seen), PackageName(s));
    assert AllPackages(repo, w.order, at) + PackagesOf(repo, seen) + {PackageName(s)}
        == AllPackages(repo, w.order, at) + PackagesOf(repo, seen + [s]);
  }

  lemma {:induction false} HoldsMore(names: seq<string>, all: set<string>, name: string)
    requires Holds(names, all) && name !in names
    ensures Holds(names + [name], all + {name})
  {
  }

  lemma {:induction false} AllWithMore(before: seq<Violation>, chain: seq<string>, reasons: seq<Reason>, reason: Reason)
    ensures before + AllWith(chain, reasons + [reason]) == before + AllWith(chain, reasons) + [Violation(chain, reason)]
  {
    assert AllWith(chain, reasons + [reason]) == AllWith(chain, reasons) + [Violation(chain, reason)];
  }

  lemma {:induction false} Complain(repo: Repo, entry: string, w: Walk, at: nat, seen: seq<string>, s: string, p: Progress)
    requires Amid(repo, entry, w, at, seen, p) && ImportProblem(repo, w.order[at], s).Some?
    ensures Amid(repo, entry, w, at, seen + [s],
      p.(violations := p.violations + [Violation(Chain(w, at), ImportProblem(repo, w.order[at], s).value)]))
  {
    var problem := ImportProblem(repo, w.order[at], s).value;
    var p' := p.(violations := p.violations + [Violation(Chain(w, at), problem)]);
    assert AmidWalk(repo, entry, w, at, seen, p');
    WalkPast(repo, entry, w, at, seen, s, p');
    ImportSeen(repo, w.order[at], seen, s);
    assert PackagesOf(repo, seen) + {} == PackagesOf(repo, seen);
    AllWithMore(Violations(repo, w, at), Chain(w, at), ImportProblems(repo, w.order[at], seen), problem);
  }

  // An import of a file not found before.
  lemma {:induction false} FindFile(repo: Repo, entry: string, w: Walk, at: nat, seen: seq<string>, s: string, p: Progress, file: string)
    requires Sane(repo) && Amid(repo, entry, w, at, seen, p) && s in Followed(repo, w.order[at])
    requires Loads(repo, s, w.order[at], file) && file !in w.order
    ensures Amid(repo, entry, Found(w, file, at), at, seen + [s],
      p.(parent := p.parent[file := Some(w.order[at])], queue := p.queue + [file], order := p.order + [file]))
  {
    ImportSeen(repo, w.order[at], seen, s);
    ViolationsKept(repo, w, file, at, at);
    ChainKept(w, file, at, at);
    AllPackagesKept(repo, w.order, [file], at);
    FindFileWalk(repo, entry, w, at, seen, s, p, file);
  }

  lemma {:induction false} FindFileWalk(repo: Repo, entry: string, w: Walk, at: nat, seen: seq<string>, s: string, p: Progress, file: string)
    requires Sane(repo) && AmidWalk(repo, entry, w, at, seen, p) && s in Followed(repo, w.order[at])
    requires Loads(repo, s, w.order[at], file) && file !in w.order
    ensures AmidWalk(repo, entry, Found(w, file, at), at, seen + [s],
      p.(parent := p.parent[file := Some(w.order[at])], queue := p.queue + [file], order := p.order + [file]))
  {
    var w' := Found(w, file, at);
    FoundFits(repo, entry, w, file, at);
    StillFound(w, file, at);
    ParentAdded(w, file, at, p.parent);
    assert w'.order[at + 1..] == w.order[at + 1..] + [file];
    forall i, b | 0 <= i < at && Edge(repo, w'.order[i], b) ensures FoundFrom(w', i, b) {
      assert w'.order[i] == w.order[i] && FoundFrom(w, i, b);
    }
  }

  lemma {:induction false} ParentAdded(w: Walk, file: string, from: nat, parent: map<string, Option<string>>)
    requires ParentsFit(w, parent) && |w.depth| == |w.order| && from < |w.order| && file !in w.order
    ensures ParentsFit(Found(w, file, from), parent[file := Some(w.order[from])])
  {
    var w', parent' := Found(w, file, from), parent[file := Some(w.order[from])];
    forall k | 0 < k < |w'.order| ensures ParentFits(w', parent', k) {
      if k < |w.order| { assert ParentFits(w, parent, k); }
    }
  }

  // A relative import: followed, unless its file is known.
  method VisitLocal(repo: Repo, ghost entry: string, file: string, s: string, p: Progress,
                    ghost w: Walk, ghost at: nat, ghost seen: seq<string>, ghost after: seq<string>)
      returns (p': Progress, ghost w': Walk)
    requires Sane(repo) && Amid(repo, entry, w, at, seen, p) && w.order[at] == file
    requires s in Followed(repo, file) && IsRelative(s) && after == seen + [s]
    ensures Amid(repo, entry, w', at, after, p') && w'.order[at] == file
  {
    p', w' := p, w;
    if (file, s) !in repo.targets {
      Complain(repo, entry, w, at, seen, s, p);
      var chain := ChainTo(p.parent, file, w, at);
      p' := p.(violations := p.violations + [Violation(chain, CannotResolve(s))]);
    } else {
      var target := repo.targets[(file, s)];
      if target !in p.parent {
        FindFile(repo, entry, w, at, seen, s, p, target);
        w' := Found(w, target, at);
        p' := p.(parent := p.parent[target := Some(file)], queue := p.queue + [target], order := p.order + [target]);
      } else {
        PassBy(repo, entry, w, at, seen, s, p);
      }
    }
  }

  // An import of a package: noted, or not allowed.
  method VisitPackage(repo: Repo, ghost entry: string, file: string, s: string, p: Progress,
                      ghost w: Walk, ghost at: nat, ghost seen: seq<string>, ghost after: seq<string>)
      returns (p': Progress)
    requires Amid(repo, entry, w, at, seen, p) && w.order[at] == file && !IsRelative(s) && after == seen + [s]
    ensures Amid(repo, entry, w, at, after, p')
  {
    p' := p;
    var name := PackageName(s);
    if IsBuiltin(repo, s) {
      PassBy(repo, entry, w, at, seen, s, p);
    } else if name !in repo.allowedPackages {
      Complain(repo, entry, w, at, seen, s, p);
      var chain := ChainTo(p.parent, file, w, at);
      p' := p.(violations := p.violations + [Violation(chain, NotAllowed(name))]);
    } else if name !in p.packages {
      NotePackage(repo, entry, w, at, seen, s, p);
      p' := p.(packages := p.packages + [name]);
    } else {
      PassBy(repo, entry, w, at, seen, s, p);
    }
  }

  lemma {:induction false} OneFurther(s: seq<string>, i: nat)
    requires i < |s|
    ensures s[..i + 1] == s[..i] + [s[i]]
  {
  }

  method VisitImports(repo: Repo, ghost entry: string, file: string, p: Progress, ghost w: Walk, ghost at: nat)
      returns (p': Progress, ghost w': Walk)
    requires Sane(repo) && Amid(repo, entry, w, at, [], p) && w.order[at] == file
    requires file !in repo.forbidden && IsTypeScript(file) && file in repo.imports
    ensures Between(repo, entry, w', at + 1, p')
  {
    p', w' := p, w;
    var specifiers := repo.imports[file];
    assert specifiers[..|specifiers|] == specifiers;
    for i := 0 to |specifiers|
      invariant at < |w'.order| && w'.order[at] == file
      invariant Amid(repo, entry, w', at, specifiers[..i], p')
    {
      var s := specifiers[i];
      ghost var seen, after := specifiers[..i], specifiers[..i + 1];
      OneFurther(specifiers, i);
      if IsRelative(s) {
        p', w' := VisitLocal(repo, entry, file, s, p', w', at, seen, after);
      } else {
        p' := VisitPackage(repo, entry, file, s, p', w', at, seen, after);
      }
    }
    Leave(repo, entry, w', at, p');
  }

  // The next file of the queue.
  method VisitNext(repo: Repo, ghost entry: string, p: Progress, ghost w: Walk, ghost at: nat, ghost next: nat)
      returns (p': Progress, ghost w': Walk)
    requires Sane(repo) && Between(repo, entry, w, at, p) && at < |w.order| && next == at + 1
    requires CanRead(repo, w.order[at])
    ensures Between(repo, entry, w', next, p') && at < |repo.imports.Keys + {entry}|
  {
    OrderFits(repo, entry, w);
    Enter(repo, entry, w, at, p);
    var file := p.queue[0];
    p', w' := p.(queue := p.queue[1..]), w;
    if file in repo.forbidden {
      LeaveForbidden(repo, entry, w, at, p');
      var chain := ChainTo(p.parent, file, w, at);
      p' := p'.(violations := p.violations + [Violation(chain, MustNotLoad(file))]);
    } else if IsTypeScript(file) {
      p', w' := VisitImports(repo, entry, file, p', w, at);
    } else {
      Leave(repo, entry, w, at, p');
    }
  }

  lemma {:induction false} Start(repo: Repo, entry: string)
    ensures Between(repo, entry, Walk([entry], [0], [0]), 0, Progress(map[entry := None], [entry], [entry], [], []))
  {
  }

  predicate CanRead(repo: Repo, file: string) {
    file in repo.imports || file in repo.forbidden || !IsTypeScript(file)
  }

  lemma {:induction false} OnlyEntryMissing(repo: Repo, entry: string, w: Walk, at: nat, p: Progress)
    requires Between(repo, entry, w, at, p) && p.queue != []
    ensures at < |w.order| && p.queue[0] == w.order[at]
    ensures CanRead(repo, entry) ==> CanRead(repo, p.queue[0])
    ensures at == 0 ==> p.queue[0] == entry
  {
    assert p.queue[0] in w.order;
  }

  // checkBoundary. A file is read when it is visited; only the entry can fail to be there.
  method CheckBoundary(repo: Repo, entry: string) returns (r: Report)
    requires Sane(repo)
    ensures r.Unreadable? <==> entry !in repo.imports && entry !in repo.forbidden && IsTypeScript(entry)
    ensures r.Report? ==> ReportFits(repo, entry, r)
  {
    var p := Progress(map[entry := None], [entry], [entry], [], []);
    ghost var w, done: nat := Walk([entry], [0], [0]), 0;
    Start(repo, entry);
    while p.queue != []
      invariant Between(repo, entry, w, done, p)
      invariant done > 0 ==> CanRead(repo, entry)
      decreases |repo.imports.Keys + {entry}| - done
    {
      OnlyEntryMissing(repo, entry, w, done, p);
      if !CanRead(repo, p.queue[0]) { return Unreadable(p.queue[0]); }
      ghost var next := done + 1;
      p, w := VisitNext(repo, entry, p, w, done, next);
      done := next;
    }
    Finished(repo, entry, w, p);
    r := Report(Sorted(p.order), Sorted(p.packages), p.violations);
  }

  // The walk ends: no file is found twice.
  lemma {:induction false} OrderFits(repo: Repo, entry: string, w: Walk)
    requires Distinct(w.order) && forall file :: file in w.order ==> file == entry || file in repo.imports
    ensures |w.order| <= |repo.imports.Keys + {entry}|
  {
    var all := set file | file in w.order;
    SizeOfDistinct(w.order, all);
    assert all <= repo.imports.Keys + {entry};
    SubsetSize(all, repo.imports.Keys + {entry});
  }

  lemma {:induction false} SortedKeeps(s: seq<string>)
    requires Distinct(s)
    ensures Distinct(Sorted(s)) && forall x :: x in Sorted(s) <==> x in s
  {
    forall x ensures multiset(s)[x] <= 1 { OnceEach(s, x); }
    SingleMeansDistinct(Sorted(s));
    assert forall x :: x in s <==> x in multiset(s);
    assert forall x :: x in Sorted(s) <==> x in multiset(Sorted(s));
  }

  lemma {:induction false} OnceEach(s: seq<string>, x: string)
    requires Distinct(s)
    ensures multiset(s)[x] <= 1
    decreases |s|
  {
    if s != [] {
      assert s == [s[0]] + s[1..];
      assert multiset(s) == multiset{s[0]} + multiset(s[1..]);
      OnceEach(s[1..], x);
      assert s[0] !in s[1..];
    }
  }

  lemma {:induction false} PackageUsed(repo: Repo, entry: string, w: Walk, name: string)
    requires forall file :: file in w.order <==> Reachable(repo, entry, file)
    ensures name in AllPackages(repo, w.order, |w.order|) <==> UsesPackage(repo, entry, name)
  {
    AllPackagesMeaning(repo, w.order, |w.order|, name);
    if UsesPackage(repo, entry, name) {
      var file :| Reachable(repo, entry, file) && name in PackagesOf(repo, Followed(repo, file));
      assert file in w.order;
    }
  }

  lemma {:induction false} ViolationsBelong(repo: Repo, entry: string, w: Walk)
    requires WalkFits(repo, entry, w) && Covered(repo, w, |w.order|)
    ensures forall v :: v in Violations(repo, w, |w.order|) ==> exists file :: Reachable(repo, entry, file) && At(v, file)
  {
    var violations := Violations(repo, w, |w.order|);
    WalkFinds(repo, entry, w);
    forall v | v in violations ensures exists file :: Reachable(repo, entry, file) && At(v, file) {
      var i :| 0 <= i < |violations| && violations[i] == v;
      var k := ViolationFrom(repo, entry, w, |w.order|, i);
      assert Shortest(repo, entry, Chain(w, k), w.order[k]);
      assert At(v, w.order[k]);
    }
  }

  lemma {:induction false} EachReportedOnce(repo: Repo, entry: string, w: Walk)
    requires WalkFits(repo, entry, w) && Covered(repo, w, |w.order|)
    ensures forall file :: Reachable(repo, entry, file) ==> ReportedOnce(repo, entry, Violations(repo, w, |w.order|), file)
  {
    WalkFinds(repo, entry, w);
    forall file | Reachable(repo, entry, file) ensures ReportedOnce(repo, entry, Violations(repo, w, |w.order|), file) {
      var k :| 0 <= k < |w.order| && w.order[k] == file;
      ViolationsOfFile(repo, entry, w, |w.order|, k);
      assert Shortest(repo, entry, Chain(w, k), w.order[k]);
    }
  }

  lemma {:induction false} Finished(repo: Repo, entry: string, w: Walk, p: Progress)
    requires Between(repo, entry, w, |w.order|, p)
    ensures ReportFits(repo, entry, Report(Sorted(p.order), Sorted(p.packages), p.violations))
  {
    WalkFinds(repo, entry, w);
    SortedKeeps(p.order);
    SortedKeeps(p.packages);
    forall name ensures name in p.packages <==> UsesPackage(repo, entry, name) {
      PackageUsed(repo, entry, w, name);
    }
    NearestFirst(repo, entry, w, |w.order|);
    ViolationsBelong(repo, entry, w);
    EachReportedOnce(repo, entry, w);
  }
}
