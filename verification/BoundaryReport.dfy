// What a boundary report says, read off the specifiers themselves (scripts/lint/coreBoundary.ts:102-168).
module BoundaryReport {
  import opened Options
  import opened CoreBoundary

  // ── The package a specifier names ────────────────────────────────────────────────────────────

  // The name itself, or something inside it.
  predicate Under(specifier: string, name: string) { specifier == name || name + "/" <= specifier }

  // A name is one part, or two where it begins with "@" and there are two.
  ghost predicate Names(specifier: string, name: string) {
    if !("@" <= specifier) then '/' !in name && Under(specifier, name)
    else
      || ('/' !in specifier && name == specifier)
      || (TwoParts(name) && Under(specifier, name))
  }

  ghost predicate TwoParts(name: string) {
    exists scope: string, x: string :: '/' !in scope && '/' !in x && name == scope + "/" + x
  }

  lemma {:induction false} NoSlash(s: string, n: nat)
    requires '/' !in s
    ensures SlashAt(s, n) == |s|
    decreases |s|
  {
    if s != "" { NoSlash(s[1..], n); }
  }

  lemma {:induction false} FirstSlash(x: string, rest: string, n: nat)
    requires '/' !in x
    ensures SlashAt(x + "/" + rest, n) == if n == 0 then |x| else |x| + 1 + SlashAt(rest, n - 1)
    decreases |x|
  {
    var s := x + "/" + rest;
    if x == "" {
      assert s == "/" + rest && s[1..] == rest;
    } else {
      assert s[0] == x[0] && s[1..] == x[1..] + "/" + rest;
      FirstSlash(x[1..], rest, n);
    }
  }

  // A string is its first part, then nothing or a slash and the rest.
  lemma {:induction false} Split(s: string) returns (x: string, rest: string)
    ensures '/' !in x && (s == x || s == x + "/" + rest)
    decreases |s|
  {
    if s == "" {
      x, rest := "", "";
    } else if s[0] == '/' {
      x, rest := "", s[1..];
      assert s == "" + "/" + rest;
    } else {
      x, rest := Split(s[1..]);
      assert s == [s[0]] + s[1..];
      assert s[1..] == x + "/" + rest ==> s == ([s[0]] + x) + "/" + rest;
      x := [s[0]] + x;
    }
  }

  lemma {:induction false} PlainName(x: string, rest: string)
    requires '/' !in x && !("@" <= x)
    ensures PackageName(x) == x && PackageName(x + "/" + rest) == x
  {
    NoSlash(x, 0);
    FirstSlash(x, rest, 0);
    var s := x + "/" + rest;
    assert s[..|x|] == x && (x != "" ==> s[0] == x[0]);
  }

  lemma {:induction false} ScopedName(scope: string, x: string, rest: string)
    requires '/' !in scope && '/' !in x && "@" <= scope
    ensures PackageName(scope) == scope
    ensures PackageName(scope + "/" + x) == scope + "/" + x && PackageName(scope + "/" + x + "/" + rest) == scope + "/" + x
  {
    var name := scope + "/" + x;
    NoSlash(scope, 1);
    FirstSlash(scope, x, 1);
    NoSlash(x, 0);
    assert name + "/" + rest == scope + "/" + (x + "/" + rest);
    FirstSlash(scope, x + "/" + rest, 1);
    FirstSlash(x, rest, 0);
    assert (name + "/" + rest)[..|name|] == name;
  }

  lemma {:induction false} Beyond(specifier: string, name: string) returns (rest: string)
    requires Under(specifier, name) && specifier != name
    ensures specifier == name + "/" + rest
  {
    rest := specifier[|name| + 1..];
  }

  // packageName gives the one name that a specifier names.
  lemma {:induction false} PackageNamed(specifier: string, name: string)
    ensures PackageName(specifier) == name <==> Names(specifier, name)
  {
    if Names(specifier, name) { NamedIs(specifier, name); }
    var x, rest := Split(specifier);
    if !("@" <= specifier) {
      assert Names(specifier, x);
      NamedIs(specifier, x);
    } else if specifier == x {
      NamedIs(specifier, x);
    } else {
      var y, more := Split(rest);
      TwoNamed(specifier, x, rest, y, more);
      NamedIs(specifier, x + "/" + y);
    }
  }

  lemma {:induction false} TwoNamed(specifier: string, x: string, rest: string, y: string, more: string)
    requires "@" <= specifier && specifier == x + "/" + rest && '/' !in x
    requires '/' !in y && (rest == y || rest == y + "/" + more)
    ensures Names(specifier, x + "/" + y)
  {
    var name := x + "/" + y;
    assert TwoParts(name);
    if rest != y { assert specifier == name + "/" + more; }
  }

  lemma {:induction false} NamedIs(specifier: string, name: string)
    requires Names(specifier, name)
    ensures PackageName(specifier) == name
  {
    var rest := "";
    if specifier != name { rest := Beyond(specifier, name); }
    if !("@" <= specifier) {
      if name != "" { assert specifier[0] == name[0]; }
      PlainName(name, rest);
    } else if '/' !in specifier && name == specifier {
      ScopedName(name, "", "");
    } else {
      var scope: string, x: string :| '/' !in scope && '/' !in x && name == scope + "/" + x;
      assert specifier[0] == name[0];
      assert scope != "" && scope[0] == name[0];
      ScopedName(scope, x, rest);
    }
  }

  // ── What a file reads ────────────────────────────────────────────────────────────────────────

  ghost predicate IsCode(file: string) { exists stem: string :: file == stem + ".ts" || file == stem + ".tsx" }

  lemma {:induction false} CodeBySuffix(file: string)
    ensures IsTypeScript(file) <==> IsCode(file)
  {
    if EndsWith(file, ".ts") { assert file == file[..|file| - 3] + ".ts"; }
    if EndsWith(file, ".tsx") { assert file == file[..|file| - 4] + ".tsx"; }
    if stem: string :| file == stem + ".ts" || file == stem + ".tsx" {
      if file == stem + ".ts" { assert file[|file| - 3..] == ".ts"; } else { assert file[|file| - 4..] == ".tsx"; }
    }
  }

  ghost predicate Reads(repo: Repo, file: string, specifier: string) {
    file !in repo.forbidden && IsCode(file) && file in repo.imports && specifier in repo.imports[file]
  }

  // A specifier of a package that is not built in.
  ghost predicate External(repo: Repo, specifier: string, name: string) {
    !("." <= specifier) && !("node:" <= specifier) && Names(specifier, name) && name !in repo.builtins
  }

  // A relative import of no file, or a package that is not allowed.
  ghost predicate WrongImport(repo: Repo, file: string, specifier: string, reason: Reason) {
    match reason
    case MustNotLoad(_) => false
    case CannotResolve(s) => s == specifier && "." <= s && (file, s) !in repo.targets
    case NotAllowed(name) => External(repo, specifier, name) && name !in repo.allowedPackages
  }

  // A forbidden file, or an import that is wrong.
  ghost predicate Wrong(repo: Repo, file: string, reason: Reason) {
    || (file in repo.forbidden && reason == MustNotLoad(file))
    || (exists specifier :: Reads(repo, file, specifier) && WrongImport(repo, file, specifier, reason))
  }

  lemma {:induction false} FollowedAreRead(repo: Repo, file: string, specifier: string)
    ensures specifier in Followed(repo, file) <==> Reads(repo, file, specifier)
  {
    CodeBySuffix(file);
  }

  lemma {:induction false} PackagesAreExternal(repo: Repo, specifier: string, name: string)
    ensures IsPackage(repo, specifier) && PackageName(specifier) == name <==> External(repo, specifier, name)
  {
    PackageNamed(specifier, name);
  }

  lemma {:induction false} ProblemOfImport(repo: Repo, file: string, specifiers: seq<string>, reason: Reason)
    ensures reason in ImportProblems(repo, file, specifiers) <==>
      exists s :: s in specifiers && ImportProblem(repo, file, s) == Some(reason)
    decreases |specifiers|
  {
    if specifiers != [] {
      var n := |specifiers| - 1;
      var before, last := specifiers[..n], specifiers[n];
      ProblemOfImport(repo, file, before, reason);
      assert specifiers == before + [last];
      assert forall s :: s in specifiers <==> s in before || s == last;
    }
  }

  lemma {:induction false} ProblemSays(repo: Repo, file: string, specifier: string, reason: Reason)
    ensures ImportProblem(repo, file, specifier) == Some(reason) <==> WrongImport(repo, file, specifier, reason)
  {
    PackagesAreExternal(repo, specifier, PackageName(specifier));
    if reason.NotAllowed? { PackagesAreExternal(repo, specifier, reason.package); }
  }

  // A file's problems: it is forbidden, or an import of it is of no file or of a package not allowed.
  lemma {:induction false} ProblemsAre(repo: Repo, file: string, reason: Reason)
    ensures reason in Problems(repo, file) <==> Wrong(repo, file, reason)
  {
    ProblemOfImport(repo, file, Followed(repo, file), reason);
    forall s ensures s in Followed(repo, file) <==> Reads(repo, file, s) { FollowedAreRead(repo, file, s); }
    forall s ensures ImportProblem(repo, file, s) == Some(reason) <==> WrongImport(repo, file, s, reason) {
      ProblemSays(repo, file, s, reason);
    }
  }

  // One file loads another by a relative import of it that it reads.
  lemma {:induction false} EdgesAre(repo: Repo, a: string, b: string)
    ensures Edge(repo, a, b) <==>
      exists specifier :: Reads(repo, a, specifier) && "." <= specifier && (a, specifier) in repo.targets && repo.targets[(a, specifier)] == b
  {
    if specifier :| Reads(repo, a, specifier) && "." <= specifier && (a, specifier) in repo.targets && repo.targets[(a, specifier)] == b {
      FollowedAreRead(repo, a, specifier);
      assert Loads(repo, specifier, a, b);
    }
    if specifier :| specifier in Followed(repo, a) && Loads(repo, specifier, a, b) {
      FollowedAreRead(repo, a, specifier);
    }
  }

  // ── What the report says ─────────────────────────────────────────────────────────────────────

  ghost predicate Reported(r: Report, file: string, reason: Reason)
    requires r.Report?
  {
    exists v :: v in r.violations && At(v, file) && v.reason == reason
  }

  lemma {:induction false} InOnly(violations: seq<Violation>, file: string, v: Violation)
    ensures v in Only(violations, file) <==> v in violations && At(v, file)
    decreases |violations|
  {
    if violations != [] {
      var n := |violations| - 1;
      InOnly(violations[..n], file, v);
      assert violations == violations[..n] + [violations[n]];
    }
  }

  // The violations of a report are what is wrong with each file the core reaches, and nothing else.
  lemma {:induction false} ViolationsSay(repo: Repo, entry: string, r: Report, file: string, reason: Reason)
    requires r.Report? && ReportFits(repo, entry, r)
    ensures Reported(r, file, reason) <==> Reachable(repo, entry, file) && Wrong(repo, file, reason)
  {
    ProblemsAre(repo, file, reason);
    if v :| v in r.violations && At(v, file) && v.reason == reason {
      var f :| Reachable(repo, entry, f) && At(v, f);
      assert f == file;
    }
    if Reachable(repo, entry, file) {
      assert ReportedOnce(repo, entry, r.violations, file);
      var chain :| Shortest(repo, entry, chain, file) && Only(r.violations, file) == AllWith(chain, Problems(repo, file));
      ReasonsOf(r.violations, file, chain, Problems(repo, file), reason);
    }
  }

  lemma {:induction false} ReasonsOf(violations: seq<Violation>, file: string, chain: seq<string>, reasons: seq<Reason>, reason: Reason)
    requires Only(violations, file) == AllWith(chain, reasons)
    ensures reason in reasons <==> exists v :: v in violations && At(v, file) && v.reason == reason
  {
    if v :| v in violations && At(v, file) && v.reason == reason {
      InOnly(violations, file, v);
      var i :| 0 <= i < |reasons| && AllWith(chain, reasons)[i] == v;
      assert reasons[i] == reason;
    }
    if reason in reasons {
      var i :| 0 <= i < |reasons| && reasons[i] == reason;
      var v := AllWith(chain, reasons)[i];
      InOnly(violations, file, v);
      assert v in Only(violations, file);
    }
  }

  // The packages of a report are those allowed that a file the core reaches imports, and no others.
  lemma {:induction false} PackagesSay(repo: Repo, entry: string, r: Report, name: string)
    requires r.Report? && ReportFits(repo, entry, r)
    ensures name in r.packages <==>
      name in repo.allowedPackages
      && exists file, specifier :: Reachable(repo, entry, file) && Reads(repo, file, specifier) && External(repo, specifier, name)
  {
    forall file, s ensures s in Followed(repo, file) <==> Reads(repo, file, s) { FollowedAreRead(repo, file, s); }
    forall s ensures IsPackage(repo, s) && PackageName(s) == name <==> External(repo, s, name) { PackagesAreExternal(repo, s, name); }
    if UsesPackage(repo, entry, name) {
      var file :| Reachable(repo, entry, file) && name in PackagesOf(repo, Followed(repo, file));
      var s :| s in Followed(repo, file) && IsPackage(repo, s) && PackageName(s) == name;
      assert Reads(repo, file, s) && External(repo, s, name);
    }
    if file, s :| Reachable(repo, entry, file) && Reads(repo, file, s) && External(repo, s, name) {
      if name in repo.allowedPackages { assert name in PackagesOf(repo, Followed(repo, file)); }
    }
  }

  // A scoped package that is allowed, imported whole or by a path inside it: the report lists it by both
  // its parts.
  lemma {:induction false} ScopedListed(repo: Repo, entry: string, r: Report, file: string, scope: string, x: string, specifier: string)
    requires r.Report? && ReportFits(repo, entry, r) && Reachable(repo, entry, file) && Reads(repo, file, specifier)
    requires '/' !in scope && '/' !in x && "@" <= scope && Under(specifier, scope + "/" + x)
    requires scope + "/" + x in repo.allowedPackages && scope + "/" + x !in repo.builtins
    ensures scope + "/" + x in r.packages
  {
    var name := scope + "/" + x;
    assert specifier[0] == name[0] == scope[0] == '@';
    assert TwoParts(name) && External(repo, specifier, name);
    PackagesSay(repo, entry, r, name);
  }
}
