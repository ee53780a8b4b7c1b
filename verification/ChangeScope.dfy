/** What a change makes the mutation gate run, decided path by path and deny by default. */
module ChangeScope {
  import opened Options
  import opened Text

  // ---- The allowlist ----

  /** A file, or every path under a directory (ending `/`), less what is excluded. */
  datatype Irrelevant = Irrelevant(
    prefix: string,
    suffixes: seq<string> := [],
    excluded: seq<string> := [],
    excludedSuffixes: seq<string> := [])
  {
    predicate Matches(path: string) {
      if !EndsWith(prefix, "/") then path == prefix
      else if !StartsWith(path, prefix) || path in excluded then false
      else if EndsWithAny(path, excludedSuffixes) then false
      else suffixes == [] || EndsWithAny(path, suffixes)
    }
  }

  predicate EndsWithAny(path: string, suffixes: seq<string>) {
    exists i :: 0 <= i < |suffixes| && EndsWith(path, suffixes[i])
  }

  predicate StartsWithAny(path: string, prefixes: seq<string>) {
    exists i :: 0 <= i < |prefixes| && StartsWith(path, prefixes[i])
  }

  const IRRELEVANT: seq<Irrelevant> := [
    Irrelevant("packages/provide-uterm-go/",
               excluded := ["packages/provide-uterm-go/capturestate/testdata/capture_record_golden.json"]),
    Irrelevant("packages/provide-uterm-ts/"),
    Irrelevant("packages/provide-uterm-csharp/"),
    Irrelevant("packages/provide-uterm-cloudflare/", excludedSuffixes := [".py", ".pyi", ".toml"]),
    Irrelevant("packages/provide-uterm-app/"),
    Irrelevant("packages/provide-uterm-frontend/src/", suffixes := [".ts", ".tsx", ".css"]),
    Irrelevant("docs/", suffixes := [".md"]),
    Irrelevant(".github/"),
    Irrelevant("docker/", excludedSuffixes := [".toml"]),
    Irrelevant("scripts/", excluded := ["scripts/example_server.py"]),
    Irrelevant("LICENSES/"),
    Irrelevant("README.md"),
    Irrelevant("CHANGELOG.md"),
    Irrelevant("CLAUDE.md"),
    Irrelevant("AGENTS.md"),
    Irrelevant("SECURITY.md"),
    Irrelevant("MUTATION_PATTERNS.md"),
    Irrelevant("package.json"),
    Irrelevant("package-lock.json"),
    Irrelevant("biome.json"),
    Irrelevant(".secrets.baseline"),
    Irrelevant(".pre-commit-config.yaml"),
    Irrelevant("Makefile"),
    Irrelevant("Makefile.bench")
  ]

  const PYTHON_SIDE: seq<string> := [
    "packages/provide-uterm/",
    "packages/provide-uterm-server/",
    "packages/provide-uterm-platform/",
    "packages/provide-uterm-client/",
    "packages/provide-uterm-annotation/",
    "src/"
  ]

  predicate IsPythonSide(path: string) {
    StartsWithAny(path, PYTHON_SIDE) || (EndsWithAny(path, [".py", ".pyi"]) && '/' !in path)
  }

  /** The first allowlist entry, from `from` on, that covers the path. */
  function FirstEntry(entries: seq<Irrelevant>, path: string): Option<Irrelevant> {
    if entries == [] then None
    else if entries[0].Matches(path) then Some(entries[0])
    else FirstEntry(entries[1..], path)
  }

  function IrrelevantEntry(path: string): Option<Irrelevant> {
    if IsPythonSide(path) then None else FirstEntry(IRRELEVANT, path)
  }

  // ---- Classification ----

  datatype Kind = Support | Source | Irrelevance | PythonSide

  datatype Classified = Classified(path: string, kind: Kind, target: Option<string>)

  function Classify(path: string, isSupport: string -> bool, sourceTarget: string -> Option<string>): Classified {
    if isSupport(path) then Classified(path, Support, None)
    else if sourceTarget(path).Some? then Classified(path, Source, sourceTarget(path))
    else if IrrelevantEntry(path).Some? then Classified(path, Irrelevance, None)
    else Classified(path, PythonSide, None)
  }

  /** Targets to add, and the paths that run the whole perimeter with the kind that says why. */
  datatype Scope = Scope(targets: set<string>, full: seq<(string, Kind)>, classified: seq<Classified>)

  function ScopeOf(changed: seq<string>, isSupport: string -> bool, sourceTarget: string -> Option<string>): Scope {
    if changed == [] then Scope({}, [], [])
    else
      var front := ScopeOf(changed[..|changed| - 1], isSupport, sourceTarget);
      var c := Classify(changed[|changed| - 1], isSupport, sourceTarget);
      Scope(
        front.targets + (if c.kind == Source && c.target.Some? then {c.target.value} else {}),
        front.full + (if c.kind in {Support, PythonSide} then [(c.path, c.kind)] else []),
        front.classified + [c])
  }

  method ChangeScope(changed: seq<string>, isSupport: string -> bool, sourceTarget: string -> Option<string>)
    returns (scope: Scope)
    ensures scope == ScopeOf(changed, isSupport, sourceTarget)
  {
    var classified: seq<Classified> := [];
    var targets: set<string> := {};
    var full: seq<(string, Kind)> := [];
    for i := 0 to |changed|
      invariant Scope(targets, full, classified) == ScopeOf(changed[..i], isSupport, sourceTarget)
    {
      assert changed[..i + 1][..i] == changed[..i];
      var c := Classify(changed[i], isSupport, sourceTarget);
      classified := classified + [c];
      if c.kind == Source && c.target.Some? {
        targets := targets + {c.target.value};
      }
      if c.kind in {Support, PythonSide} {
        full := full + [(c.path, c.kind)];
      }
    }
    assert changed[..|changed|] == changed;
    scope := Scope(targets, full, classified);
  }

  lemma {:induction false} FirstEntryExists(entries: seq<Irrelevant>, path: string)
    ensures FirstEntry(entries, path).Some? <==> exists i :: 0 <= i < |entries| && entries[i].Matches(path)
  {
    if entries != [] && !entries[0].Matches(path) {
      FirstEntryExists(entries[1..], path);
      assert forall i :: 1 <= i < |entries| ==> entries[i] == entries[1..][i - 1];
    }
  }

  /** Neither support nor perimeter source, off the Python side, and covered by an allowlist entry. */
  predicate ProvablyIrrelevant(path: string, isSupport: string -> bool, sourceTarget: string -> Option<string>) {
    && !isSupport(path) && sourceTarget(path) == None && !IsPythonSide(path)
    && exists i :: 0 <= i < |IRRELEVANT| && IRRELEVANT[i].Matches(path)
  }

  lemma RunsNothingAlone(path: string, isSupport: string -> bool, sourceTarget: string -> Option<string>)
    ensures Classify(path, isSupport, sourceTarget).kind == Irrelevance
       <==> ProvablyIrrelevant(path, isSupport, sourceTarget)
    ensures Classify(path, isSupport, sourceTarget).kind == Source
        ==> Classify(path, isSupport, sourceTarget).target.Some?
  {
    FirstEntryExists(IRRELEVANT, path);
  }

  /** Deny by default: a change runs nothing exactly when every path in it is provably irrelevant. */
  lemma {:induction false} RunsNothingExactlyWhenIrrelevant(
    changed: seq<string>, isSupport: string -> bool, sourceTarget: string -> Option<string>)
    ensures ScopeOf(changed, isSupport, sourceTarget).targets == {} && ScopeOf(changed, isSupport, sourceTarget).full == []
       <==> forall path :: path in changed ==> ProvablyIrrelevant(path, isSupport, sourceTarget)
  {
    if changed != [] {
      var last := changed[|changed| - 1];
      RunsNothingExactlyWhenIrrelevant(changed[..|changed| - 1], isSupport, sourceTarget);
      RunsNothingAlone(last, isSupport, sourceTarget);
      assert changed == changed[..|changed| - 1] + [last];
    }
  }

  /** The scope of two changes together: both sets of targets, and both lists in order. */
  lemma {:induction false} ScopesAddUp(
    a: seq<string>, b: seq<string>, isSupport: string -> bool, sourceTarget: string -> Option<string>)
    ensures var x, y := ScopeOf(a, isSupport, sourceTarget), ScopeOf(b, isSupport, sourceTarget);
            ScopeOf(a + b, isSupport, sourceTarget)
            == Scope(x.targets + y.targets, x.full + y.full, x.classified + y.classified)
  {
    if b == [] {
      assert a + b == a;
    } else {
      assert (a + b)[..|a + b| - 1] == a + b[..|b| - 1];
      ScopesAddUp(a, b[..|b| - 1], isSupport, sourceTarget);
    }
  }

  /** So adding paths to a change never narrows what it runs. */
  lemma AddingPathsNeverNarrows(
    before: seq<string>, added: seq<string>, after: seq<string>,
    isSupport: string -> bool, sourceTarget: string -> Option<string>)
    ensures var part := ScopeOf(added, isSupport, sourceTarget);
            var whole := ScopeOf(before + added + after, isSupport, sourceTarget);
            part.targets <= whole.targets && forall f :: f in part.full ==> f in whole.full
  {
    ScopesAddUp(before, added, isSupport, sourceTarget);
    ScopesAddUp(before + added, after, isSupport, sourceTarget);
  }

  // ---- What a change runs, path by path ----

  /** Exactly which targets and which full-perimeter paths a list of changes has. */
  lemma {:induction false} ScopeHoldsExactly(
    changed: seq<string>, isSupport: string -> bool, sourceTarget: string -> Option<string>, path: string, target: string)
    ensures var scope := ScopeOf(changed, isSupport, sourceTarget);
            && ((path, Support) in scope.full <==> path in changed && isSupport(path))
            && ((path, PythonSide) in scope.full
                <==> (path in changed && !isSupport(path) && sourceTarget(path) == None
                      && !ProvablyIrrelevant(path, isSupport, sourceTarget)))
            && (target in scope.targets
                <==> exists p :: p in changed && !isSupport(p) && sourceTarget(p) == Some(target))
  {
    if changed != [] {
      var front, last := changed[..|changed| - 1], changed[|changed| - 1];
      ScopeHoldsExactly(front, isSupport, sourceTarget, path, target);
      RunsNothingAlone(last, isSupport, sourceTarget);
      assert changed == front + [last];
    }
  }

  // ---- The allowlist's entries ----

  /** Under a directory: everything with a listed ending, if any is listed, and no exclusion. */
  lemma DirectoryEntries(e: Irrelevant, path: string)
    requires e.prefix != "" && e.prefix[|e.prefix| - 1] == '/'
    ensures e.Matches(path)
       <==> && e.prefix <= path && path !in e.excluded
            && (forall i :: 0 <= i < |e.excludedSuffixes| ==> !EndsWith(path, e.excludedSuffixes[i]))
            && (e.suffixes == [] || exists i :: 0 <= i < |e.suffixes| && EndsWith(path, e.suffixes[i]))
  {
    assert e.prefix[|e.prefix| - 1..] == "/";
  }

  /** Any other entry is one file. */
  lemma FileEntries(e: Irrelevant, path: string)
    requires e.prefix == "" || e.prefix[|e.prefix| - 1] != '/'
    ensures e.Matches(path) <==> path == e.prefix
  {
    assert e.prefix != "" ==> e.prefix[|e.prefix| - 1..][0] == e.prefix[|e.prefix| - 1];
  }

  // ---- Paths that are never skipped ----

  lemma PythonSidePaths(path: string, i: nat)
    requires i < |PYTHON_SIDE| && PYTHON_SIDE[i] <= path
    ensures IsPythonSide(path)
  {
    assert StartsWith(path, PYTHON_SIDE[i]);
  }

  lemma PythonSidePrefixes(path: string)
    requires || "src/" <= path || "packages/provide-uterm/" <= path || "packages/provide-uterm-server/" <= path
             || "packages/provide-uterm-platform/" <= path || "packages/provide-uterm-client/" <= path
             || "packages/provide-uterm-annotation/" <= path
    ensures IsPythonSide(path)
  {
    if "packages/provide-uterm/" <= path { PythonSidePaths(path, 0); }
    if "packages/provide-uterm-server/" <= path { PythonSidePaths(path, 1); }
    if "packages/provide-uterm-platform/" <= path { PythonSidePaths(path, 2); }
    if "packages/provide-uterm-client/" <= path { PythonSidePaths(path, 3); }
    if "packages/provide-uterm-annotation/" <= path { PythonSidePaths(path, 4); }
    if "src/" <= path { PythonSidePaths(path, 5); }
  }

  lemma TopLevelPython(path: string)
    requires '/' !in path && (EndsWith(path, ".py") || EndsWith(path, ".pyi"))
    ensures IsPythonSide(path)
  {
    assert EndsWith(path, [".py", ".pyi"][0]) || EndsWith(path, [".py", ".pyi"][1]);
  }

  /** No path under the packages the tests import, nor any top-level Python file, is ever skipped. */
  lemma PythonIsNeverSkipped(path: string, isSupport: string -> bool, sourceTarget: string -> Option<string>)
    requires || "src/" <= path || "packages/provide-uterm/" <= path || "packages/provide-uterm-server/" <= path
             || "packages/provide-uterm-platform/" <= path || "packages/provide-uterm-client/" <= path
             || "packages/provide-uterm-annotation/" <= path
             || ('/' !in path && (EndsWith(path, ".py") || EndsWith(path, ".pyi")))
    ensures Classify(path, isSupport, sourceTarget).kind != Irrelevance
  {
    if '/' !in path && (EndsWith(path, ".py") || EndsWith(path, ".pyi")) {
      TopLevelPython(path);
    } else {
      PythonSidePrefixes(path);
    }
  }

  /** The two prefixes part at some character, so no path starts with both. */
  predicate PartAt(a: string, b: string, n: nat) {
    n < |a| && n < |b| && a[n] != b[n]
  }

  lemma PartedEntriesDoNotMatch(e: Irrelevant, prefix: string, path: string, n: nat)
    requires prefix <= path && PartAt(e.prefix, prefix, n)
    ensures !e.Matches(path)
  {
    assert path[n] == prefix[n];
  }

  /** Only the entry for `scripts/` can cover a path under it. */
  lemma ScriptsEntryIsAlone(path: string, i: nat)
    requires "scripts/" <= path && i < |IRRELEVANT| && i != 9
    ensures !IRRELEVANT[i].Matches(path)
  {
    PartedEntriesDoNotMatch(IRRELEVANT[i], "scripts/", path, 0);
  }

  /** Repository tooling is skipped, except the one script that tests load. */
  lemma ScriptsAreSkippedButOne(path: string)
    requires "scripts/" <= path
    ensures (exists i :: 0 <= i < |IRRELEVANT| && IRRELEVANT[i].Matches(path)) <==> path != "scripts/example_server.py"
  {
    forall i: nat | i < |IRRELEVANT| && i != 9
      ensures !IRRELEVANT[i].Matches(path)
    {
      ScriptsEntryIsAlone(path, i);
    }
    DirectoryEntries(IRRELEVANT[9], path);
    assert IRRELEVANT[9].Matches(path) <==> path != "scripts/example_server.py";
  }

  lemma DockerEntryIsAlone(path: string, i: nat)
    requires "docker/" <= path && i < |IRRELEVANT| && i != 8
    ensures !IRRELEVANT[i].Matches(path)
  {
    PartedEntriesDoNotMatch(IRRELEVANT[i], "docker/", path, if i == 6 then 3 else 0);
  }

  /** Container files are skipped, except the configurations a test reads. */
  lemma DockerIsSkippedButToml(path: string)
    requires "docker/" <= path
    ensures (exists i :: 0 <= i < |IRRELEVANT| && IRRELEVANT[i].Matches(path)) <==> !EndsWith(path, ".toml")
  {
    forall i: nat | i < |IRRELEVANT| && i != 8
      ensures !IRRELEVANT[i].Matches(path)
    {
      DockerEntryIsAlone(path, i);
    }
    var e := IRRELEVANT[8];
    DirectoryEntries(e, path);
    assert e.excludedSuffixes == [".toml"];
    assert e.Matches(path) <==> !EndsWith(path, e.excludedSuffixes[0]);
  }

  lemma DocsEntryIsAlone(path: string, i: nat)
    requires "docs/" <= path && i < |IRRELEVANT| && i != 6
    ensures !IRRELEVANT[i].Matches(path)
  {
    PartedEntriesDoNotMatch(IRRELEVANT[i], "docs/", path, if i == 8 then 3 else 0);
  }

  /** Under the documentation only Markdown is skipped. */
  lemma OnlyMarkdownOfDocsIsSkipped(path: string)
    requires "docs/" <= path
    ensures (exists i :: 0 <= i < |IRRELEVANT| && IRRELEVANT[i].Matches(path)) <==> EndsWith(path, ".md")
  {
    forall i: nat | i < |IRRELEVANT| && i != 6
      ensures !IRRELEVANT[i].Matches(path)
    {
      DocsEntryIsAlone(path, i);
    }
    var e := IRRELEVANT[6];
    DirectoryEntries(e, path);
    assert e.suffixes == [".md"];
    assert e.Matches(path) <==> EndsWith(path, e.suffixes[0]);
  }

  /** Where the prefix of entry `i` parts from the one of the Cloudflare worker. */
  function WorkerPart(i: nat): nat {
    if i == 0 || i == 1 || i == 4 || i == 5 then 23 else if i == 2 then 24 else if i == 17 || i == 18 then 7 else 0
  }

  lemma WorkerEntryIsAlone(path: string, i: nat)
    requires "packages/provide-uterm-cloudflare/" <= path && i < |IRRELEVANT| && i != 3
    ensures !IRRELEVANT[i].Matches(path)
  {
    PartedEntriesDoNotMatch(IRRELEVANT[i], "packages/provide-uterm-cloudflare/", path, WorkerPart(i));
  }

  /** The worker package is skipped, except its Python and its configuration. */
  lemma WorkerPythonIsNotSkipped(path: string)
    requires "packages/provide-uterm-cloudflare/" <= path
    ensures (exists i :: 0 <= i < |IRRELEVANT| && IRRELEVANT[i].Matches(path))
       <==> !EndsWith(path, ".py") && !EndsWith(path, ".pyi") && !EndsWith(path, ".toml")
  {
    forall i: nat | i < |IRRELEVANT| && i != 3
      ensures !IRRELEVANT[i].Matches(path)
    {
      WorkerEntryIsAlone(path, i);
    }
    var e := IRRELEVANT[3];
    DirectoryEntries(e, path);
    assert e.excludedSuffixes == [".py", ".pyi", ".toml"];
    var x := e.excludedSuffixes;
    assert e.Matches(path) <==> !EndsWith(path, x[0]) && !EndsWith(path, x[1]) && !EndsWith(path, x[2]);
  }
}
