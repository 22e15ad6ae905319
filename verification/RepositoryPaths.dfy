/** Repository-relative paths: string tests against component lists, and the boundaries that keep
    artifacts away from everything a task may not touch. */
module RepositoryPaths {
  import opened Wrappers
  import opened Text

  const MAX_PATH := 1024
  const MAX_BRIEF_PATH := 500

  // ----- pure paths

  predicate Kept(part: string) { part != "" && part != "." }

  function Keep(parts: seq<string>): (kept: seq<string>)
    ensures forall p <- kept :: p in parts && Kept(p)
  {
    if parts == [] then []
    else if Kept(parts[0]) then [parts[0]] + Keep(parts[1..])
    else Keep(parts[1..])
  }

  /** The components of a relative pure POSIX path: empty and "." ones are dropped. */
  function Parts(s: string): (parts: seq<string>)
    ensures forall p <- parts :: Kept(p)
  {
    Keep(Split(s, '/'))
  }

  /** The text of a relative path with these components. */
  function PosixText(parts: seq<string>): string {
    if parts == [] then "." else Join(parts, '/')
  }

  predicate Absolute(s: string) { s != [] && s[0] == '/' }

  predicate Space(c: char) {
    var n := c as int;
    9 <= n <= 13 || 28 <= n <= 32 || n == 0x85 || n == 0xA0 || n == 0x1680 || 0x2000 <= n <= 0x200A
    || n == 0x2028 || n == 0x2029 || n == 0x202F || n == 0x205F || n == 0x3000
  }

  function StripLeft(s: string): string {
    if s != [] && Space(s[0]) then StripLeft(s[1..]) else s
  }

  function Strip(s: string): string
  {
    StripRight(StripLeft(s))
  }

  function StripRight(s: string): string {
    if s != [] && Space(s[|s| - 1]) then StripRight(s[..|s| - 1]) else s
  }

  predicate BoundedText(s: string, maximum: nat) {
    s != [] && s == Strip(s) && |s| <= maximum && (0 as char) !in s
  }

  /** What the configuration accepts as a repository-relative path. */
  predicate RelativeRepositoryPath(s: string) {
    && BoundedText(s, MAX_PATH)
    && !Absolute(s) && PosixText(Parts(s)) == s && s != "." && s != ".." && ".." !in Parts(s)
    && '\\' !in s && forall c <- s :: 32 <= c as int
  }

  /** No component is empty, "." or "..": the path names something strictly inside the repository in
      exactly one way. */
  predicate Clean(s: string) {
    forall p <- Split(s, '/') :: Kept(p) && p != ".."
  }

  lemma {:induction false} KeepAll(parts: seq<string>)
    requires forall p <- parts :: Kept(p)
    ensures Keep(parts) == parts
    decreases |parts|
  {
    if parts != [] {
      assert parts[0] in parts;
      KeepAll(parts[1..]);
    }
  }

  lemma DotTexts()
    ensures Split("", '/') == [""] && Split(".", '/') == ["."] && Split("..", '/') == [".."]
  {
    SplitCons('.', "", '/');
    assert "." == ['.'] + "";
    SplitCons('.', ".", '/');
    assert ".." == ['.'] + ".";
  }

  lemma {:induction false} CleanParts(s: string)
    requires Clean(s)
    ensures Parts(s) == Split(s, '/') && PosixText(Parts(s)) == s && Parts(s) != [] && s != "." && s != ".."
    ensures !Absolute(s) && s != ""
  {
    KeepAll(Split(s, '/'));
    JoinSplit(s, '/');
    DotTexts();
    assert Split(s, '/')[0] in Split(s, '/');
  }

  /** The round-trip test of the configuration accepts exactly the clean paths. */
  lemma CanonicalIsClean(s: string)
    ensures (s != "" && !Absolute(s) && PosixText(Parts(s)) == s && s != "." && s != ".." && ".." !in Parts(s)) <==> Clean(s)
  {
    if Clean(s) {
      CleanParts(s);
      assert ".." !in Split(s, '/');
    }
    if PosixText(Parts(s)) == s && s != "." && ".." !in Parts(s) {
      SplitHasNoSeparator(s, '/');
      SplitJoin(Parts(s), '/');
    }
  }

  // ----- overlap

  /** The string test of the briefing policy. */
  predicate PathScopesOverlap(path: string, sensitive: string) {
    path == sensitive || sensitive + "/" <= path || path + "/" <= sensitive
  }

  /** One scope lies inside the other, component by component. */
  predicate Comparable(a: seq<string>, b: seq<string>) {
    a <= b || b <= a
  }

  lemma {:induction false} JoinAppend(a: seq<string>, b: seq<string>)
    requires a != [] && b != []
    ensures Join(a + b, '/') == Join(a, '/') + "/" + Join(b, '/')
    decreases |a|
  {
    assert (a + b)[1..] == a[1..] + b;
    if |a| == 1 {
      assert a[1..] + b == b;
    } else {
      JoinAppend(a[1..], b);
    }
  }

  /** A path lies below another exactly when its text continues the other's after a slash. */
  lemma BelowIsPrefix(a: string, b: string)
    requires Clean(a) && Clean(b)
    ensures a + "/" <= b <==> Parts(a) < Parts(b)
  {
    CleanParts(a);
    CleanParts(b);
    if a + "/" <= b {
      var rest := b[|a| + 1..];
      assert b == a + "/" + rest;
      SplitAppend(a, rest, '/');
    }
    if Parts(a) < Parts(b) {
      var rest := Parts(b)[|Parts(a)|..];
      assert Parts(b) == Parts(a) + rest;
      JoinAppend(Parts(a), rest);
    }
  }

  /** On clean paths the string test says exactly that one path contains the other. */
  lemma OverlapIsComparable(a: string, b: string)
    requires Clean(a) && Clean(b)
    ensures PathScopesOverlap(a, b) <==> Comparable(Parts(a), Parts(b))
  {
    BelowIsPrefix(a, b);
    BelowIsPrefix(b, a);
    CleanParts(a);
    CleanParts(b);
    PrefixCases(Parts(a), Parts(b));
    PrefixCases(Parts(b), Parts(a));
  }

  lemma PrefixCases(a: seq<string>, b: seq<string>)
    ensures a <= b <==> a < b || a == b
  {
    if a <= b && |a| == |b| { assert a == b; }
  }

  /** How a brief normalises one of its scope paths. */
  function BriefPath(value: string): Option<string> {
    var path := Strip(value);
    if path == "" || |path| > MAX_BRIEF_PATH || path[0] == '/' || path[0] == '~' || '\\' in path || ".." in Parts(path)
    then None else Some(PosixText(Parts(path)))
  }

  /** A normalised path is clean or stands for the whole repository. */
  lemma BriefPathForm(value: string)
    ensures var p := BriefPath(value); p.Some? ==> p.value == "." || Clean(p.value)
  {
    var path := Strip(value);
    if BriefPath(value).Some? && Parts(path) != [] {
      SplitHasNoSeparator(path, '/');
      SplitJoin(Parts(path), '/');
    }
  }

  lemma RootParts()
    ensures Parts(".") == []
  {
    DotTexts();
    assert ["."][1..] == [];
  }

  /** Between two brief paths the string test is right if and only if neither of two different paths
      is the whole repository, which contains everything but overlaps only itself. */
  lemma BriefOverlap(v: string, w: string)
    requires BriefPath(v).Some? && BriefPath(w).Some?
    ensures var a, b := BriefPath(v).value, BriefPath(w).value;
            (PathScopesOverlap(a, b) <==> Comparable(Parts(a), Parts(b))) <==> (a == b || (a != "." && b != "."))
  {
    BriefPathForm(v);
    BriefPathForm(w);
    var a, b := BriefPath(v).value, BriefPath(w).value;
    RootParts();
    if a != "." && b != "." {
      OverlapIsComparable(a, b);
    } else if a != b {
      RootAlone(a, b);
    }
  }

  lemma RootAlone(a: string, b: string)
    requires a != b && ((a == "." && Clean(b)) || (b == "." && Clean(a)))
    ensures !PathScopesOverlap(a, b)
  {
    if b == "." {
      NotBelowRoot(a);
    } else {
      NotBelowRoot(b);
    }
  }

  lemma DotNotClean(rest: string)
    ensures !Clean("./" + rest)
  {
    SplitAppend(".", rest, '/');
    DotTexts();
    var whole := "." + "/" + rest;
    assert whole == "./" + rest;
    var parts := Split(whole, '/');
    assert parts == ["."] + Split(rest, '/');
    assert parts[0] == "." && parts[0] in parts;
  }

  lemma NotBelowRoot(p: string)
    requires Clean(p)
    ensures !("./" <= p) && !(p + "/" <= ".")
  {
    CleanParts(p);
    if |p| >= 2 {
      DotNotClean(p[2..]);
      assert p != "./" + p[2..];
      assert p == p[..2] + p[2..];
    }
  }

  /** The whole repository is an accepted brief scope that overlaps no sensitive path inside it. */
  lemma WholeRepositoryScope(sensitive: string)
    requires Clean(sensitive)
    ensures BriefPath(".") == Some(".") && !PathScopesOverlap(".", sensitive) && Parts(".") <= Parts(sensitive)
  {
    RootParts();
    assert Strip(".") == ".";
    RootAlone(".", sensitive);
    CleanParts(sensitive);
  }

  // ----- the boundaries of a configuration

  /** denied in path.parents: a proper ancestor, the repository root included. */
  predicate InParents(denied: seq<string>, path: seq<string>) {
    |denied| < |path| && path[..|denied|] == denied
  }

  function Name(path: seq<string>): string {
    if path == [] then "" else path[|path| - 1]
  }

  function Parent(path: seq<string>): seq<string> {
    if path == [] then [] else path[..|path| - 1]
  }

  /** The position of the last dot, or -1. */
  function LastDot(name: string): (i: int)
    ensures -1 <= i < |name|
  {
    if name == [] then -1 else if name[|name| - 1] == '.' then |name| - 1 else LastDot(name[..|name| - 1])
  }

  function Suffix(name: string): string {
    var i := LastDot(name);
    if 0 < i < |name| - 1 then name[i..] else ""
  }

  function Stem(name: string): string {
    var i := LastDot(name);
    if 0 < i < |name| - 1 then name[..i] else name
  }

  predicate EndsWith(s: string, end: string) {
    |end| <= |s| && s[|s| - |end|..] == end
  }

  datatype Boundaries = Boundaries(
    prohibited: seq<string>, artifacts: seq<string>, workspace: bool, container: string, scheme: string,
    harnessFiles: seq<string>, fixtureFile: string, recipeFile: string, harnessProject: string, harnessRoot: string,
    runnerSource: string, runnerTest: string)

  function Pinned(b: Boundaries): seq<string> {
    b.harnessFiles + [b.fixtureFile, b.recipeFile]
  }

  predicate PathsValid(b: Boundaries) {
    && (forall p <- b.prohibited :: RelativeRepositoryPath(p)) && (forall p <- b.artifacts :: RelativeRepositoryPath(p))
    && (forall p <- Pinned(b) :: RelativeRepositoryPath(p))
    && RelativeRepositoryPath(b.container) && RelativeRepositoryPath(b.harnessProject)
    && RelativeRepositoryPath(b.harnessRoot) && RelativeRepositoryPath(b.runnerSource)
  }

  predicate Overlapping(artifact: seq<string>, denied: seq<string>) {
    denied == artifact || InParents(denied, artifact) || InParents(artifact, denied)
  }

  predicate Covered(b: Boundaries, path: seq<string>) {
    exists d <- b.prohibited :: Parts(d) == path || InParents(Parts(d), path)
  }

  function HarnessPaths(b: Boundaries): set<seq<string>> {
    set f <- b.harnessFiles :: Parts(f)
  }

  function ControlFiles(b: Boundaries): set<seq<string>> {
    { Parts(b.container) + ["xcshareddata", "xcschemes", b.scheme + ".xcscheme"],
      Parts(b.container) + ["contents.xcworkspacedata"],
      Parts(b.harnessProject) + ["project.pbxproj"] }
  }

  predicate HarnessClosed(b: Boundaries) {
    var harness, control := HarnessPaths(b), ControlFiles(b);
    var sources := harness - control;
    var runner, root := Parts(b.runnerSource), Parts(b.harnessRoot);
    var segments := Split(b.runnerTest, '/');
    && b.workspace && control <= harness
    && (set p <- harness | Name(p) == "project.pbxproj" && EndsWith(Name(Parent(p)), ".xcodeproj"))
       == {Parts(b.harnessProject) + ["project.pbxproj"]}
    && InParents(root, runner)
    && runner in sources && |segments| > 1 && Stem(Name(runner)) == segments[1]
    && (forall p <- sources :: Suffix(Name(p)) == ".swift")
    && (forall p <- harness :: p in control || InParents(root, p))
  }

  /** The boundary check of a repository configuration. */
  predicate Accepted(b: Boundaries) {
    && (forall a <- b.artifacts, d <- b.prohibited :: !Overlapping(Parts(a), Parts(d)))
    && !Covered(b, Parts(b.container))
    && HarnessClosed(b)
    && (forall p <- Pinned(b) :: Covered(b, Parts(p)))
    && Covered(b, Parts(b.harnessRoot))
  }

  lemma OverlappingIsComparable(a: seq<string>, d: seq<string>)
    ensures Overlapping(a, d) <==> Comparable(a, d)
  {
    PrefixCases(a, d);
    PrefixCases(d, a);
  }

  lemma PrefixesComparable(a: seq<string>, d: seq<string>, path: seq<string>)
    ensures a <= path && d <= path ==> Comparable(a, d)
    ensures d <= path && path <= a ==> Comparable(a, d)
  {
    if a <= path && d <= path {
      if |a| <= |d| { assert a == path[..|a|] == d[..|a|]; } else { assert d == path[..|d|] == a[..|d|]; }
    }
  }

  /** What is covered by a prohibited path is comparable to nothing that avoids all of them. */
  lemma CoveredApart(b: Boundaries, artifact: seq<string>, path: seq<string>)
    requires Covered(b, path) && forall d <- b.prohibited :: !Overlapping(artifact, Parts(d))
    ensures !Comparable(artifact, path)
  {
    var d :| d in b.prohibited && (Parts(d) == path || InParents(Parts(d), path));
    OverlappingIsComparable(artifact, Parts(d));
    PrefixesComparable(artifact, Parts(d), path);
  }

  /** In every accepted configuration no artifact path equals, contains or lies under a pinned trust
      file or the harness source root, neither by components nor by the string test. */
  lemma ArtifactsApart(b: Boundaries, artifact: string, trusted: string)
    requires PathsValid(b) && Accepted(b) && artifact in b.artifacts && (trusted in Pinned(b) || trusted == b.harnessRoot)
    ensures !Comparable(Parts(artifact), Parts(trusted)) && !PathScopesOverlap(artifact, trusted)
  {
    assert RelativeRepositoryPath(artifact) && RelativeRepositoryPath(trusted);
    CanonicalIsClean(artifact);
    CanonicalIsClean(trusted);
    assert Covered(b, Parts(trusted));
    forall d <- b.prohibited ensures !Overlapping(Parts(artifact), Parts(d)) { }
    CoveredApart(b, Parts(artifact), Parts(trusted));
    OverlapIsComparable(artifact, trusted);
  }

  /** Every file the harness compiles lies under the prohibited source root or is a named control
      file, and no prohibited path contains the workspace. */
  lemma HarnessProtected(b: Boundaries, file: string)
    requires PathsValid(b) && Accepted(b) && file in b.harnessFiles
    ensures Parts(file) in ControlFiles(b) || Parts(b.harnessRoot) < Parts(file)
    ensures forall d <- b.prohibited :: !(Parts(d) <= Parts(b.container))
  {
    HarnessFile(b, Parts(file));
    forall d <- b.prohibited ensures !(Parts(d) <= Parts(b.container)) { NotCovered(b, Parts(b.container), d); }
  }

  lemma HarnessFile(b: Boundaries, path: seq<string>)
    requires HarnessClosed(b) && path in HarnessPaths(b)
    ensures path in ControlFiles(b) || Parts(b.harnessRoot) < path
  {
  }

  lemma NotCovered(b: Boundaries, path: seq<string>, d: string)
    requires !Covered(b, path) && d in b.prohibited
    ensures !(Parts(d) <= path)
  {
    assert !(Parts(d) == path || InParents(Parts(d), path));
    PrefixCases(Parts(d), path);
  }
}
