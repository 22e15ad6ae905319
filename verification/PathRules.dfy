/** Which paths a brief may name and which configurations keep their boundaries, said by components. */
module PathRules {
  import opened Wrappers
  import opened Text
  import opened RepositoryPaths

  // ----- the paths of a brief

  const BLANKS: set<int> := {
    0x09, 0x0A, 0x0B, 0x0C, 0x0D, 0x1C, 0x1D, 0x1E, 0x1F, 0x20, 0x85, 0xA0, 0x1680, 0x2000, 0x2001, 0x2002, 0x2003,
    0x2004, 0x2005, 0x2006, 0x2007, 0x2008, 0x2009, 0x200A, 0x2028, 0x2029, 0x202F, 0x205F, 0x3000}

  /** The part from i to j, with only blanks before and behind it and none at its ends. */
  ghost predicate CutAt(value: string, i: nat, j: nat, blank: char -> bool) {
    && i <= j <= |value|
    && (forall k :: 0 <= k < i ==> blank(value[k])) && (forall k :: j <= k < |value| ==> blank(value[k]))
    && (i < j ==> !blank(value[i]) && !blank(value[j - 1]))
  }

  /** The text between its blank ends. */
  ghost predicate TrimmedBy(value: string, s: string, blank: char -> bool) {
    exists i: nat, j: nat :: CutAt(value, i, j, blank) && s == value[i..j]
  }

  ghost predicate Trimmed(value: string, s: string) {
    TrimmedBy(value, s, c => c as int in BLANKS)
  }

  lemma SpaceIs(c: char)
    ensures Space(c) <==> c as int in BLANKS
  {
  }

  lemma {:induction false} StripLeftIs(s: string, blank: char -> bool) returns (n: nat)
    requires forall c :: Space(c) <==> blank(c)
    ensures n <= |s| && StripLeft(s) == s[n..] && (forall k :: 0 <= k < n ==> blank(s[k])) && (n < |s| ==> !blank(s[n]))
    decreases |s|
  {
    if s != [] && Space(s[0]) {
      var m := StripLeftIs(s[1..], blank);
      n := m + 1;
      assert s[n..] == s[1..][m..];
      forall k | 0 <= k < n ensures blank(s[k]) { if k > 0 { assert s[k] == s[1..][k - 1]; } }
    } else {
      n := 0;
      assert s[0..] == s;
    }
  }

  lemma {:induction false} StripRightIs(s: string, blank: char -> bool) returns (n: nat)
    requires forall c :: Space(c) <==> blank(c)
    ensures n <= |s| && StripRight(s) == s[..n] && (forall k :: n <= k < |s| ==> blank(s[k])) && (n > 0 ==> !blank(s[n - 1]))
    decreases |s|
  {
    if s != [] && Space(s[|s| - 1]) {
      var init := s[..|s| - 1];
      n := StripRightIs(init, blank);
      assert s[..n] == init[..n];
      forall k | n <= k < |s| ensures blank(s[k]) { if k < |init| { assert s[k] == init[k]; } }
    } else {
      n := |s|;
      assert s[..n] == s;
    }
  }

  lemma StripTrims(value: string, blank: char -> bool)
    requires forall c :: Space(c) <==> blank(c)
    ensures TrimmedBy(value, Strip(value), blank)
  {
    var i := StripLeftIs(value, blank);
    var left := value[i..];
    var m := StripRightIs(left, blank);
    var j := i + m;
    assert left[..m] == value[i..j];
    forall k | j <= k < |value| ensures blank(value[k]) { assert value[k] == left[k - i]; }
    if i < j { assert value[j - 1] == left[m - 1]; }
    assert CutAt(value, i, j, blank);
  }

  lemma CutOnce(value: string, i: nat, j: nat, i': nat, j': nat, blank: char -> bool)
    requires CutAt(value, i, j, blank) && CutAt(value, i', j', blank)
    ensures value[i..j] == value[i'..j']
  {
    assert i' < j' ==> i <= i' < j;
    if i < j {
      assert i' <= i < j' && i' < j' by { assert !blank(value[i]); }
      assert i <= i' && j' == j by { assert !blank(value[i']) && !blank(value[j' - 1]) && !blank(value[j - 1]); }
    }
  }

  lemma TrimmedOnceBy(value: string, s: string, blank: char -> bool)
    requires forall c :: Space(c) <==> blank(c)
    ensures TrimmedBy(value, s, blank) <==> s == Strip(value)
  {
    StripTrims(value, blank);
    if TrimmedBy(value, s, blank) {
      var i: nat, j: nat :| CutAt(value, i, j, blank) && s == value[i..j];
      var i': nat, j': nat :| CutAt(value, i', j', blank) && Strip(value) == value[i'..j'];
      CutOnce(value, i, j, i', j', blank);
    }
  }

  lemma TrimmedOnce(value: string, s: string)
    ensures Trimmed(value, s) <==> s == Strip(value)
  {
    forall c ensures Space(c) <==> c as int in BLANKS { SpaceIs(c); }
    TrimmedOnceBy(value, s, c => c as int in BLANKS);
  }

  /** The components that name something. */
  function Named(parts: seq<string>): seq<string> {
    if parts == [] then []
    else
      var last := parts[|parts| - 1];
      Named(parts[..|parts| - 1]) + if last == "" || last == "." then [] else [last]
  }

  lemma {:induction false} KeepAppends(a: seq<string>, p: string)
    ensures Keep(a + [p]) == Keep(a) + if p == "" || p == "." then [] else [p]
    decreases |a|
  {
    if a == [] {
      assert a + [p] == [p] && [p][1..] == [];
    } else {
      assert (a + [p])[1..] == a[1..] + [p];
      KeepAppends(a[1..], p);
    }
  }

  lemma {:induction false} NamedIsKeep(parts: seq<string>)
    ensures Named(parts) == Keep(parts)
    decreases |parts|
  {
    if parts != [] {
      NamedIsKeep(parts[..|parts| - 1]);
      KeepAppends(parts[..|parts| - 1], parts[|parts| - 1]);
      assert parts == parts[..|parts| - 1] + [parts[|parts| - 1]];
    }
  }

  lemma {:induction false} KeptDots(parts: seq<string>)
    ensures ".." in Keep(parts) <==> ".." in parts
    decreases |parts|
  {
    if parts != [] {
      KeptDots(parts[1..]);
      assert parts == [parts[0]] + parts[1..];
    }
  }

  /** A brief takes a path of at most 500 characters between its blanks that is neither absolute nor from a
      home, has no backslash and no parent component; it keeps the named components, or a dot when there
      are none. */
  lemma BriefPathExactly(value: string, p: string)
    ensures BriefPath(value) == Some(p)
            <==> exists s :: Trimmed(value, s) && 1 <= |s| <= 500 && s[0] != '/' && s[0] != '~' && '\\' !in s
                             && ".." !in Split(s, '/')
                             && p == if Named(Split(s, '/')) == [] then "." else Join(Named(Split(s, '/')), '/')
  {
    forall s ensures Trimmed(value, s) <==> s == Strip(value) { TrimmedOnce(value, s); }
    var s := Strip(value);
    NamedIsKeep(Split(s, '/'));
    KeptDots(Split(s, '/'));
    assert Trimmed(value, s);
  }

  // ----- the boundaries of a configuration

  /** A valid repository path: 1 to 1024 characters without blanks at its ends, control characters or
      backslashes, none of whose components is empty, a dot or two dots. */
  predicate ValidPath(s: string) {
    && 1 <= |s| <= 1024 && s[0] as int !in BLANKS && s[|s| - 1] as int !in BLANKS
    && (forall c <- s :: 0x20 <= c as int && c != '\\')
    && forall p <- Split(s, '/') :: p != "" && p != "." && p != ".."
  }

  lemma ValidPathExactly(s: string)
    ensures RelativeRepositoryPath(s) <==> ValidPath(s)
  {
    CanonicalIsClean(s);
    TrimmedOnce(s, s);
    if s != "" && s[0] as int !in BLANKS && s[|s| - 1] as int !in BLANKS {
      assert s == s[0..|s|];
      assert CutAt(s, 0, |s|, c => c as int in BLANKS);
    }
    if forall c <- s :: 0x20 <= c as int && c != '\\' { assert (0 as char) !in s; }
  }

  lemma {:induction false} ValidParts(s: string)
    requires RelativeRepositoryPath(s)
    ensures Parts(s) == Split(s, '/')
  {
    CanonicalIsClean(s);
    CleanParts(s);
  }

  function At(s: string): seq<string> { Split(s, '/') }

  /** The first path contains the second, or is it. */
  predicate Holds(a: seq<string>, b: seq<string>) { |a| <= |b| && b[..|a|] == a }

  ghost predicate Denied(b: Boundaries, path: seq<string>) {
    exists d :: d in b.prohibited && Holds(At(d), path)
  }

  /** The three files that control how the harness is built. */
  predicate Control(b: Boundaries, path: seq<string>) {
    || path == At(b.container) + ["xcshareddata", "xcschemes", b.scheme + ".xcscheme"]
    || path == At(b.container) + ["contents.xcworkspacedata"]
    || path == At(b.harnessProject) + ["project.pbxproj"]
  }

  ghost predicate InHarness(b: Boundaries, path: seq<string>) {
    exists f :: f in b.harnessFiles && At(f) == path
  }

  /** A project file inside a project directory. */
  ghost predicate ProjectFile(path: seq<string>) {
    |path| >= 2 && path[|path| - 1] == "project.pbxproj" && exists x: string :: path[|path| - 2] == x + ".xcodeproj"
  }

  ghost predicate SwiftFile(path: seq<string>, stem: string) {
    path != [] && stem != "" && path[|path| - 1] == stem + ".swift"
  }

  ghost predicate IsSwift(path: seq<string>) {
    exists stem :: SwiftFile(path, stem)
  }

  ghost predicate Source(b: Boundaries, path: seq<string>) {
    InHarness(b, path) && !Control(b, path)
  }

  ghost predicate ControlsPresent(b: Boundaries) {
    forall path :: Control(b, path) ==> InHarness(b, path)
  }

  ghost predicate OneProject(b: Boundaries) {
    && ProjectFile(At(b.harnessProject) + ["project.pbxproj"])
    && forall path :: InHarness(b, path) && ProjectFile(path) ==> path == At(b.harnessProject) + ["project.pbxproj"]
  }

  ghost predicate SwiftSources(b: Boundaries) {
    forall path :: Source(b, path) ==> IsSwift(path)
  }

  ghost predicate SourcesBelow(b: Boundaries) {
    forall path :: Source(b, path) ==> Holds(At(b.harnessRoot), path) && path != At(b.harnessRoot)
  }

  ghost predicate RunnerNamed(b: Boundaries) {
    && Holds(At(b.harnessRoot), At(b.runnerSource)) && At(b.runnerSource) != At(b.harnessRoot)
    && |At(b.runnerTest)| >= 2 && SwiftFile(At(b.runnerSource), At(b.runnerTest)[1])
  }

  /** A workspace whose harness has its control files, no other project, and otherwise only Swift sources
      below its root, among them the runner, which the test names. */
  ghost predicate HarnessInOrder(b: Boundaries) {
    && b.workspace && ControlsPresent(b) && OneProject(b) && SwiftSources(b) && SourcesBelow(b) && RunnerNamed(b)
    && Source(b, At(b.runnerSource))
  }

  lemma HoldsIs(a: seq<string>, b: seq<string>)
    ensures Holds(a, b) <==> a <= b
    ensures InParents(a, b) <==> Holds(a, b) && a != b
  {
    if |a| == |b| && Holds(a, b) { assert b[..|a|] == b; }
  }

  lemma {:induction false} LastDotIs(name: string, stem: string, ext: string)
    requires name == stem + "." + ext && '.' !in ext
    ensures LastDot(name) == |stem|
    decreases |ext|
  {
    if ext == "" {
      assert name[|name| - 1] == '.';
    } else {
      assert name[|name| - 1] == ext[|ext| - 1];
      assert ext[|ext| - 1] in ext;
      assert name[..|name| - 1] == stem + "." + ext[..|ext| - 1];
      LastDotIs(name[..|name| - 1], stem, ext[..|ext| - 1]);
    }
  }

  lemma SwiftIs(name: string, stem: string)
    ensures Suffix(name) == ".swift" && Stem(name) == stem <==> stem != "" && name == stem + ".swift"
  {
    if stem != "" && name == stem + ".swift" {
      assert name == stem + "." + "swift";
      LastDotIs(name, stem, "swift");
      assert name[|stem|..] == ".swift";
    }
    if Suffix(name) == ".swift" && Stem(name) == stem {
      var i := LastDot(name);
      assert name == name[..i] + name[i..];
    }
  }

  lemma SuffixIs(path: seq<string>)
    ensures Suffix(Name(path)) == ".swift" <==> exists stem :: SwiftFile(path, stem)
  {
    if Suffix(Name(path)) == ".swift" {
      SwiftIs(Name(path), Stem(Name(path)));
      assert SwiftFile(path, Stem(Name(path)));
    }
    if stem :| SwiftFile(path, stem) { SwiftIs(Name(path), stem); }
  }

  lemma ProjectFileIs(path: seq<string>)
    requires |path| >= 2
    ensures ProjectFile(path) <==> Name(path) == "project.pbxproj" && EndsWith(Name(Parent(path)), ".xcodeproj")
  {
    var dir := path[|path| - 2];
    assert Name(Parent(path)) == dir;
    if EndsWith(dir, ".xcodeproj") { assert dir == dir[..|dir| - 10] + ".xcodeproj"; }
    if x: string :| dir == x + ".xcodeproj" { assert dir[|dir| - 10..] == ".xcodeproj"; }
  }

  // ----- the boundary check, component by component

  lemma DeniedIs(b: Boundaries, path: seq<string>)
    requires PathsValid(b)
    ensures Denied(b, path) <==> Covered(b, path)
  {
    forall d <- b.prohibited ensures Holds(At(d), path) <==> Parts(d) == path || InParents(Parts(d), path) {
      ValidParts(d);
      HoldsIs(At(d), path);
    }
  }

  lemma ControlIs(b: Boundaries, path: seq<string>)
    requires PathsValid(b)
    ensures Control(b, path) <==> path in ControlFiles(b)
  {
    ValidParts(b.container);
    ValidParts(b.harnessProject);
  }

  lemma InHarnessIs(b: Boundaries, path: seq<string>)
    requires PathsValid(b)
    ensures InHarness(b, path) <==> path in HarnessPaths(b)
  {
    forall f <- b.harnessFiles ensures Parts(f) == At(f) { assert f in Pinned(b); ValidParts(f); }
  }

  ghost predicate ProjectName(path: seq<string>) {
    Name(path) == "project.pbxproj" && EndsWith(Name(Parent(path)), ".xcodeproj")
  }

  lemma ProjectNameIs(path: seq<string>)
    ensures ProjectName(path) <==> ProjectFile(path)
  {
    if |path| >= 2 { ProjectFileIs(path); }
  }

  /** The harness has exactly one project file, the configured one. */
  lemma OnlyProject(b: Boundaries)
    requires PathsValid(b)
    ensures var own := Parts(b.harnessProject) + ["project.pbxproj"];
            (set p <- HarnessPaths(b) | Name(p) == "project.pbxproj" && EndsWith(Name(Parent(p)), ".xcodeproj")) == {own}
            <==> InHarness(b, own) && OneProject(b)
  {
    ValidParts(b.harnessProject);
    var own := Parts(b.harnessProject) + ["project.pbxproj"];
    var found := set p <- HarnessPaths(b) | Name(p) == "project.pbxproj" && EndsWith(Name(Parent(p)), ".xcodeproj");
    forall path ensures path in found <==> InHarness(b, path) && ProjectFile(path) {
      InHarnessIs(b, path);
      ProjectNameIs(path);
    }
    if found == {own} { assert own in found; }
  }

  lemma SourceIs(b: Boundaries, path: seq<string>)
    requires PathsValid(b)
    ensures Source(b, path) <==> path in HarnessPaths(b) - ControlFiles(b)
  {
    InHarnessIs(b, path);
    ControlIs(b, path);
  }

  lemma SwiftSourcesIs(b: Boundaries)
    requires PathsValid(b)
    ensures (forall p <- HarnessPaths(b) - ControlFiles(b) :: Suffix(Name(p)) == ".swift") <==> SwiftSources(b)
  {
    forall path
      ensures Source(b, path) <==> path in HarnessPaths(b) - ControlFiles(b)
      ensures Suffix(Name(path)) == ".swift" <==> IsSwift(path)
    {
      SourceIs(b, path);
      SuffixIs(path);
    }
  }

  lemma SourcesBelowIs(b: Boundaries)
    requires PathsValid(b)
    ensures (forall p <- HarnessPaths(b) :: p in ControlFiles(b) || InParents(Parts(b.harnessRoot), p)) <==> SourcesBelow(b)
  {
    ValidParts(b.harnessRoot);
    forall path
      ensures Source(b, path) <==> path in HarnessPaths(b) - ControlFiles(b)
      ensures InParents(Parts(b.harnessRoot), path) <==> Holds(At(b.harnessRoot), path) && path != At(b.harnessRoot)
    {
      SourceIs(b, path);
      HoldsIs(At(b.harnessRoot), path);
    }
  }

  lemma RunnerIs(b: Boundaries)
    requires PathsValid(b)
    ensures var runner, segments := Parts(b.runnerSource), Split(b.runnerTest, '/');
            InParents(Parts(b.harnessRoot), runner) && |segments| > 1 && Suffix(Name(runner)) == ".swift" && Stem(Name(runner)) == segments[1]
            <==> RunnerNamed(b)
  {
    ValidParts(b.harnessRoot);
    ValidParts(b.runnerSource);
    HoldsIs(At(b.harnessRoot), At(b.runnerSource));
    if |At(b.runnerTest)| >= 2 { SwiftIs(Name(At(b.runnerSource)), At(b.runnerTest)[1]); }
  }

  lemma ControlsThere(b: Boundaries)
    requires PathsValid(b)
    ensures ControlFiles(b) <= HarnessPaths(b) <==> ControlsPresent(b)
    ensures Control(b, Parts(b.harnessProject) + ["project.pbxproj"]) && At(b.harnessProject) == Parts(b.harnessProject)
  {
    ValidParts(b.harnessProject);
    forall path ensures InHarness(b, path) <==> path in HarnessPaths(b)
      ensures Control(b, path) <==> path in ControlFiles(b)
    {
      InHarnessIs(b, path);
      ControlIs(b, path);
    }
  }

  lemma RunnerSource(b: Boundaries)
    requires PathsValid(b)
    ensures Parts(b.runnerSource) in HarnessPaths(b) - ControlFiles(b)
            <==> Source(b, At(b.runnerSource))
  {
    ValidParts(b.runnerSource);
    SourceIs(b, At(b.runnerSource));
  }

  /** The runner is a Swift file when the sources are, so its stem says everything. */
  lemma RunnerStem(b: Boundaries)
    requires PathsValid(b)
    requires (forall p <- HarnessPaths(b) - ControlFiles(b) :: Suffix(Name(p)) == ".swift") && Parts(b.runnerSource) in HarnessPaths(b) - ControlFiles(b)
    ensures var runner, segments := Parts(b.runnerSource), Split(b.runnerTest, '/');
            InParents(Parts(b.harnessRoot), runner) && |segments| > 1 && Stem(Name(runner)) == segments[1] <==> RunnerNamed(b)
  {
    RunnerIs(b);
  }

  lemma HarnessIs(b: Boundaries)
    requires PathsValid(b)
    ensures HarnessClosed(b) <==> HarnessInOrder(b)
  {
    ControlsThere(b);
    OnlyProject(b);
    SwiftSourcesIs(b);
    SourcesBelowIs(b);
    RunnerSource(b);
    if SwiftSources(b) && Parts(b.runnerSource) in HarnessPaths(b) - ControlFiles(b) { RunnerStem(b); }
  }

  ghost predicate ArtifactsFree(b: Boundaries) {
    forall a, d :: a in b.artifacts && d in b.prohibited ==> !Holds(At(a), At(d)) && !Holds(At(d), At(a))
  }

  lemma ArtifactsFreeIs(b: Boundaries)
    requires PathsValid(b)
    ensures ArtifactsFree(b) <==> forall a <- b.artifacts, d <- b.prohibited :: !Overlapping(Parts(a), Parts(d))
  {
    forall a, d | a in b.artifacts && d in b.prohibited
      ensures Overlapping(Parts(a), Parts(d)) <==> Holds(At(a), At(d)) || Holds(At(d), At(a))
    {
      ValidParts(a);
      ValidParts(d);
      HoldsIs(At(a), At(d));
      HoldsIs(At(d), At(a));
    }
  }

  ghost predicate AllDenied(b: Boundaries, files: seq<string>) {
    forall f <- files :: Denied(b, At(f))
  }

  lemma AllDeniedIs(b: Boundaries, files: seq<string>)
    requires PathsValid(b) && forall f <- files :: RelativeRepositoryPath(f)
    ensures AllDenied(b, files) <==> forall f <- files :: Covered(b, Parts(f))
  {
    forall f <- files ensures Denied(b, At(f)) <==> Covered(b, Parts(f)) {
      ValidParts(f);
      DeniedIs(b, At(f));
    }
  }

  /** A configuration with valid paths is accepted if and only if no artifact path and no prohibited path
      contains the other, no prohibited path contains the workspace, the harness is in order, and every
      pinned file and the harness source root lie in a prohibited path. */
  lemma AcceptedExactly(b: Boundaries)
    requires PathsValid(b)
    ensures Accepted(b)
            <==> && ArtifactsFree(b) && !Denied(b, At(b.container)) && HarnessInOrder(b)
                 && AllDenied(b, b.harnessFiles + [b.fixtureFile, b.recipeFile, b.harnessRoot])
  {
    hide Accepted, HarnessClosed, HarnessInOrder, ArtifactsFree, PathsValid, Denied, Covered, AllDenied, At;
    AcceptedIs(b);
    HarnessIs(b);
    FilesDenied(b);
    ContainerFree(b);
  }

  lemma AcceptedIs(b: Boundaries)
    requires PathsValid(b)
    ensures Accepted(b)
            <==> && ArtifactsFree(b) && !Covered(b, Parts(b.container)) && HarnessClosed(b)
                 && (forall p <- Pinned(b) :: Covered(b, Parts(p))) && Covered(b, Parts(b.harnessRoot))
  {
    hide HarnessClosed, PathsValid, Covered, ArtifactsFree, Parts;
    ArtifactsFreeIs(b);
  }

  lemma ContainerFree(b: Boundaries)
    requires PathsValid(b)
    ensures Denied(b, At(b.container)) <==> Covered(b, Parts(b.container))
  {
    ValidParts(b.container);
    DeniedIs(b, At(b.container));
  }

  lemma FilesDenied(b: Boundaries)
    requires PathsValid(b)
    ensures AllDenied(b, b.harnessFiles + [b.fixtureFile, b.recipeFile, b.harnessRoot])
            <==> (forall p <- Pinned(b) :: Covered(b, Parts(p))) && Covered(b, Parts(b.harnessRoot))
  {
    hide RelativeRepositoryPath, Covered, Denied, AllDenied, Parts;
    var files := b.harnessFiles + [b.fixtureFile, b.recipeFile, b.harnessRoot];
    assert forall f <- files :: f in Pinned(b) || f == b.harnessRoot;
    AllDeniedIs(b, files);
    assert b.harnessRoot in files && forall f <- Pinned(b) :: f in files;
  }
}
