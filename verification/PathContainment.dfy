/**
 * Lexical containment of paths on posix. Node's `normalize` and `resolve` are modelled
 * on components; the string-prefix tests of the source are then shown to decide when
 * one component list is a prefix of another, and where they do not.
 */
module PathContainment {
  import opened Common
  import opened Separators

  // ------------------------------------------------------- Node's path functions

  predicate IsAbsolute(p: string) {
    p != "" && p[0] == '/'
  }

  predicate EndsWithSlash(p: string) {
    p != "" && p[|p| - 1] == '/'
  }

  /** Walking through `names` from `at`: "." stays, ".." goes up, or is kept where there is no up. */
  function Walk(at: seq<string>, names: seq<string>, aboveRoot: bool): seq<string>
    decreases |names|
  {
    if names == [] then at
    else if names[0] == "." then Walk(at, names[1..], aboveRoot)
    else if names[0] != ".." then Walk(at + [names[0]], names[1..], aboveRoot)
    else if at != [] && at[|at| - 1] != ".." then Walk(at[..|at| - 1], names[1..], aboveRoot)
    else Walk(if aboveRoot then at + [".."] else at, names[1..], aboveRoot)
  }

  /** What a path is after normalisation; a relative path that goes nowhere is ".". */
  function Segments(p: string): seq<string> {
    var cs := Walk([], Components(p, '/'), !IsAbsolute(p));
    if cs == [] && !IsAbsolute(p) then ["."] else cs
  }

  function Root(p: string): string {
    if IsAbsolute(p) then "/" else ""
  }

  function Slash(present: bool): string {
    if present then "/" else ""
  }

  /** A trailing slash survives normalisation, except that of the root. */
  predicate KeepsSlash(p: string) {
    EndsWithSlash(p) && Segments(p) != []
  }

  function Normalize(p: string): string {
    Root(p) + Join(Segments(p), '/') + Slash(KeepsSlash(p))
  }

  /** The components of `resolve(base, p)`; `cwd` is the absolute working directory of the process. */
  function ResolvedSegments(cwd: string, base: string, p: string): seq<string> {
    var names :=
      if IsAbsolute(p) then Components(p, '/')
      else if IsAbsolute(base) then Components(base, '/') + Components(p, '/')
      else Components(cwd, '/') + Components(base, '/') + Components(p, '/');
    Walk([], names, false)
  }

  function Resolve(cwd: string, base: string, p: string): string {
    "/" + Join(ResolvedSegments(cwd, base, p), '/')
  }

  // ------------------------------------------------------- the source's tests

  function StripQuotes(t: string): string {
    var u := if t != "" && (t[0] == '\'' || t[0] == '"') then t[1..] else t;
    if u != "" && (u[|u| - 1] == '\'' || u[|u| - 1] == '"') then u[..|u| - 1] else u
  }

  function ExpandHome(cwd: string, home: string, p: string): string {
    if p == "~" then home
    else if |p| >= 2 && p[0] == '~' && (p[1] == '/' || p[1] == '\\') then Resolve(cwd, home, p[2..])
    else p
  }

  function ResolvePath(cwd: string, home: string, token: string, workspaceRoot: string): string {
    var p := ExpandHome(cwd, home, StripQuotes(token));
    Normalize(if IsAbsolute(p) then p else Resolve(cwd, workspaceRoot, p))
  }

  predicate IsUnder(child: string, parent: string) {
    var c, pa := Normalize(child), Normalize(parent);
    c == pa || (if EndsWithSlash(pa) then pa else pa + "/") <= c
  }

  datatype Cwd = Accepted(path: string) | Absolute | Escapes

  /** The textual part of `resolveCwd`; `None` is an absent or null working directory. */
  function ResolveCwd(cwd: string, workspaceRoot: string, workingDirectory: Option<string>): Cwd {
    if workingDirectory.None? || workingDirectory.value == "" then Accepted(workspaceRoot)
    else if IsAbsolute(workingDirectory.value) then Absolute
    else
      var resolved := Resolve(cwd, workspaceRoot, workingDirectory.value);
      var root := Resolve(cwd, workspaceRoot, "");
      if resolved != root && !(root + "/" <= resolved) then Escapes
      else Accepted(resolved)
  }

  // ------------------------------------------------------- what walking keeps

  ghost predicate Plain(cs: seq<string>) {
    AreComponents(cs, '/') && "." !in cs
  }

  lemma {:induction false} WalkKeeps(at: seq<string>, names: seq<string>, aboveRoot: bool)
    requires Plain(at) && AreComponents(names, '/')
    ensures Plain(Walk(at, names, aboveRoot))
    decreases |names|
  {
    if names != [] {
      var rest := names[1..];
      if names[0] == "." {
        WalkKeeps(at, rest, aboveRoot);
      } else if names[0] != ".." {
        WalkKeeps(at + [names[0]], rest, aboveRoot);
      } else if at != [] && at[|at| - 1] != ".." {
        WalkKeeps(at[..|at| - 1], rest, aboveRoot);
      } else {
        WalkKeeps(if aboveRoot then at + [".."] else at, rest, aboveRoot);
      }
    }
  }

  lemma {:induction false} WalkOn(at: seq<string>, a: seq<string>, b: seq<string>, aboveRoot: bool)
    ensures Walk(at, a + b, aboveRoot) == Walk(Walk(at, a, aboveRoot), b, aboveRoot)
    decreases |a|
  {
    if a == [] {
      assert a + b == b;
    } else {
      var rest := a[1..];
      assert (a + b)[1..] == rest + b;
      if a[0] == "." {
        WalkOn(at, rest, b, aboveRoot);
      } else if a[0] != ".." {
        WalkOn(at + [a[0]], rest, b, aboveRoot);
      } else if at != [] && at[|at| - 1] != ".." {
        WalkOn(at[..|at| - 1], rest, b, aboveRoot);
      } else {
        WalkOn(if aboveRoot then at + [".."] else at, rest, b, aboveRoot);
      }
    }
  }

  /** Names without dots are walked as they stand. */
  lemma {:induction false} WalkPlain(at: seq<string>, names: seq<string>, aboveRoot: bool)
    requires "." !in names && ".." !in names
    ensures Walk(at, names, aboveRoot) == at + names
    decreases |names|
  {
    if names == [] {
      assert at + names == at;
    } else {
      WalkPlain(at + [names[0]], names[1..], aboveRoot);
      assert at + names == at + [names[0]] + names[1..];
    }
  }

  /** From the root there is no way up, so an absolute walk has no ".." left. */
  lemma {:induction false} NoDotsLeft(at: seq<string>, names: seq<string>)
    requires ".." !in at
    ensures ".." !in Walk(at, names, false)
    decreases |names|
  {
    if names != [] {
      var rest := names[1..];
      if names[0] == "." {
        NoDotsLeft(at, rest);
      } else if names[0] != ".." {
        NoDotsLeft(at + [names[0]], rest);
      } else if at != [] && at[|at| - 1] != ".." {
        NoDotsLeft(at[..|at| - 1], rest);
      } else {
        NoDotsLeft(at, rest);
      }
    }
  }

  lemma SegmentsAre(p: string)
    ensures AreComponents(Segments(p), '/')
    ensures IsAbsolute(p) ==> Plain(Segments(p))
    ensures !IsAbsolute(p) ==> Segments(p) == ["."] || (Segments(p) != [] && "." !in Segments(p))
  {
    ComponentsAre(p, '/');
    WalkKeeps([], Components(p, '/'), !IsAbsolute(p));
  }

  // ------------------------------------------------------- prefixes of strings and of lists

  lemma {:induction false} JoinTerminates(cs: seq<string>)
    requires cs != []
    ensures Join(cs, '/') + "/" == Terminate('/', cs)
  {
    if |cs| > 1 {
      JoinTerminates(cs[1..]);
    } else {
      assert Terminate('/', cs[1..]) == "";
    }
  }

  lemma {:induction false} TerminatePrefix(a: seq<string>, b: seq<string>)
    requires AreFree('/', a) && AreFree('/', b)
    ensures Terminate('/', a) <= Terminate('/', b) <==> a <= b
  {
    if a <= b {
      assert b == a + b[|a|..];
      TerminateConcat('/', a, b[|a|..]);
    }
    if Terminate('/', a) <= Terminate('/', b) {
      assert Terminate('/', a) + "" == Terminate('/', a);
      PartsOfPrefix('/', a, "", b);
    }
  }

  /** One joined path with its slash starts another: as lists, with what the last slash adds. */
  lemma JoinPrefix(a: seq<string>, b: seq<string>, slash: bool)
    requires a != [] && b != [] && AreComponents(a, '/') && AreComponents(b, '/')
    ensures Join(a, '/') + "/" <= Join(b, '/') + Slash(slash)
       <==> a <= b && (a == b ==> slash)
  {
    hide Join, Terminate;
    var s, t := Terminate('/', a), Terminate('/', b);
    JoinTerminates(a);
    JoinTerminates(b);
    TerminatePrefix(a, b);
    TerminatePrefix(b, a);
    if !slash {
      var j := Join(b, '/') + "";
      assert j == t[..|t| - 1];
      assert s <= j <==> s <= t && |s| < |t|;
      if s <= t && |s| == |t| {
        assert t <= s;
      }
    }
  }

  // ------------------------------------------------------- normal paths

  lemma NormalParts(p: string)
    ensures var j := Join(Segments(p), '/');
            if Segments(p) == [] then Normalize(p) == "/" && !KeepsSlash(p)
            else
              && j != "" && j[0] != '/' && j[|j| - 1] != '/'
              && (EndsWithSlash(Normalize(p)) <==> KeepsSlash(p))
              && (IsAbsolute(Normalize(p)) <==> IsAbsolute(p))
  {
    SegmentsAre(p);
    if Segments(p) != [] {
      JoinEnds(Segments(p), '/');
    }
  }

  /** Equal text means equal components. */
  lemma JoinInjective(a: seq<string>, b: seq<string>)
    requires AreComponents(a, '/') && AreComponents(b, '/')
    ensures Join(a, '/') == Join(b, '/') <==> a == b
  {
    JoinedComponents(a, "", '/');
    JoinedComponents(b, "", '/');
    assert Join(a, '/') + "" == Join(a, '/') && Join(b, '/') + "" == Join(b, '/');
  }

  // ------------------------------------------------------- main results

  /**
   * `isUnder` decides whether the parent's components start the child's; only a parent
   * written with a trailing slash does not contain itself written without one.
   */
  lemma IsUnderIff(child: string, parent: string)
    ensures IsUnder(child, parent) <==>
      && IsAbsolute(child) == IsAbsolute(parent)
      && Segments(parent) <= Segments(child)
      && (Segments(parent) == Segments(child) && KeepsSlash(parent) ==> KeepsSlash(child))
  {
    hide Join, Segments, KeepsSlash;
    var a, b := Segments(parent), Segments(child);
    SegmentsAre(parent);
    SegmentsAre(child);
    NormalParts(parent);
    NormalParts(child);
    if IsAbsolute(child) != IsAbsolute(parent) {
      assert Normalize(child)[0] != Normalize(parent)[0];
    } else if a == [] {
      assert Normalize(parent) == "/";
    } else if b == [] {
      assert |Normalize(parent)| > 1;
    } else {
      SameRoot(child, parent);
    }
  }

  lemma SameRoot(child: string, parent: string)
    requires Segments(parent) != [] && Segments(child) != []
    requires IsAbsolute(child) == IsAbsolute(parent)
    ensures IsUnder(child, parent) <==>
      && Segments(parent) <= Segments(child)
      && (Segments(parent) == Segments(child) && KeepsSlash(parent) ==> KeepsSlash(child))
  {
    hide Join, Segments, KeepsSlash, EndsWithSlash;
    var a, b := Segments(parent), Segments(child);
    SegmentsAre(parent);
    SegmentsAre(child);
    NormalParts(parent);
    StartsIff(Root(child), a, KeepsSlash(parent), b, KeepsSlash(child));
    EqualIff(Root(child), a, KeepsSlash(parent), b, KeepsSlash(child));
  }

  lemma StartsIff(root: string, a: seq<string>, aSlash: bool, b: seq<string>, bSlash: bool)
    requires a != [] && b != [] && AreComponents(a, '/') && AreComponents(b, '/')
    ensures var pa := root + Join(a, '/') + Slash(aSlash);
            (if aSlash then pa else pa + "/") <= root + Join(b, '/') + Slash(bSlash)
            <==> a <= b && (a == b ==> bSlash)
  {
    hide Join;
    JoinPrefix(a, b, bSlash);
    var s, t := Join(a, '/') + "/", Join(b, '/') + Slash(bSlash);
    var pa := root + Join(a, '/') + Slash(aSlash);
    assert (if aSlash then pa else pa + "/") == root + s;
    assert root + Join(b, '/') + Slash(bSlash) == root + t;
    AfterRoot(root, s, t);
  }

  lemma EqualIff(root: string, a: seq<string>, aSlash: bool, b: seq<string>, bSlash: bool)
    requires a != [] && b != [] && AreComponents(a, '/') && AreComponents(b, '/')
    ensures root + Join(a, '/') + Slash(aSlash) == root + Join(b, '/') + Slash(bSlash)
       <==> a == b && aSlash == bSlash
  {
    hide Join;
    JoinEnds(a, '/');
    JoinEnds(b, '/');
    JoinInjective(a, b);
    if root + Join(a, '/') + Slash(aSlash) == root + Join(b, '/') + Slash(bSlash) {
      EqualPaths(root, Join(a, '/'), aSlash, Join(b, '/'), bSlash);
    }
  }

  lemma AfterRoot(root: string, s: string, t: string)
    ensures root + s <= root + t <==> s <= t
  {
    assert (root + s)[|root|..] == s && (root + t)[|root|..] == t;
  }

  lemma EqualPaths(root: string, x: string, xSlash: bool, y: string, ySlash: bool)
    requires x != "" && x[|x| - 1] != '/' && y != "" && y[|y| - 1] != '/'
    requires root + x + Slash(xSlash) == root + y + Slash(ySlash)
    ensures x == y && xSlash == ySlash
  {
    var p, q := root + x + Slash(xSlash), root + y + Slash(ySlash);
    assert p[|p| - 1] == '/' <==> xSlash;
    assert q[|q| - 1] == '/' <==> ySlash;
    assert x == p[|root|..|root| + |x|] && y == q[|root|..|root| + |y|];
  }

  /** The test fails for a directory and the same directory with a trailing slash. */
  lemma SlashedParentExcludesItself()
    ensures Segments("/a") == Segments("/a/") == ["a"]
    ensures !IsUnder("/a", "/a/") && IsUnder("/a/", "/a")
  {
  }

  /** A relative path is resolved by walking on from where its base resolves to. */
  lemma ResolvesFromBase(cwd: string, base: string, p: string)
    requires !IsAbsolute(p)
    ensures ResolvedSegments(cwd, base, p) == Walk(ResolvedSegments(cwd, base, ""), Components(p, '/'), false)
  {
    hide Walk;
    OneSeparator('/');
    var before := if IsAbsolute(base) then Components(base, '/') else Components(cwd, '/') + Components(base, '/');
    assert before + [] == before;
    WalkOn([], before, Components(p, '/'), false);
  }

  lemma ResolvedAre(cwd: string, base: string, p: string)
    ensures Plain(ResolvedSegments(cwd, base, p)) && ".." !in ResolvedSegments(cwd, base, p)
  {
    ComponentsAre(cwd, '/');
    ComponentsAre(base, '/');
    ComponentsAre(p, '/');
    var names :=
      if IsAbsolute(p) then Components(p, '/')
      else if IsAbsolute(base) then Components(base, '/') + Components(p, '/')
      else Components(cwd, '/') + Components(base, '/') + Components(p, '/');
    WalkKeeps([], names, false);
    NoDotsLeft([], names);
  }

  /**
   * A relative working directory is accepted exactly when it resolves to the workspace
   * or below it, except that below the filesystem root nothing is accepted.
   */
  lemma ResolveCwdIff(cwd: string, workspaceRoot: string, wd: string)
    requires wd != "" && !IsAbsolute(wd)
    ensures var root := ResolvedSegments(cwd, workspaceRoot, "");
            var target := Walk(root, Components(wd, '/'), false);
            ResolveCwd(cwd, workspaceRoot, Some(wd)) ==
              if root <= target && (root == [] ==> target == []) then Accepted("/" + Join(target, '/'))
              else Escapes
  {
    hide Join, Walk, Components, ResolvedSegments;
    var root, target := ResolvedSegments(cwd, workspaceRoot, ""), ResolvedSegments(cwd, workspaceRoot, wd);
    ResolvesFromBase(cwd, workspaceRoot, wd);
    ResolvedAre(cwd, workspaceRoot, "");
    ResolvedAre(cwd, workspaceRoot, wd);
    JoinOfFew("", '/');
    JoinInjective(root, target);
    AfterRoot("/", Join(root, '/') + "/", Join(target, '/'));
    AfterRoot("/", Join(root, '/'), Join(target, '/'));
    AfterRoot("/", Join(target, '/'), Join(root, '/'));
    assert "/" + Join(root, '/') + "/" == "/" + (Join(root, '/') + "/");
    if target != [] {
      JoinEnds(target, '/');
    }
    if root != [] && target != [] {
      JoinPrefix(root, target, false);
      assert Join(target, '/') + "" == Join(target, '/');
    }
  }

  /** With the filesystem root as workspace, a directory inside it is refused. */
  lemma NothingBelowFilesystemRoot(cwd: string)
    ensures ResolveCwd(cwd, "/", Some("src")) == Escapes
  {
    OneSeparator('/');
    FirstComponent("src", "", '/');
    assert "src" + "" == "src";
    WalkPlain([], ["src"], false);
    ResolveCwdIff(cwd, "/", "src");
  }

  // ------------------------------------------------------- targets of tool calls

  lemma AbsoluteReadBack(cs: seq<string>, slash: bool)
    requires Plain(cs) && ".." !in cs && (cs == [] ==> !slash)
    ensures var p := "/" + Join(cs, '/') + Slash(slash);
            && IsAbsolute(p) && Segments(p) == cs && (KeepsSlash(p) <==> slash)
  {
    hide Join, Components, Walk;
    var trail := Slash(slash);
    var p := "/" + Join(cs, '/') + trail;
    JoinedComponents(cs, trail, '/');
    assert p == "" + "/" + (Join(cs, '/') + trail);
    ComponentsOfParts("", Join(cs, '/') + trail, '/');
    OneSeparator('/');
    WalkPlain([], cs, false);
    assert Components(p, '/') == [] + cs == cs;
    assert IsAbsolute(p) && Segments(p) == cs;
    if cs == [] {
      JoinOfFew("", '/');
    } else {
      JoinEnds(cs, '/');
    }
  }

  /** The components of the path a token stands for. */
  function TargetSegments(cwd: string, home: string, token: string, workspaceRoot: string): seq<string> {
    ResolvedSegments(cwd, workspaceRoot, ExpandHome(cwd, home, StripQuotes(token)))
  }

  lemma ResolvePathTarget(cwd: string, home: string, token: string, workspaceRoot: string)
    ensures var r := ResolvePath(cwd, home, token, workspaceRoot);
            IsAbsolute(r) && Segments(r) == TargetSegments(cwd, home, token, workspaceRoot)
  {
    hide Join, Components, Walk, StripQuotes, ExpandHome;
    var p := ExpandHome(cwd, home, StripQuotes(token));
    var cs := ResolvedSegments(cwd, workspaceRoot, p);
    ResolvedAre(cwd, workspaceRoot, p);
    var q := if IsAbsolute(p) then p else Resolve(cwd, workspaceRoot, p);
    if !IsAbsolute(p) {
      assert q + "" == q;
      AbsoluteReadBack(cs, false);
    }
    assert IsAbsolute(q) && Segments(q) == cs;
    AbsoluteReadBack(cs, KeepsSlash(q));
  }

  /** For a directory given without a trailing slash, the floor's test is component containment. */
  lemma TargetIsUnderIff(cwd: string, home: string, token: string, workspaceRoot: string, dir: string)
    requires IsAbsolute(dir) && !KeepsSlash(dir)
    ensures IsUnder(ResolvePath(cwd, home, token, workspaceRoot), dir)
       <==> Segments(dir) <= TargetSegments(cwd, home, token, workspaceRoot)
  {
    hide ResolvePath, Segments, KeepsSlash, TargetSegments, IsUnder;
    ResolvePathTarget(cwd, home, token, workspaceRoot);
    IsUnderIff(ResolvePath(cwd, home, token, workspaceRoot), dir);
  }

  // ------------------------------------------------------- what dots do

  /** Names that are neither "." nor "..", have no slash and are not empty. */
  ghost predicate AreNames(cs: seq<string>) {
    AreComponents(cs, '/') && "." !in cs && ".." !in cs
  }

  function Dots(k: nat): (r: seq<string>)
    ensures |r| == k && forall i :: 0 <= i < k ==> r[i] == ".."
  {
    seq(k, _ => "..")
  }

  /** Going up `k` times from `r`; at the root it stays. */
  function Up(r: seq<string>, k: nat): seq<string> {
    if k <= |r| then r[..|r| - k] else []
  }

  lemma {:induction false} WalkUp(r: seq<string>, k: nat, ns: seq<string>)
    requires ".." !in r && "." !in ns && ".." !in ns
    ensures Walk(r, Dots(k) + ns, false) == Up(r, k) + ns
    decreases k
  {
    if k == 0 {
      assert Dots(0) + ns == ns && r[..|r|] == r;
      WalkPlain(r, ns, false);
    } else {
      assert (Dots(k) + ns)[1..] == Dots(k - 1) + ns;
      if r == [] {
        WalkUp([], k - 1, ns);
      } else {
        var up := r[..|r| - 1];
        WalkUp(up, k - 1, ns);
        assert Up(up, k - 1) == Up(r, k);
      }
    }
  }

  /** A name and the ".." that follows it cancel, wherever they stand; "." is nothing. */
  lemma {:induction false} Cancels(at: seq<string>, before: seq<string>, x: string, after: seq<string>, aboveRoot: bool)
    requires x != "." && x != ".."
    ensures Walk(at, before + [x, ".."] + after, aboveRoot) == Walk(at, before + after, aboveRoot)
    ensures Walk(at, before + ["."] + after, aboveRoot) == Walk(at, before + after, aboveRoot)
  {
    var here := Walk(at, before, aboveRoot);
    WalkOn(at, before, [x, ".."] + after, aboveRoot);
    WalkOn(at, before, ["."] + after, aboveRoot);
    WalkOn(at, before, after, aboveRoot);
    assert before + [x, ".."] + after == before + ([x, ".."] + after);
    assert before + ["."] + after == before + (["."] + after);
    assert ([x, ".."] + after)[1..] == [".."] + after && ([".."] + after)[1..] == after;
    assert (["."] + after)[1..] == after;
    assert (here + [x])[..|here|] == here;
  }

  lemma ThreeParts(a: string, b: string, c: string)
    requires b != "" && '/' !in b
    ensures Components(a + "/" + b + "/" + c, '/') == Components(a, '/') + [b] + Components(c, '/')
  {
    hide Components;
    OneName(b);
    ComponentsOfParts(b, c, '/');
    ComponentsOfParts(a, b + ['/'] + c, '/');
    assert a + "/" + b + "/" + c == a + ['/'] + (b + ['/'] + c);
  }

  lemma PathComponents(before: string, x: string, after: string)
    requires x != "" && '/' !in x
    ensures Components(before + "/" + x + "/../" + after, '/')
         == Components(before, '/') + [x, ".."] + Components(after, '/')
    ensures Components(before + "/./" + after, '/') == Components(before, '/') + ["."] + Components(after, '/')
    ensures Components(before + "/" + after, '/') == Components(before, '/') + Components(after, '/')
  {
    hide Components;
    ComponentsOfParts(before, after, '/');
    ThreeParts(before, ".", after);
    assert before + "/" + "." + "/" + after == before + "/./" + after;
    var inner := before + "/" + x;
    ThreeParts(inner, "..", after);
    assert inner + "/" + ".." + "/" + after == before + "/" + x + "/../" + after;
    ComponentsOfParts(before, x, '/');
    OneName(x);
    assert Components(before, '/') + [x] + [".."] == Components(before, '/') + [x, ".."];
  }

  lemma OneName(x: string)
    requires x != "" && '/' !in x
    ensures Components(x, '/') == [x]
  {
    FirstComponent(x, "", '/');
    OneSeparator('/');
    assert x + "" == x;
  }

  /** Into a directory and out again, or staying where one is, changes no normalised and no resolved path. */
  lemma DetoursDoNotMatter(cwd: string, base: string, before: string, x: string, after: string)
    requires x != "" && '/' !in x && x != "." && x != ".."
    ensures Segments(before + "/" + x + "/../" + after) == Segments(before + "/" + after)
    ensures Resolve(cwd, base, before + "/" + x + "/../" + after) == Resolve(cwd, base, before + "/" + after)
    ensures Segments(before + "/./" + after) == Segments(before + "/" + after)
    ensures Resolve(cwd, base, before + "/./" + after) == Resolve(cwd, base, before + "/" + after)
  {
    hide Components, Walk, Join;
    PathComponents(before, x, after);
    var b, a := Components(before, '/'), Components(after, '/');
    var p := before + "/" + after;
    assert IsAbsolute(p) == IsAbsolute(before + "/" + x + "/../" + after) == IsAbsolute(before + "/./" + after);
    Cancels([], b, x, a, !IsAbsolute(p));
    var lead :=
      if IsAbsolute(p) then [] else if IsAbsolute(base) then Components(base, '/')
      else Components(cwd, '/') + Components(base, '/');
    Cancels([], lead + b, x, a, false);
    assert lead + (b + a) == lead + b + a;
    assert lead + (b + [x, ".."] + a) == lead + b + [x, ".."] + a;
    assert lead + (b + ["."] + a) == lead + b + ["."] + a;
    assert [] + b == b;
  }

  /** The absolute path with these names. */
  function PathOf(names: seq<string>): string {
    "/" + Join(names, '/')
  }

  lemma NamesOfPath(cs: seq<string>)
    requires AreComponents(cs, '/')
    ensures Components(PathOf(cs), '/') == cs && Components(Join(cs, '/'), '/') == cs
    ensures Join(cs, '/') == "" || Join(cs, '/')[0] != '/'
  {
    hide Join, Components;
    JoinedComponents(cs, "", '/');
    assert Join(cs, '/') + "" == Join(cs, '/');
    assert PathOf(cs) == "" + "/" + Join(cs, '/');
    ComponentsOfParts("", Join(cs, '/'), '/');
    OneSeparator('/');
    if cs == [] {
      JoinOfFew("", '/');
    }
  }

  /**
   * A working directory that goes up `k` times and then down into `ns` is accepted exactly
   * when that leads to the workspace or below, except that below the filesystem root
   * nothing is accepted; and it is where it leads.
   */
  lemma ResolveCwdByNames(cwd: string, r: seq<string>, k: nat, ns: seq<string>)
    requires AreNames(r) && AreNames(ns) && k + |ns| > 0
    ensures var target := Up(r, k) + ns;
            ResolveCwd(cwd, "/" + Join(r, '/'), Some(Join(Dots(k) + ns, '/'))) ==
              if r <= target && (r == [] ==> target == []) then Accepted("/" + Join(target, '/')) else Escapes
  {
    hide Join, Components, Walk;
    var wd := Join(Dots(k) + ns, '/');
    NamesOfPath(r);
    NamesOfPath(Dots(k) + ns);
    JoinEnds(Dots(k) + ns, '/');
    OneSeparator('/');
    WalkUp([], 0, r);
    assert Dots(0) + r == r && Up([], 0) + r == r;
    assert ResolvedSegments(cwd, PathOf(r), "") == r by {
      assert r + Components("", '/') == r;
    }
    WalkUp(r, k, ns);
    ResolveCwdIff(cwd, PathOf(r), wd);
  }

  /** In short: up at all is accepted only if the same names are taken down again. */
  lemma EscapesIff(cwd: string, r: seq<string>, k: nat, ns: seq<string>)
    requires AreNames(r) && AreNames(ns) && k + |ns| > 0 && r != [] && k <= |r|
    ensures ResolveCwd(cwd, "/" + Join(r, '/'), Some(Join(Dots(k) + ns, '/'))) == Escapes
       <==> !(r[|r| - k..] <= ns)
  {
    hide Join, ResolveCwd;
    ResolveCwdByNames(cwd, r, k, ns);
    SameAgain(r, |r| - k, ns);
  }

  lemma SameAgain<T>(r: seq<T>, n: nat, ns: seq<T>)
    requires n <= |r|
    ensures r <= r[..n] + ns <==> r[n..] <= ns
  {
    assert r == r[..n] + r[n..];
    if r <= r[..n] + ns {
      assert (r[..n] + ns)[..|r|] == r && (r[..n] + ns)[n..] == ns;
      assert r[n..] == ns[..|r| - n];
    }
    if r[n..] <= ns {
      assert (r[..n] + ns)[..|r|] == r[..n] + ns[..|r| - n];
    }
  }

  /** An absent or empty working directory is the workspace, and an absolute one is refused. */
  lemma ResolveCwdOtherwise(cwd: string, workspaceRoot: string, wd: Option<string>)
    ensures wd == None || wd == Some("") ==> ResolveCwd(cwd, workspaceRoot, wd) == Accepted(workspaceRoot)
    ensures wd.Some? && wd.value != "" && wd.value[0] == '/' ==> ResolveCwd(cwd, workspaceRoot, wd) == Absolute
  {
  }

  lemma {:induction false} DotsStay(at: seq<string>, k: nat, ns: seq<string>)
    requires (forall i :: 0 <= i < |at| ==> at[i] == "..") && "." !in ns && ".." !in ns
    ensures Walk(at, Dots(k) + ns, true) == at + Dots(k) + ns
    decreases k
  {
    if k == 0 {
      assert Dots(0) + ns == ns && at + Dots(0) == at;
      WalkPlain(at, ns, true);
    } else {
      assert (Dots(k) + ns)[1..] == Dots(k - 1) + ns;
      DotsStay(at + [".."], k - 1, ns);
      assert at + [".."] + Dots(k - 1) == at + Dots(k);
    }
  }

  lemma SegmentsOf(cs: seq<string>)
    requires AreComponents(cs, '/')
    ensures Segments(PathOf(cs)) == Walk([], cs, false)
    ensures Walk([], cs, true) != [] ==> Segments(Join(cs, '/')) == Walk([], cs, true)
  {
    hide Join, Components, Walk;
    NamesOfPath(cs);
  }

  lemma DotsAreComponents(k: nat, ns: seq<string>)
    requires AreNames(ns)
    ensures AreComponents(Dots(k) + ns, '/')
  {
  }

  lemma WalkDots(k: nat, ns: seq<string>)
    requires AreNames(ns)
    ensures Walk([], Dots(k) + ns, false) == ns
    ensures Walk([], Dots(k) + ns, true) == Dots(k) + ns
  {
    hide Walk, AreComponents;
    WalkUp([], k, ns);
    DotsStay([], k, ns);
    assert Up([], k) + ns == ns;
    assert [] + Dots(k) == Dots(k);
  }

  /** At the root there is no way up, so leading dots vanish; in a relative path they stay. */
  lemma LeadingDots(k: nat, ns: seq<string>)
    requires AreNames(ns) && k + |ns| > 0
    ensures Segments("/" + Join(Dots(k) + ns, '/')) == ns
    ensures Segments(Join(Dots(k) + ns, '/')) == Dots(k) + ns
  {
    DotsAreComponents(k, ns);
    hide Join, Components, Walk, Segments, AreComponents;
    WalkDots(k, ns);
    SegmentsOf(Dots(k) + ns);
    assert PathOf(Dots(k) + ns) == "/" + Join(Dots(k) + ns, '/');
  }

  /** A relative path of leading dots and plain names is normal; one that goes nowhere is ".". */
  lemma RelativeNormal(k: nat, ns: seq<string>)
    requires AreNames(ns) && k + |ns| > 0
    ensures Normalize(Join(Dots(k) + ns, '/')) == Join(Dots(k) + ns, '/')
    ensures Normalize("") == "."
  {
    DotsAreComponents(k, ns);
    EmptyIsDot();
    hide Join, Components, Walk, Segments, AreComponents;
    var p := Join(Dots(k) + ns, '/');
    LeadingDots(k, ns);
    NamesOfPath(Dots(k) + ns);
    JoinEnds(Dots(k) + ns, '/');
    assert !IsAbsolute(p) && !EndsWithSlash(p);
    assert "" + p + "" == p;
  }

  lemma EmptyIsDot()
    ensures Normalize("") == "."
  {
    JoinOfFew(".", '/');
  }

  /** For absolute paths written with plain names the test is list containment. */
  lemma IsUnderByNames(c: seq<string>, p: seq<string>)
    requires AreNames(c) && AreNames(p)
    ensures IsUnder("/" + Join(c, '/'), "/" + Join(p, '/')) <==> p <= c
  {
    hide Join, Components, Walk, IsUnder, Segments, KeepsSlash;
    AbsoluteReadBack(c, false);
    AbsoluteReadBack(p, false);
    assert PathOf(c) + "" == PathOf(c) && PathOf(p) + "" == PathOf(p);
    IsUnderIff(PathOf(c), PathOf(p));
  }

  // ------------------------------------------------------- what tokens mean

  lemma AbsoluteNormal(cs: seq<string>)
    requires AreNames(cs)
    ensures Normalize(PathOf(cs)) == PathOf(cs)
  {
    hide Join, Components, Walk;
    AbsoluteReadBack(cs, false);
    assert PathOf(cs) + "" == PathOf(cs);
  }

  lemma PlainResolve(cwd: string, base: seq<string>, ns: seq<string>)
    requires AreNames(base) && AreNames(ns)
    ensures Resolve(cwd, PathOf(base), Join(ns, '/')) == PathOf(base + ns)
  {
    hide Join, Components, Walk;
    NamesOfPath(base);
    NamesOfPath(ns);
    WalkUp([], 0, base + ns);
    assert Dots(0) + (base + ns) == base + ns && Up([], 0) + (base + ns) == base + ns;
  }

  /** A tilde alone is the home directory, and before a slash of either kind a path is taken from there. */
  lemma TildeIsHome(cwd: string, h: seq<string>, ns: seq<string>, workspaceRoot: string, slash: char)
    requires AreNames(h) && AreNames(ns) && (slash == '/' || slash == '\\')
    requires ns != [] ==> !IsQuote(Join(ns, '/')[|Join(ns, '/')| - 1])
    ensures ResolvePath(cwd, "/" + Join(h, '/'), "~", workspaceRoot) == "/" + Join(h, '/')
    ensures ResolvePath(cwd, "/" + Join(h, '/'), ['~', slash] + Join(ns, '/'), workspaceRoot) == "/" + Join(h + ns, '/')
  {
    hide Join, Components, Walk, Normalize;
    var rest := Join(ns, '/');
    AbsoluteNormal(h);
    AbsoluteNormal(h + ns);
    PlainResolve(cwd, h, ns);
    if ns == [] {
      JoinOfFew("", '/');
    }
    var token := ['~', slash] + rest;
    assert StripQuotes(token) == token && token[2..] == rest;
  }

  predicate IsQuote(c: char) {
    c == '\'' || c == '"'
  }

  /** Any other relative token is taken from the workspace. */
  lemma TokenFromWorkspace(cwd: string, home: string, r: seq<string>, ns: seq<string>)
    requires AreNames(r) && AreNames(ns) && ns != []
    requires var t := Join(ns, '/'); t != "" ==> !IsQuote(t[0]) && !IsQuote(t[|t| - 1])
    requires var t := Join(ns, '/'); t != "~" && !("~/" <= t) && !("~\\" <= t)
    ensures ResolvePath(cwd, home, Join(ns, '/'), "/" + Join(r, '/')) == "/" + Join(r + ns, '/')
  {
    hide Join, Components, Walk, Normalize;
    JoinEnds(ns, '/');
    PlainResolve(cwd, r, ns);
    AbsoluteNormal(r + ns);
  }

  /** One quote at either end of a token is ignored. */
  lemma QuotesAreIgnored(cwd: string, home: string, t: string, workspaceRoot: string, open: char, close: char)
    requires IsQuote(open) && IsQuote(close)
    requires t == "" || (!IsQuote(t[0]) && !IsQuote(t[|t| - 1]))
    ensures ResolvePath(cwd, home, [open] + t + [close], workspaceRoot) == ResolvePath(cwd, home, t, workspaceRoot)
  {
    hide Normalize, Resolve;
    var q := [open] + t + [close];
    assert q[1..] == t + [close] && (t + [close])[..|t|] == t;
    assert StripQuotes(q) == t == StripQuotes(t);
  }
}
