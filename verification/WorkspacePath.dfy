/**
 * Canonical workspace paths and the identity key made from them. The string rewriting
 * of the source is compared with a structural reading of a path: its leading
 * separators and its components.
 */
module WorkspacePath {
  import opened Separators

  /** `Posix` stands for every platform that is not win32. */
  datatype Platform = Win32 | Posix

  // ------------------------------------------------------- the rewriting

  /** Forward slashes turned into backslashes. */
  function Unify(p: string): (r: string)
    ensures |r| == |p|
  {
    seq(|p|, i requires 0 <= i < |p| => if p[i] == '/' then '\\' else p[i])
  }

  function LowerChar(c: char): char {
    if 'A' <= c <= 'Z' then (c as int + 32) as char else c
  }

  function Lower(p: string): (r: string)
    ensures |r| == |p|
  {
    seq(|p|, i requires 0 <= i < |p| => LowerChar(p[i]))
  }

  predicate HasDrive(p: string) {
    |p| >= 2 && 'a' <= LowerChar(p[0]) <= 'z' && p[1] == ':'
  }

  predicate IsDrive(p: string) {
    |p| == 2 && HasDrive(p)
  }

  function LowerDrive(p: string): string {
    if HasDrive(p) then [LowerChar(p[0])] + p[1..] else p
  }

  function CanonicalizeWin32(input: string): string {
    var unified := Unify(input);
    var isUnc := |unified| >= 2 && unified[0] == '\\' && unified[1] == '\\';
    var collapsed := Collapse(unified, '\\');
    var restored := if isUnc then "\\" + collapsed else collapsed;
    Finish(restored)
  }

  /** The last three rewritings: drive letter, trailing separators, bare drive root. */
  function Finish(restored: string): string {
    var stripped := StripTrailing(LowerDrive(restored), '\\');
    if IsDrive(stripped) then stripped + "\\" else stripped
  }

  function CanonicalizePosix(input: string): string {
    var collapsed := Collapse(input, '/');
    if |collapsed| > 1 then StripTrailing(collapsed, '/') else collapsed
  }

  function Canonicalize(input: string, platform: Platform): string {
    match platform
    case Win32 => CanonicalizeWin32(input)
    case Posix => CanonicalizePosix(input)
  }

  /** `fold` is JavaScript's `toLowerCase`. */
  function NormalizeAbsPath(p: string, platform: Platform, fold: string -> string): string {
    match platform
    case Win32 => fold(p)
    case Posix => p
  }

  function IdentityKey(input: string, platform: Platform, fold: string -> string): string {
    NormalizeAbsPath(Canonicalize(input, platform), platform, fold)
  }

  // ------------------------------------------------------- the structure of a path

  /** Nought, one, or two and more leading separators. */
  function Leading(p: string, sep: char): (n: nat)
    ensures n <= 2
  {
    if p == "" || p[0] != sep then 0
    else if |p| == 1 || p[1] != sep then 1
    else 2
  }

  function Prefix(lead: nat, sep: char): string
    requires lead <= 2
  {
    if lead == 0 then "" else if lead == 1 then [sep] else [sep, sep]
  }

  /** A win32 path written out: the drive letter in lower case, a bare drive with its root. */
  function RenderWin32(lead: nat, cs: seq<string>): string
    requires lead <= 2
  {
    if cs == [] then ""
    else if lead > 0 then Prefix(lead, '\\') + Join(cs, '\\')
    else if |cs| == 1 && IsDrive(cs[0]) then LowerDrive(cs[0]) + "\\"
    else Join([LowerDrive(cs[0])] + cs[1..], '\\')
  }

  function RenderPosix(rooted: bool, cs: seq<string>): string {
    (if rooted then "/" else "") + Join(cs, '/')
  }

  // ------------------------------------------------------- folding letter case

  predicate NoSeparator(c: string) {
    '/' !in c && '\\' !in c
  }

  predicate IsAscii(c: string) {
    forall i :: 0 <= i < |c| ==> c[i] as int < 128
  }

  /**
   * What is used of `toLowerCase`, all of Unicode included: it works between separators
   * and makes none, it erases nothing, repeating it or lowering a drive letter first
   * makes no difference, and on ASCII it is the usual one.
   */
  ghost predicate IsCaseFold(fold: string -> string) {
    && (forall x, y :: fold(x + "/" + y) == fold(x) + "/" + fold(y))
    && (forall x, y :: fold(x + "\\" + y) == fold(x) + "\\" + fold(y))
    && (forall c :: NoSeparator(c) ==> NoSeparator(fold(c)))
    && (forall c :: fold(c) == "" <==> c == "")
    && (forall c :: fold(LowerDrive(c)) == fold(c))
    && (forall c :: fold(fold(c)) == fold(c))
    && (forall c :: IsAscii(c) ==> fold(c) == Lower(c))
  }

  function FoldAll(cs: seq<string>, fold: string -> string): (r: seq<string>)
    ensures |r| == |cs| && forall i :: 0 <= i < |cs| ==> r[i] == fold(cs[i])
  {
    seq(|cs|, i requires 0 <= i < |cs| => fold(cs[i]))
  }

  /** The structure of a win32 input. */
  function Lead(input: string): (n: nat)
    ensures n <= 2
  {
    Leading(Unify(input), '\\')
  }

  function Names(input: string): seq<string> {
    Components(Unify(input), '\\')
  }

  /** Nothing but a drive: its root is written out. */
  predicate IsBareDrive(input: string) {
    Lead(input) == 0 && |Names(input)| == 1 && IsDrive(Names(input)[0])
  }

  /** Two spellings of one folder, as the platform sees it. */
  predicate SamePath(x: string, y: string, platform: Platform, fold: string -> string) {
    match platform
    case Win32 =>
      && FoldAll(Names(x), fold) == FoldAll(Names(y), fold)
      && (Names(x) == [] || (Lead(x) == Lead(y) && (IsBareDrive(x) <==> IsBareDrive(y))))
    case Posix =>
      && Components(x, '/') == Components(y, '/')
      && (Leading(x, '/') == 0 <==> Leading(y, '/') == 0)
  }

  // ------------------------------------------------------- leading separators

  lemma PrefixedComponents(lead: nat, p: string, sep: char)
    requires lead <= 2
    requires p == "" || p[0] != sep
    ensures Components(Prefix(lead, sep) + p, sep) == Components(p, sep)
    ensures Leading(Prefix(lead, sep) + p, sep) == lead
  {
    var q := Prefix(lead, sep) + p;
    if lead == 1 {
      assert q[1..] == p;
    } else if lead == 2 {
      assert q[1..][1..] == p;
    } else {
      assert q == p;
    }
  }

  // ------------------------------------------------------- posix

  lemma PosixIsRendering(p: string)
    ensures CanonicalizePosix(p) == RenderPosix(Leading(p, '/') > 0, Components(p, '/'))
  {
    var cs := Components(p, '/');
    var head := if Leading(p, '/') > 0 then "/" else "";
    CollapsedForm(p, '/');
    ComponentsAre(p, '/');
    JoinedComponents(cs, "", '/');
    if cs == [] {
      if p != "" { OnlySeparators(p, '/'); }
    } else {
      var body := head + Join(cs, '/');
      StripSeparators(body, Trailing(p, '/'), '/');
      assert body + Trailing(p, '/') == Collapse(p, '/');
      if |Collapse(p, '/')| == 1 {
        assert Trailing(p, '/') == "";
      }
    }
  }

  lemma PosixReadBack(rooted: bool, cs: seq<string>)
    requires AreComponents(cs, '/')
    ensures Components(RenderPosix(rooted, cs), '/') == cs
    ensures Leading(RenderPosix(rooted, cs), '/') > 0 <==> rooted
  {
    JoinedComponents(cs, "", '/');
    var body := Join(cs, '/');
    assert body + "" == body;
    PrefixedComponents(if rooted then 1 else 0, body, '/');
  }

  // ------------------------------------------------------- win32

  /** What follows the first component in a joined path. */
  function AfterFirst(cs: seq<string>, sep: char): string
    requires cs != []
  {
    if |cs| == 1 then "" else [sep] + Join(cs[1..], sep)
  }

  lemma JoinHead(cs: seq<string>, c: string, sep: char)
    requires cs != []
    ensures Join([c] + cs[1..], sep) == c + AfterFirst(cs, sep)
    ensures Join(cs, sep) == cs[0] + AfterFirst(cs, sep)
  {
  }

  /** Whether a path starts with a drive is decided by its first component. */
  lemma DriveOfHead(c: string, after: string)
    requires c != "" && '\\' !in c
    requires after == "" || after[0] == '\\'
    ensures HasDrive(c + after) <==> HasDrive(c)
    ensures LowerDrive(c + after) == LowerDrive(c) + after
    ensures IsDrive(c + after) <==> after == "" && IsDrive(c)
  {
  }

  lemma LoweredComponents(cs: seq<string>)
    requires cs != [] && AreComponents(cs, '\\')
    ensures AreComponents([LowerDrive(cs[0])] + cs[1..], '\\')
    ensures IsDrive(LowerDrive(cs[0])) <==> IsDrive(cs[0])
  {
  }

  lemma RestoredRooted(lead: nat, cs: seq<string>, trail: string)
    requires 0 < lead <= 2 && cs != [] && AreComponents(cs, '\\')
    requires trail == "" || trail == "\\"
    ensures Finish(Prefix(lead, '\\') + Join(cs, '\\') + trail) == RenderWin32(lead, cs)
  {
    hide Join, Components, StripTrailing;
    var rooted := Prefix(lead, '\\') + Join(cs, '\\');
    JoinedComponents(cs, "", '\\');
    assert rooted[0] == '\\';
    assert LowerDrive(rooted + trail) == rooted + trail;
    StripSeparators(rooted, trail, '\\');
  }

  lemma RestoredRelative(cs: seq<string>, trail: string)
    requires cs != [] && AreComponents(cs, '\\')
    requires trail == "" || trail == "\\"
    ensures Finish(Join(cs, '\\') + trail) == RenderWin32(0, cs)
  {
    hide Join, Components, HasDrive, StripTrailing, LowerDrive, IsDrive;
    var cs' := [LowerDrive(cs[0])] + cs[1..];
    var after := AfterFirst(cs, '\\');
    JoinHead(cs, LowerDrive(cs[0]), '\\');
    LoweredComponents(cs);
    JoinedComponents(cs', "", '\\');
    assert cs'[0] == LowerDrive(cs[0]);
    DriveOfHead(cs[0], after + trail);
    DriveOfHead(LowerDrive(cs[0]), after);
    var lowered := Join(cs', '\\');
    assert Join(cs, '\\') + trail == cs[0] + (after + trail);
    assert LowerDrive(Join(cs, '\\') + trail) == lowered + trail;
    StripSeparators(lowered, trail, '\\');
    assert after == "" <==> |cs| == 1;
  }

  /** With the second backslash of a network path put back, only the runs inside are gone. */
  lemma RestoredForm(u: string)
    ensures (if Leading(u, '\\') == 2 then "\\" + Collapse(u, '\\') else Collapse(u, '\\'))
         == Prefix(Leading(u, '\\'), '\\') + Join(Components(u, '\\'), '\\') + Trailing(u, '\\')
  {
    hide Collapse, Components, Join, Trailing;
    CollapsedForm(u, '\\');
  }

  lemma NoComponents(lead: nat)
    requires lead <= 2
    ensures Finish(Prefix(lead, '\\')) == ""
  {
    var p := Prefix(lead, '\\');
    StripSeparators("", p, '\\');
    assert "" + p == p && LowerDrive(p) == p;
  }

  lemma Win32IsRendering(p: string)
    ensures CanonicalizeWin32(p) == RenderWin32(Leading(Unify(p), '\\'), Components(Unify(p), '\\'))
  {
    hide Collapse, Join, Finish, Components, Unify, IsDrive, LowerDrive;
    var u := Unify(p);
    var cs := Components(u, '\\');
    var lead := Leading(u, '\\');
    var trail := Trailing(u, '\\');
    RestoredForm(u);
    ComponentsAre(u, '\\');
    if cs == [] {
      JoinOfFew("", '\\');
      assert Prefix(lead, '\\') + "" + "" == Prefix(lead, '\\');
      NoComponents(lead);
    } else if lead > 0 {
      RestoredRooted(lead, cs, trail);
    } else {
      assert "" + Join(cs, '\\') + trail == Join(cs, '\\') + trail;
      RestoredRelative(cs, trail);
    }
  }

  lemma Win32ReadBack(lead: nat, cs: seq<string>)
    requires lead <= 2 && cs != [] && AreComponents(cs, '\\')
    ensures var r := RenderWin32(lead, cs);
            && Leading(r, '\\') == lead
            && Components(r, '\\') == if lead == 0 then [LowerDrive(cs[0])] + cs[1..] else cs
  {
    hide Join, Components, Leading, HasDrive;
    if lead > 0 {
      JoinedComponents(cs, "", '\\');
      assert Join(cs, '\\') + "" == Join(cs, '\\');
      PrefixedComponents(lead, Join(cs, '\\'), '\\');
    } else {
      var cs' := [LowerDrive(cs[0])] + cs[1..];
      LoweredComponents(cs);
      var root := if |cs| == 1 && IsDrive(cs[0]) then "\\" else "";
      JoinedComponents(cs', root, '\\');
      JoinHead(cs, LowerDrive(cs[0]), '\\');
      var r := Join(cs', '\\') + root;
      assert r == RenderWin32(0, cs);
      PrefixedComponents(0, r, '\\');
      assert Prefix(0, '\\') + r == r;
    }
  }

  // ------------------------------------------------------- separators of the other kind

  lemma CanonicalIsUnified(p: string)
    ensures Unify(CanonicalizeWin32(p)) == CanonicalizeWin32(p)
  {
    var u := Unify(p);
    CollapseAddsNothing(u, '\\', '/');
    var restored := if Leading(u, '\\') == 2 then "\\" + Collapse(u, '\\') else Collapse(u, '\\');
    StripAddsNothing(LowerDrive(restored), '\\', '/');
  }

  // ------------------------------------------------------- folded paths

  lemma {:induction false} FoldJoin(cs: seq<string>, fold: string -> string)
    requires IsCaseFold(fold)
    ensures fold(Join(cs, '\\')) == Join(FoldAll(cs, fold), '\\')
  {
    if |cs| > 1 {
      FoldJoin(cs[1..], fold);
      assert FoldAll(cs, fold)[1..] == FoldAll(cs[1..], fold);
      assert Join(cs, '\\') == cs[0] + "\\" + Join(cs[1..], '\\');
    }
  }

  lemma FoldAround(x: string, sep: char, y: string, fold: string -> string)
    requires IsCaseFold(fold) && (sep == '/' || sep == '\\')
    ensures fold(x + [sep] + y) == fold(x) + [sep] + fold(y)
  {
    if sep == '/' {
      assert fold(x + "/" + y) == fold(x) + "/" + fold(y);
    } else {
      assert fold(x + "\\" + y) == fold(x) + "\\" + fold(y);
    }
  }

  lemma FoldPlain(c: string, fold: string -> string)
    requires IsCaseFold(fold)
    ensures NoSeparator(c) ==> NoSeparator(fold(c))
    ensures fold(c) == "" <==> c == ""
  {
  }

  lemma FoldLeading(p: string, fold: string -> string)
    requires IsCaseFold(fold)
    ensures fold("\\" + p) == "\\" + fold(p)
  {
    FoldPlain("", fold);
    FoldAround("", '\\', p, fold);
    assert "" + ['\\'] + p == "\\" + p && "" + ['\\'] + fold(p) == "\\" + fold(p);
  }

  lemma FoldPrefix(lead: nat, p: string, fold: string -> string)
    requires lead <= 2 && IsCaseFold(fold)
    ensures fold(Prefix(lead, '\\') + p) == Prefix(lead, '\\') + fold(p)
  {
    hide IsCaseFold;
    if lead == 0 {
      assert "" + p == p && "" + fold(p) == fold(p);
    } else if lead == 1 {
      FoldLeading(p, fold);
    } else {
      FoldLeading(p, fold);
      FoldLeading("\\" + p, fold);
      assert Prefix(2, '\\') + p == "\\" + ("\\" + p);
      assert Prefix(2, '\\') + fold(p) == "\\" + ("\\" + fold(p));
    }
  }

  /** The shape of an identity key. */
  function RenderKey(lead: nat, cs: seq<string>, bareDrive: bool): string
    requires lead <= 2
  {
    if cs == [] then "" else Prefix(lead, '\\') + Join(cs, '\\') + (if bareDrive then "\\" else "")
  }

  lemma FoldRender(lead: nat, cs: seq<string>, fold: string -> string)
    requires lead <= 2 && IsCaseFold(fold)
    ensures fold(RenderWin32(lead, cs))
         == RenderKey(lead, FoldAll(cs, fold), lead == 0 && |cs| == 1 && IsDrive(cs[0]))
  {
    hide Join, LowerDrive, IsDrive;
    var bs := FoldAll(cs, fold);
    if cs == [] {
    } else if lead > 0 {
      FoldJoin(cs, fold);
      FoldPrefix(lead, Join(cs, '\\'), fold);
    } else {
      var cs' := [LowerDrive(cs[0])] + cs[1..];
      assert fold(LowerDrive(cs[0])) == fold(cs[0]);
      assert FoldAll(cs', fold) == bs;
      FoldJoin(cs', fold);
      if |cs| == 1 {
        JoinOfFew(bs[0], '\\');
        assert bs == [bs[0]];
        assert LowerDrive(cs[0]) + "\\" == LowerDrive(cs[0]) + "\\" + "";
      }
    }
  }

  lemma FoldedAreComponents(cs: seq<string>, fold: string -> string)
    requires AreComponents(cs, '\\') && AreComponents(cs, '/') && IsCaseFold(fold)
    ensures AreComponents(FoldAll(cs, fold), '\\')
  {
    forall i | 0 <= i < |cs|
      ensures fold(cs[i]) != "" && '\\' !in fold(cs[i])
    {
      assert NoSeparator(cs[i]);
    }
  }

  lemma {:induction false} ComponentsAddNothing(p: string, sep: char, c: char)
    requires c !in p
    ensures forall i :: 0 <= i < |Components(p, sep)| ==> c !in Components(p, sep)[i]
  {
    if p != "" {
      ComponentsAddNothing(p[1..], sep, c);
    }
  }

  lemma NamesAre(p: string)
    ensures AreComponents(Names(p), '\\') && AreComponents(Names(p), '/')
  {
    ComponentsAre(Unify(p), '\\');
    ComponentsAddNothing(Unify(p), '\\', '/');
  }

  lemma KeyReadBack(lead: nat, cs: seq<string>, bareDrive: bool)
    requires lead <= 2 && cs != [] && AreComponents(cs, '\\')
    ensures var r := RenderKey(lead, cs, bareDrive);
            && Components(r, '\\') == cs && Leading(r, '\\') == lead
            && r != "" && (r[|r| - 1] == '\\' <==> bareDrive)
  {
    hide Join, Components, Leading;
    var trail := if bareDrive then "\\" else "";
    var inner := Join(cs, '\\') + trail;
    JoinedComponents(cs, trail, '\\');
    PrefixedComponents(lead, inner, '\\');
    assert RenderKey(lead, cs, bareDrive) == Prefix(lead, '\\') + inner;
  }

  // ------------------------------------------------------- main results

  /** Canonicalising twice is canonicalising once. */
  lemma CanonicalizeIdempotent(p: string, platform: Platform)
    ensures Canonicalize(Canonicalize(p, platform), platform) == Canonicalize(p, platform)
  {
    match platform
    case Posix =>
      PosixIsRendering(p);
      ComponentsAre(p, '/');
      PosixReadBack(Leading(p, '/') > 0, Components(p, '/'));
      PosixIsRendering(CanonicalizePosix(p));
    case Win32 =>
      hide Join, Components, Leading, CanonicalizeWin32, HasDrive, LowerDrive;
      var c := CanonicalizeWin32(p);
      var lead, cs := Leading(Unify(p), '\\'), Components(Unify(p), '\\');
      Win32IsRendering(p);
      CanonicalIsUnified(p);
      Win32IsRendering(c);
      ComponentsAre(Unify(p), '\\');
      if cs == [] {
        NothingLeft();
      } else {
        Win32ReadBack(lead, cs);
        RenderAgain(lead, cs);
      }
  }

  lemma NothingLeft()
    ensures Components("", '\\') == []
  {
  }

  lemma RenderAgain(lead: nat, cs: seq<string>)
    requires lead <= 2 && cs != []
    ensures RenderWin32(lead, if lead == 0 then [LowerDrive(cs[0])] + cs[1..] else cs) == RenderWin32(lead, cs)
  {
  }

  /**
   * A canonical win32 path written out: two, one or no backslashes, the components as
   * they were typed but for a drive letter in lower case, single backslashes between
   * them, and none at the end except after a bare drive.
   */
  lemma Win32Spelling(p: string)
    ensures var names := Names(p);
            if names == [] then CanonicalizeWin32(p) == ""
            else
              var isDrive :=
                && Lead(p) == 0 && |names[0]| >= 2 && names[0][1] == ':'
                && ('a' <= names[0][0] <= 'z' || 'A' <= names[0][0] <= 'Z');
              var first :=
                if isDrive && 'A' <= names[0][0] <= 'Z' then [(names[0][0] as int + 32) as char] + names[0][1..]
                else names[0];
              CanonicalizeWin32(p) ==
                (if Lead(p) == 0 then "" else if Lead(p) == 1 then "\\" else "\\\\")
                + Join([first] + names[1..], '\\')
                + (if isDrive && |names| == 1 && |names[0]| == 2 then "\\" else "")
  {
    hide Components, Leading, CanonicalizeWin32, Join;
    Win32IsRendering(p);
    var names := Names(p);
    if names != [] {
      DriveSpelling(names[0]);
      if Lead(p) > 0 {
        assert [names[0]] + names[1..] == names;
      } else if |names| == 1 {
        JoinOfFew(LowerDrive(names[0]), '\\');
        assert [LowerDrive(names[0])] + names[1..] == [LowerDrive(names[0])];
      }
    }
  }

  lemma DriveSpelling(c: string)
    ensures HasDrive(c) <==> |c| >= 2 && c[1] == ':' && ('a' <= c[0] <= 'z' || 'A' <= c[0] <= 'Z')
    ensures LowerDrive(c) == if HasDrive(c) && 'A' <= c[0] <= 'Z' then [(c[0] as int + 32) as char] + c[1..] else c
  {
  }

  /** A canonical posix path written out. */
  lemma PosixSpelling(p: string)
    ensures CanonicalizePosix(p) ==
              (if p != "" && p[0] == '/' then "/" else "") + Join(Components(p, '/'), '/')
  {
    hide Components, Join, CanonicalizePosix;
    PosixIsRendering(p);
  }

  lemma KeyForm(p: string, fold: string -> string)
    requires IsCaseFold(fold)
    ensures IdentityKey(p, Win32, fold) == RenderKey(Lead(p), FoldAll(Names(p), fold), IsBareDrive(p))
  {
    hide Components, Leading, CanonicalizeWin32;
    Win32IsRendering(p);
    FoldRender(Lead(p), Names(p), fold);
  }

  /** Two inputs have one identity exactly when they are spellings of one path. */
  lemma KeyIffSamePath(x: string, y: string, platform: Platform, fold: string -> string)
    requires IsCaseFold(fold)
    ensures IdentityKey(x, platform, fold) == IdentityKey(y, platform, fold) <==> SamePath(x, y, platform, fold)
  {
    match platform
    case Posix =>
      PosixIsRendering(x);
      PosixIsRendering(y);
      ComponentsAre(x, '/');
      ComponentsAre(y, '/');
      PosixReadBack(Leading(x, '/') > 0, Components(x, '/'));
      PosixReadBack(Leading(y, '/') > 0, Components(y, '/'));
    case Win32 =>
      hide Names, Lead, IsBareDrive, IdentityKey, RenderKey, IsCaseFold;
      KeyOf(x, fold);
      KeyOf(y, fold);
  }

  /** What can be read off a key. */
  lemma KeyOf(p: string, fold: string -> string)
    requires IsCaseFold(fold)
    ensures var key := IdentityKey(p, Win32, fold);
            && key == RenderKey(Lead(p), FoldAll(Names(p), fold), IsBareDrive(p))
            && (key == "" <==> Names(p) == [])
            && (key != "" ==>
                  && Components(key, '\\') == FoldAll(Names(p), fold) && Leading(key, '\\') == Lead(p)
                  && (key[|key| - 1] == '\\' <==> IsBareDrive(p)))
    ensures Names(p) == [] ==> IdentityKey(p, Win32, fold) == ""
  {
    hide Names, Lead, IsBareDrive, IdentityKey;
    KeyForm(p, fold);
    NamesAre(p);
    FoldedAreComponents(Names(p), fold);
    if Names(p) != [] {
      hide RenderKey;
      KeyReadBack(Lead(p), FoldAll(Names(p), fold), IsBareDrive(p));
    }
  }

  /** The path the extension starts a daemon with has the identity it later looks for. */
  lemma SpawnedIdentityMatches(fsPath: string, platform: Platform, fold: string -> string)
    ensures IdentityKey(Canonicalize(fsPath, platform), platform, fold) == IdentityKey(fsPath, platform, fold)
  {
    hide Canonicalize;
    CanonicalizeIdempotent(fsPath, platform);
  }

  // ------------------------------------------------------- spellings with one identity

  /** A separator may be written either way, as a run, or once more at the end. */
  lemma KeyIgnoresSeparators(a: string, b: string, fold: string -> string)
    requires IsCaseFold(fold)
    requires exists i :: 0 <= i < |a| && a[i] != '/' && a[i] != '\\'
    ensures IdentityKey(a + "/" + b, Win32, fold) == IdentityKey(a + "\\" + b, Win32, fold)
    ensures IdentityKey(a + "/\\" + b, Win32, fold) == IdentityKey(a + "\\" + b, Win32, fold)
    ensures IdentityKey(a + "/", Win32, fold) == IdentityKey(a, Win32, fold)
  {
    hide IdentityKey, Components, IsCaseFold, Lead, Names;
    SameStructure(a, b);
    KeyIffSamePath(a + "/" + b, a + "\\" + b, Win32, fold);
    KeyIffSamePath(a + "/\\" + b, a + "\\" + b, Win32, fold);
    KeyIffSamePath(a + "/", a, Win32, fold);
  }

  lemma SameStructure(a: string, b: string)
    requires exists i :: 0 <= i < |a| && a[i] != '/' && a[i] != '\\'
    ensures Names(a + "/" + b) == Names(a + "\\" + b) && Lead(a + "/" + b) == Lead(a + "\\" + b)
    ensures Names(a + "/\\" + b) == Names(a + "\\" + b) && Lead(a + "/\\" + b) == Lead(a + "\\" + b)
    ensures Names(a + "/") == Names(a) && Lead(a + "/") == Lead(a)
  {
    hide Components;
    var u, v := Unify(a), Unify(b);
    var i :| 0 <= i < |a| && a[i] != '/' && a[i] != '\\';
    var one := a + "\\" + b;
    var other := a + "/" + b;
    var run := a + "/\\" + b;
    assert Unify(one) == u + "\\" + v == Unify(other);
    assert Unify(run) == u + "\\" + ("\\" + v) == u + "\\" + ("" + "\\" + v);
    assert Unify(a + "/") == u + "\\" + "";
    ComponentsOfParts(u, v, '\\');
    ComponentsOfParts(u, "" + "\\" + v, '\\');
    ComponentsOfParts("", v, '\\');
    ComponentsOfParts(u, "", '\\');
    NothingLeft();
    LeadingOfParts(u, i, "\\" + v);
    LeadingOfParts(u, i, "\\" + ("\\" + v));
    LeadingOfParts(u, i, "\\");
    assert u + "\\" + v == u + ("\\" + v);
    assert u + "\\" + ("\\" + v) == u + ("\\" + ("\\" + v));
    assert u + "\\" + "" == u + "\\";
  }

  lemma LeadingOfParts(a: string, i: nat, b: string)
    requires i < |a| && a[i] != '\\'
    ensures Leading(a + b, '\\') == Leading(a, '\\')
  {
  }

  lemma PlainNames(p: string)
    requires NoSeparator(p)
    ensures Names(p) == (if p == "" then [] else [p]) && Lead(p) == 0
  {
    assert Unify(p) == p;
    if p != "" {
      FirstComponent(p, "", '\\');
      assert p + "" == p;
    }
  }

  lemma NamesOfParts(x: string, sep: char, y: string)
    requires NoSeparator(x) && (sep == '/' || sep == '\\')
    ensures Names(x + [sep] + y) == Names(x) + Names(y)
    ensures Lead(x + [sep] + y) == (if x != "" then 0 else if Lead(y) == 0 then 1 else 2)
  {
    hide Components;
    var p := x + [sep] + y;
    assert Unify(p) == Unify(x) + ['\\'] + Unify(y);
    ComponentsOfParts(Unify(x), Unify(y), '\\');
    if x == "" {
      assert Unify(p)[1..] == Unify(y);
    }
  }

  /** Folding a path folds its names and leaves its beginning. */
  lemma {:induction false} FoldedStructure(p: string, fold: string -> string)
    requires IsCaseFold(fold)
    ensures Names(fold(p)) == FoldAll(Names(p), fold) && Lead(fold(p)) == Lead(p)
    decreases |p|
  {
    hide Names, Lead, IsCaseFold;
    if NoSeparator(p) {
      FoldPlain(p, fold);
      PlainNames(p);
      PlainNames(fold(p));
    } else {
      var k := FirstSeparator(p);
      var x, y := p[..k], p[k + 1..];
      assert p == x + [p[k]] + y;
      FoldPlain(x, fold);
      FoldAround(x, p[k], y, fold);
      FoldedStructure(y, fold);
      PlainNames(x);
      PlainNames(fold(x));
      NamesOfParts(x, p[k], y);
      NamesOfParts(fold(x), p[k], fold(y));
    }
  }

  function FirstSeparator(p: string): (k: nat)
    requires !NoSeparator(p)
    ensures k < |p| && (p[k] == '/' || p[k] == '\\') && NoSeparator(p[..k])
  {
    if p[0] == '/' || p[0] == '\\' then 0
    else
      assert p == [p[0]] + p[1..];
      var k := 1 + FirstSeparator(p[1..]);
      assert p[..k] == [p[0]] + p[1..][..k - 1];
      k
  }

  /** Not a bare drive, but folded to one: a letter outside ASCII that `toLowerCase` takes into it. */
  predicate BecomesDrive(input: string, fold: string -> string) {
    Lead(input) == 0 && |Names(input)| == 1 && !IsDrive(Names(input)[0]) && IsDrive(fold(Names(input)[0]))
  }

  lemma DriveStaysDrive(c: string, fold: string -> string)
    requires IsCaseFold(fold) && IsDrive(c)
    ensures IsDrive(fold(c))
  {
    assert IsAscii(c);
  }

  /** Exactly when letter case does not matter on win32. */
  lemma KeyIgnoresCaseIff(p: string, fold: string -> string)
    requires IsCaseFold(fold)
    ensures IdentityKey(fold(p), Win32, fold) == IdentityKey(p, Win32, fold) <==> !BecomesDrive(p, fold)
  {
    hide IdentityKey, Names, Lead, IsDrive;
    var cs := Names(p);
    FoldedStructure(p, fold);
    KeyIffSamePath(fold(p), p, Win32, fold);
    assert FoldAll(FoldAll(cs, fold), fold) == FoldAll(cs, fold);
    if |cs| == 1 && IsDrive(cs[0]) {
      DriveStaysDrive(cs[0], fold);
    }
  }

  lemma AsciiNames(p: string)
    requires IsAscii(p)
    ensures forall i :: 0 <= i < |Names(p)| ==> IsAscii(Names(p)[i])
  {
    AsciiComponents(Unify(p));
  }

  lemma {:induction false} AsciiComponents(p: string)
    requires IsAscii(p)
    ensures forall i :: 0 <= i < |Components(p, '\\')| ==> IsAscii(Components(p, '\\')[i])
  {
    if p != "" {
      AsciiComponents(p[1..]);
    }
  }

  /** In an ASCII path letter case never matters. */
  lemma KeyIgnoresAsciiCase(p: string, fold: string -> string)
    requires IsCaseFold(fold) && IsAscii(p)
    ensures IdentityKey(Lower(p), Win32, fold) == IdentityKey(p, Win32, fold)
  {
    hide IdentityKey, Lead;
    assert fold(p) == Lower(p);
    AsciiNames(p);
    if |Names(p)| == 1 {
      assert IsDrive(Lower(Names(p)[0])) <==> IsDrive(Names(p)[0]);
    }
    KeyIgnoresCaseIff(p, fold);
  }

  /** `toLowerCase` as far as ASCII and the Kelvin sign go: the sign becomes an ordinary k. */
  function LowerKelvin(p: string): (r: string)
    ensures |r| == |p|
  {
    seq(|p|, i requires 0 <= i < |p| => if p[i] == '\U{212A}' then 'k' else LowerChar(p[i]))
  }

  lemma LowerKelvinIsCaseFold()
    ensures IsCaseFold(LowerKelvin)
  {
  }

  /** A drive spelt with the Kelvin sign is no drive when canonicalised, but its key looks like one's. */
  lemma KelvinDriveDiffers()
    ensures IsCaseFold(LowerKelvin)
    ensures IdentityKey("\U{212A}:", Win32, LowerKelvin) != IdentityKey("k:", Win32, LowerKelvin)
  {
    var p := "\U{212A}:";
    LowerKelvinIsCaseFold();
    PlainNames(p);
    assert LowerKelvin(p) == "k:";
    KeyIgnoresCaseIff(p, LowerKelvin);
  }
}
