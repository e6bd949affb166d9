/** Texts made of parts: split at a separator, joined by one, or each ended by one. */
module Separators {
  import opened Common

  // ------------------------------------------------------- components

  /** The maximal runs of characters that are not the separator, in order. */
  function Components(p: string, sep: char): (cs: seq<string>)
    ensures p != "" && p[0] != sep ==> cs != []
  {
    if p == "" then []
    else if p[0] == sep then Components(p[1..], sep)
    else if |p| == 1 || p[1] == sep then [[p[0]]] + Components(p[1..], sep)
    else
      var rest := Components(p[1..], sep);
      [[p[0]] + rest[0]] + rest[1..]
  }

  predicate AreComponents(cs: seq<string>, sep: char) {
    forall i :: 0 <= i < |cs| ==> cs[i] != "" && sep !in cs[i]
  }

  function Join(cs: seq<string>, sep: char): string {
    if cs == [] then ""
    else if |cs| == 1 then cs[0]
    else cs[0] + [sep] + Join(cs[1..], sep)
  }

  lemma {:induction false} ComponentsAre(p: string, sep: char)
    ensures AreComponents(Components(p, sep), sep)
  {
    if p != "" {
      ComponentsAre(p[1..], sep);
    }
  }

  lemma {:induction false} OnlySeparators(p: string, sep: char)
    requires Components(p, sep) == []
    ensures forall i :: 0 <= i < |p| ==> p[i] == sep
  {
    if p != "" {
      OnlySeparators(p[1..], sep);
    }
  }

  lemma JoinOfFew(c: string, sep: char)
    ensures Join([], sep) == "" && Join([c], sep) == c
  {
  }

  lemma {:induction false} FirstComponent(c: string, rest: string, sep: char)
    requires c != "" && sep !in c
    requires rest == "" || rest[0] == sep
    ensures Components(c + rest, sep) == [c] + Components(rest, sep)
  {
    var p := c + rest;
    if |c| == 1 {
      assert p[1..] == rest;
      assert [p[0]] == c;
    } else {
      FirstComponent(c[1..], rest, sep);
      assert p[1..] == c[1..] + rest;
      assert p[1] == c[1];
      assert Components(p[1..], sep)[0] == c[1..] && Components(p[1..], sep)[1..] == Components(rest, sep);
      assert [p[0]] + c[1..] == c;
    }
  }

  lemma {:induction false} JoinEnds(cs: seq<string>, sep: char)
    requires cs != [] && AreComponents(cs, sep)
    ensures Join(cs, sep) != "" && Join(cs, sep)[0] == cs[0][0]
    ensures Join(cs, sep)[|Join(cs, sep)| - 1] != sep
  {
    if |cs| > 1 {
      JoinEnds(cs[1..], sep);
    }
  }

  lemma OneSeparator(sep: char)
    ensures Components("", sep) == [] && Components([sep], sep) == []
  {
  }

  /** Components are read back from their joining. */
  lemma {:induction false} JoinedComponents(cs: seq<string>, trail: string, sep: char)
    requires AreComponents(cs, sep)
    requires trail == "" || trail == [sep]
    ensures Components(Join(cs, sep) + trail, sep) == cs
    ensures cs != [] ==> Join(cs, sep) != "" && Join(cs, sep)[0] == cs[0][0]
    ensures cs != [] ==> Join(cs, sep)[|Join(cs, sep)| - 1] != sep
  {
    OneSeparator(sep);
    if cs == [] {
      assert Join(cs, sep) + trail == trail;
    } else {
      JoinEnds(cs, sep);
      if |cs| == 1 {
        hide Components;
        FirstComponent(cs[0], trail, sep);
      } else {
        JoinedComponents(cs[1..], trail, sep);
        var inner := Join(cs[1..], sep) + trail;
        assert ([sep] + inner)[1..] == inner;
        assert Join(cs, sep) + trail == cs[0] + ([sep] + inner);
        FirstComponent(cs[0], [sep] + inner, sep);
        assert [cs[0]] + cs[1..] == cs;
      }
    }
  }

  lemma {:induction false} ComponentsOfParts(a: string, b: string, sep: char)
    ensures Components(a + [sep] + b, sep) == Components(a, sep) + Components(b, sep)
  {
    var p := a + [sep] + b;
    if a == "" {
      assert p[1..] == b;
    } else {
      ComponentsOfParts(a[1..], b, sep);
      assert p[1..] == a[1..] + [sep] + b;
    }
  }

  // ------------------------------------------------------- runs and ends

  /** Every run of separators replaced by one. */
  function Collapse(p: string, sep: char): string {
    if |p| < 2 then p
    else if p[0] == sep && p[1] == sep then Collapse(p[1..], sep)
    else [p[0]] + Collapse(p[1..], sep)
  }

  function StripTrailing(p: string, sep: char): string {
    if p != "" && p[|p| - 1] == sep then StripTrailing(p[..|p| - 1], sep) else p
  }

  lemma {:induction false} CollapseAddsNothing(p: string, sep: char, c: char)
    requires c !in p
    ensures c !in Collapse(p, sep)
  {
    if |p| >= 2 {
      CollapseAddsNothing(p[1..], sep, c);
    }
  }

  lemma {:induction false} StripAddsNothing(p: string, sep: char, c: char)
    requires c !in p
    ensures c !in StripTrailing(p, sep)
  {
    if p != "" && p[|p| - 1] == sep {
      StripAddsNothing(p[..|p| - 1], sep, c);
    }
  }

  // ------------------------------------------------------- what collapsing leaves

  function Trailing(p: string, sep: char): string {
    if Components(p, sep) != [] && p[|p| - 1] == sep then [sep] else ""
  }

  lemma JoinLonger(c: char, cs: seq<string>, sep: char)
    requires cs != []
    ensures Join([[c] + cs[0]] + cs[1..], sep) == [c] + Join(cs, sep)
    ensures Join([[c]] + cs, sep) == [c, sep] + Join(cs, sep)
  {
    assert ([[c]] + cs)[1..] == cs;
    assert ([[c] + cs[0]] + cs[1..])[1..] == cs[1..];
  }

  function Start(p: string, sep: char): string {
    if p != "" && p[0] == sep then [sep] else ""
  }

  /** What collapsing leaves: one leading separator, the components, one trailing separator. */
  ghost predicate HasCollapsedForm(p: string, sep: char) {
    Collapse(p, sep) == Start(p, sep) + Join(Components(p, sep), sep) + Trailing(p, sep)
  }

  lemma {:induction false} CollapsedForm(p: string, sep: char)
    ensures HasCollapsedForm(p, sep)
  {
    if |p| >= 2 {
      CollapsedForm(p[1..], sep);
      if p[0] == sep {
        CollapsedBySeparator(p, sep);
      } else {
        CollapsedByCharacter(p, sep);
      }
    }
  }

  lemma CollapsedBySeparator(p: string, sep: char)
    requires |p| >= 2 && p[0] == sep && HasCollapsedForm(p[1..], sep)
    ensures HasCollapsedForm(p, sep)
  {
  }

  lemma CollapsedByCharacter(p: string, sep: char)
    requires |p| >= 2 && p[0] != sep && HasCollapsedForm(p[1..], sep)
    ensures HasCollapsedForm(p, sep)
  {
    hide Join, Components, Trailing, Collapse;
    var t := p[1..];
    var cs := Components(t, sep);
    CharacterInFront(p, sep);
    if cs == [] {
      BeforeSeparators(p, sep);
      JoinOfFew([p[0]], sep);
    } else {
      JoinLonger(p[0], cs, sep);
      Regroup(p[0], sep, Join(cs, sep), Trailing(t, sep));
    }
  }

  lemma CharacterInFront(p: string, sep: char)
    requires |p| >= 2 && p[0] != sep
    ensures Collapse(p, sep) == [p[0]] + Collapse(p[1..], sep)
    ensures var cs := Components(p[1..], sep);
            && Components(p, sep) == (if p[1] == sep then [[p[0]]] + cs else [[p[0]] + cs[0]] + cs[1..])
            && (cs != [] ==> Trailing(p, sep) == Trailing(p[1..], sep))
  {
  }

  lemma BeforeSeparators(p: string, sep: char)
    requires |p| >= 2 && p[0] != sep && Components(p[1..], sep) == []
    ensures Components(p, sep) == [[p[0]]]
    ensures p[1] == sep && Trailing(p, sep) == [sep] && Trailing(p[1..], sep) == ""
  {
    hide Join, Collapse;
    OnlySeparators(p[1..], sep);
  }

  lemma Regroup(c: char, sep: char, j: string, e: string)
    ensures [c] + ([sep] + j + e) == [c, sep] + j + e
    ensures [c] + ("" + j + e) == [c] + j + e
  {
  }

  lemma {:induction false} StripSeparators(p: string, trail: string, sep: char)
    requires p == "" || p[|p| - 1] != sep
    requires forall i :: 0 <= i < |trail| ==> trail[i] == sep
    ensures StripTrailing(p + trail, sep) == p
  {
    var q := p + trail;
    if trail == "" {
      assert q == p;
    } else {
      assert q[..|q| - 1] == p + trail[..|trail| - 1];
      StripSeparators(p, trail[..|trail| - 1], sep);
    }
  }

  // ------------------------------------------------------- terminated parts

  ghost predicate AreFree(end: char, parts: seq<string>) {
    forall i :: 0 <= i < |parts| ==> end !in parts[i]
  }

  /** The parts, each followed by the terminator. */
  function Terminate(end: char, parts: seq<string>): string {
    if parts == [] then "" else parts[0] + [end] + Terminate(end, parts[1..])
  }

  lemma {:induction false} TerminateConcat(end: char, a: seq<string>, b: seq<string>)
    ensures Terminate(end, a + b) == Terminate(end, a) + Terminate(end, b)
  {
    if a == [] {
      assert a + b == b;
    } else {
      TerminateConcat(end, a[1..], b);
      assert (a + b)[1..] == a[1..] + b;
    }
  }

  lemma FirstEndAt(end: char, x: string, u: string)
    requires end !in x
    ensures IndexOf(x + [end] + u, end) == Some(|x|)
  {
    assert (x + [end] + u)[|x|] == end;
  }

  lemma SameFirstPart(end: char, x: string, y: string, u: string, v: string)
    requires end !in x && end !in y
    requires x + [end] + u <= y + [end] + v
    ensures x == y && u <= v
  {
    var s, t := x + [end] + u, y + [end] + v;
    FirstEndAt(end, x, u);
    FirstEndAt(end, y, v);
    assert t[..|s|] == s && t[|x|] == s[|x|];
    assert IndexOf(t, end) == Some(|x|);
    assert x == s[..|x|] == t[..|x|] == y;
    assert u == s[|x| + 1..] && v == t[|x| + 1..];
  }

  lemma PartsHaveEnds(end: char, a: seq<string>, r: string)
    ensures if a == [] then Terminate(end, a) + r == r else end in Terminate(end, a) + r
  {
  }

  /** Terminated parts in a prefix of a text are its first parts. */
  lemma {:induction false} PartsOfPrefix(end: char, a: seq<string>, r: string, b: seq<string>)
    requires AreFree(end, a) && AreFree(end, b) && Terminate(end, a) + r <= Terminate(end, b)
    ensures |a| <= |b| && a == b[..|a|] && r <= Terminate(end, b[|a|..])
  {
    if a != [] {
      assert b != [];
      var u := Terminate(end, a[1..]) + r;
      assert Terminate(end, a) + r == a[0] + [end] + u;
      SameFirstPart(end, a[0], b[0], u, Terminate(end, b[1..]));
      PartsOfPrefix(end, a[1..], r, b[1..]);
      assert a == [a[0]] + a[1..] && b[..|a|] == [b[0]] + b[1..][..|a| - 1];
      assert b[|a|..] == b[1..][|a| - 1..];
    } else {
      assert Terminate(end, a) + r == r && b[0..] == b;
    }
  }
}
