/** The identifiers given to workspaces: a slug of the folder name and six random hex digits. */
module WorkspaceIdentifier {
  import opened Common
  import opened Separators

  const SLUG_MAX_LEN := 32
  const FALLBACK_SLUG := "workspace"
  const MAX_COLLISION_RETRIES := 3

  predicate IsSlugChar(c: char) {
    'a' <= c <= 'z' || '0' <= c <= '9' || c == '-'
  }

  predicate IsHexDigit(c: char) {
    'a' <= c <= 'f' || '0' <= c <= '9'
  }

  predicate AllSlug(s: string) {
    forall i :: 0 <= i < |s| ==> IsSlugChar(s[i])
  }

  function DropOther(s: string): (r: string)
    ensures |r| <= |s| && (r == "" || IsSlugChar(r[0]))
  {
    if s == "" || IsSlugChar(s[0]) then s else DropOther(s[1..])
  }

  /** Every run of other characters replaced by one dash. */
  function ReplaceOther(s: string): string
    decreases |s|
  {
    if s == "" then ""
    else if IsSlugChar(s[0]) then [s[0]] + ReplaceOther(s[1..])
    else "-" + ReplaceOther(DropOther(s[1..]))
  }

  function StripLeading(s: string): string {
    if s != "" && s[0] == '-' then StripLeading(s[1..]) else s
  }

  function Truncate(s: string): string {
    if |s| > SLUG_MAX_LEN then s[..SLUG_MAX_LEN] else s
  }

  /** `toLowerCase` is a parameter: what is said of slugs does not depend on it. */
  function Slugify(folderName: string, toLowerCase: string -> string): string {
    var dashed := Collapse(ReplaceOther(toLowerCase(folderName)), '-');
    var s := StripTrailing(Truncate(StripTrailing(StripLeading(dashed), '-')), '-');
    if s == "" then FALLBACK_SLUG else s
  }

  // ------------------------------------------------------- what a slug looks like

  predicate NoDoubleDash(s: string) {
    forall i :: 0 <= i < |s| - 1 ==> !(s[i] == '-' && s[i + 1] == '-')
  }

  /** Lower-case words of letters and digits joined by single dashes, not too long. */
  predicate IsSlug(s: string) {
    && 0 < |s| <= SLUG_MAX_LEN && AllSlug(s) && NoDoubleDash(s)
    && s[0] != '-' && s[|s| - 1] != '-'
  }

  lemma {:induction false} ReplacedAreSlugChars(s: string)
    ensures AllSlug(ReplaceOther(s))
    decreases |s|
  {
    if s != "" {
      if IsSlugChar(s[0]) {
        ReplacedAreSlugChars(s[1..]);
      } else {
        ReplacedAreSlugChars(DropOther(s[1..]));
      }
    }
  }

  lemma {:induction false} Collapsed(s: string)
    requires AllSlug(s)
    ensures AllSlug(Collapse(s, '-')) && NoDoubleDash(Collapse(s, '-'))
    ensures s != "" ==> Collapse(s, '-') != "" && Collapse(s, '-')[0] == s[0]
  {
    if |s| >= 2 {
      Collapsed(s[1..]);
    }
  }

  lemma {:induction false} LeadingStripped(s: string)
    requires AllSlug(s) && NoDoubleDash(s)
    ensures AllSlug(StripLeading(s)) && NoDoubleDash(StripLeading(s))
    ensures StripLeading(s) == "" || StripLeading(s)[0] != '-'
  {
    if s != "" && s[0] == '-' {
      LeadingStripped(s[1..]);
    }
  }

  lemma {:induction false} TrailingStripped(s: string)
    requires AllSlug(s) && NoDoubleDash(s) && (s == "" || s[0] != '-')
    ensures var r := StripTrailing(s, '-');
            && |r| <= |s| && AllSlug(r) && NoDoubleDash(r)
            && (r != "" ==> r[0] != '-' && r[|r| - 1] != '-')
  {
    if s != "" && s[|s| - 1] == '-' {
      TrailingStripped(s[..|s| - 1]);
    }
  }

  /** Whatever the folder is called, its slug is one. */
  lemma SlugifyIsSlug(folderName: string, toLowerCase: string -> string)
    ensures IsSlug(Slugify(folderName, toLowerCase))
  {
    hide ReplaceOther, Collapse, StripLeading, StripTrailing;
    var replaced := ReplaceOther(toLowerCase(folderName));
    ReplacedAreSlugChars(toLowerCase(folderName));
    Collapsed(replaced);
    var dashed := Collapse(replaced, '-');
    LeadingStripped(dashed);
    TrailingStripped(StripLeading(dashed));
    TrailingStripped(Truncate(StripTrailing(StripLeading(dashed), '-')));
  }

  lemma {:induction false} NothingToReplace(s: string)
    requires AllSlug(s)
    ensures ReplaceOther(s) == s
  {
    if s != "" {
      NothingToReplace(s[1..]);
    }
  }

  lemma {:induction false} NothingToCollapse(s: string)
    requires NoDoubleDash(s)
    ensures Collapse(s, '-') == s
  {
    if |s| >= 2 {
      NothingToCollapse(s[1..]);
    }
  }

  /** Exactly the slugs are left as they are, if lower case is left alone. */
  lemma SlugifyFixesIffSlug(s: string, toLowerCase: string -> string)
    requires toLowerCase(s) == s
    ensures Slugify(s, toLowerCase) == s <==> IsSlug(s)
  {
    SlugifyIsSlug(s, toLowerCase);
    if IsSlug(s) {
      NothingToReplace(s);
      NothingToCollapse(s);
    }
  }

  // ------------------------------------------------------- what a slug says

  /** Every character but letters and digits made a dash. */
  function Masked(s: string): (r: string)
    ensures |r| == |s|
  {
    seq(|s|, i requires 0 <= i < |s| => if 'a' <= s[i] <= 'z' || '0' <= s[i] <= '9' then s[i] else '-')
  }

  lemma {:induction false} DroppedWords(s: string)
    ensures Components(Masked(DropOther(s)), '-') == Components(Masked(s), '-')
  {
    if s != "" && !IsSlugChar(s[0]) {
      DroppedWords(s[1..]);
      assert Masked(s)[1..] == Masked(s[1..]);
    }
  }

  /** Replacing runs of other characters leaves the words. */
  lemma {:induction false} ReplacedWords(s: string)
    ensures Components(ReplaceOther(s), '-') == Components(Masked(s), '-')
    ensures (ReplaceOther(s) == "" <==> s == "")
    ensures s != "" ==> ReplaceOther(s)[0] == Masked(s)[0]
    decreases |s|
  {
    if s != "" {
      var m := Masked(s);
      assert m[1..] == Masked(s[1..]);
      if IsSlugChar(s[0]) {
        ReplacedWords(s[1..]);
        assert ReplaceOther(s)[1..] == ReplaceOther(s[1..]);
      } else {
        ReplacedWords(DropOther(s[1..]));
        DroppedWords(s[1..]);
        assert ReplaceOther(s)[1..] == ReplaceOther(DropOther(s[1..]));
      }
    }
  }

  /** Without its outer dashes a collapsed text is the joining of its words. */
  lemma StrippedWords(s: string)
    ensures StripTrailing(StripLeading(Collapse(s, '-')), '-') == Join(Components(s, '-'), '-')
  {
    var cs := Components(s, '-');
    var joined := Join(cs, '-');
    CollapsedForm(s, '-');
    ComponentsAre(s, '-');
    hide Collapse, Components, Join;
    if cs == [] {
      JoinOfFew("", '-');
    } else {
      JoinEnds(cs, '-');
      StripSeparators(joined, Trailing(s, '-'), '-');
      var rest := joined + Trailing(s, '-');
      assert Start(s, '-') + joined + Trailing(s, '-') == Start(s, '-') + rest;
      assert ("-" + rest)[1..] == rest;
    }
  }

  /**
   * The slug is the words of the lowered name, joined by dashes and cut after 32
   * characters, without a dash at the cut; for a name without words it is "workspace".
   */
  lemma SlugifyJoinsWords(folderName: string, toLowerCase: string -> string)
    ensures var joined := Join(Components(Masked(toLowerCase(folderName)), '-'), '-');
            Slugify(folderName, toLowerCase) ==
              if joined == "" then "workspace"
              else if |joined| <= 32 then joined
              else if joined[31] == '-' then joined[..31]
              else joined[..32]
  {
    var s := toLowerCase(folderName);
    var cs := Components(Masked(s), '-');
    var joined := Join(cs, '-');
    ReplacedWords(s);
    StrippedWords(ReplaceOther(s));
    ReplacedAreSlugChars(s);
    Collapsed(ReplaceOther(s));
    LeadingStripped(Collapse(ReplaceOther(s), '-'));
    TrailingStripped(StripLeading(Collapse(ReplaceOther(s), '-')));
    CutAtDash(joined);
  }

  lemma CutAtDash(joined: string)
    requires NoDoubleDash(joined) && (joined != "" ==> joined[0] != '-' && joined[|joined| - 1] != '-')
    ensures StripTrailing(Truncate(joined), '-') ==
              if |joined| <= 32 then joined else if joined[31] == '-' then joined[..31] else joined[..32]
    ensures joined != "" ==> StripTrailing(Truncate(joined), '-') != ""
  {
    if |joined| > 32 {
      var cut := joined[..32];
      if joined[31] == '-' {
        assert joined[30] != '-' && cut[..31] == joined[..31];
      }
    }
  }

  // ------------------------------------------------------- identifiers

  /** Six hex digits, as cut from the hex form of four random bytes. */
  predicate IsSuffix(s: string) {
    |s| == 6 && forall i :: 0 <= i < |s| ==> IsHexDigit(s[i])
  }

  lemma SuffixIsHex(s: string)
    ensures IsSuffix(s) <==> |s| == 6 && forall c :: c in s ==> c in "0123456789abcdef"
  {
    forall c
      ensures IsHexDigit(c) <==> c in "0123456789abcdef"
    {
      HexDigit(c);
    }
  }

  lemma HexDigit(c: char)
    ensures IsHexDigit(c) <==> c in "0123456789abcdef"
  {
    if '0' <= c <= '9' {
      assert c == "0123456789abcdef"[c as int - '0' as int];
    } else if 'a' <= c <= 'f' {
      assert c == "0123456789abcdef"[c as int - 'a' as int + 10];
    }
  }

  /** The identifiers that can be generated at all. */
  ghost predicate IsGenerated(identifier: string) {
    exists slug, suffix :: IsSlug(slug) && IsSuffix(suffix) && identifier == slug + "-" + suffix
  }

  lemma GeneratedHasNoColon(identifier: string)
    requires IsGenerated(identifier)
    ensures ':' !in identifier
  {
    var slug, suffix :| IsSlug(slug) && IsSuffix(suffix) && identifier == slug + "-" + suffix;
    assert ':' !in slug && ':' !in suffix;
  }

  /** Slug and suffix can be told apart again, so different slugs never collide. */
  lemma GeneratedInjective(slug: string, suffix: string, slug': string, suffix': string)
    requires IsSuffix(suffix) && IsSuffix(suffix')
    ensures slug + "-" + suffix == slug' + "-" + suffix' <==> slug == slug' && suffix == suffix'
  {
    var x, y := slug + "-" + suffix, slug' + "-" + suffix';
    if x == y {
      assert slug == x[..|x| - 7] && slug' == y[..|y| - 7];
      assert suffix == x[|x| - 6..] && suffix' == y[|y| - 6..];
    }
  }

  ghost predicate IsFirstFree(k: nat, slug: string, suffixes: seq<string>, used: set<string>, identifier: string) {
    && k < |suffixes| && identifier == slug + "-" + suffixes[k] && identifier !in used
    && forall j :: 0 <= j < k ==> slug + "-" + suffixes[j] in used
  }

  /**
   * `suffixes` are the random suffixes in the order they are drawn, and `used` are the
   * identifiers in the store. The first candidate that is not used is taken, and the
   * fourth collision is an error.
   */
  method GenerateIdentifier(
    folderName: string, toLowerCase: string -> string, used: set<string>, suffixes: seq<string>)
    returns (identifier: Option<string>)
    requires |suffixes| == 4
    requires forall k :: 0 <= k < |suffixes| ==> IsSuffix(suffixes[k])
    ensures identifier.None? <==>
              forall k :: 0 <= k < |suffixes| ==> Slugify(folderName, toLowerCase) + "-" + suffixes[k] in used
    ensures identifier.Some? ==> identifier.value !in used && IsGenerated(identifier.value)
    ensures identifier.Some? ==>
              exists k :: IsFirstFree(k, Slugify(folderName, toLowerCase), suffixes, used, identifier.value)
  {
    var slug := Slugify(folderName, toLowerCase);
    SlugifyIsSlug(folderName, toLowerCase);
    hide Slugify, IsSlug, IsSuffix;
    var attempt := 0;
    while attempt <= MAX_COLLISION_RETRIES
      invariant 0 <= attempt <= MAX_COLLISION_RETRIES + 1
      invariant forall j :: 0 <= j < attempt ==> slug + "-" + suffixes[j] in used
    {
      var candidate := slug + "-" + suffixes[attempt];
      if candidate !in used {
        assert IsFirstFree(attempt, slug, suffixes, used, candidate);
        return Some(candidate);
      }
      attempt := attempt + 1;
    }
    return None;
  }
}
