/**
  The crawler's fixed link pattern
      (https?://[^\s<>]+)|href=['"]([^"']+)|src=['"]([^"']+)
  run with `re.finditer` over a page's text (main.py:115-117): a scan from
  left to right that, at each position, tries the three alternatives in
  order, takes the first that matches (each of them greedy), resumes after
  the match, and otherwise moves on one character.
*/
module LinkScan {
  import opened Wrappers
  import opened Strings

  /** Which alternative of the pattern matched, i.e. which group is set. */
  datatype Alternative = Bare | Href | Src

  /** One match: the alternative, the span `[start, end)` of the whole match
      in the text, and the text of the group that took part. */
  datatype LinkMatch = LinkMatch(alt: Alternative, start: nat, end: nat, link: string)

  /** A character `[^\s<>]` accepts. */
  predicate UrlChar(c: char) {
    !IsSpace(c) && c != '<' && c != '>'
  }

  /** A character `[^"']` accepts. */
  predicate AttrChar(c: char) {
    c != '"' && c != '\''
  }

  predicate IsQuote(c: char) {
    c == '"' || c == '\''
  }

  /** Where a greedy `[^\s<>]*` starting at `i` stops. */
  function UrlRun(s: string, i: nat): (j: nat)
    requires i <= |s|
    ensures i <= j <= |s|
    ensures forall k :: i <= k < j ==> UrlChar(s[k])
    ensures j < |s| ==> !UrlChar(s[j])
    decreases |s| - i
  {
    if i == |s| || !UrlChar(s[i]) then i else UrlRun(s, i + 1)
  }

  /** Where a greedy `[^"']*` starting at `i` stops. */
  function AttrRun(s: string, i: nat): (j: nat)
    requires i <= |s|
    ensures i <= j <= |s|
    ensures forall k :: i <= k < j ==> AttrChar(s[k])
    ensures j < |s| ==> !AttrChar(s[j])
    decreases |s| - i
  {
    if i == |s| || !AttrChar(s[i]) then i else AttrRun(s, i + 1)
  }

  /** `m.groups()`: three groups, of which the one for `m.alt` is set. */
  function Groups(m: LinkMatch): (gs: seq<Option<string>>)
    ensures |gs| == 3
  {
    match m.alt
    case Bare => [Some(m.link), None, None]
    case Href => [None, Some(m.link), None]
    case Src => [None, None, Some(m.link)]
  }

  /** The truth value Python gives a group: set and not empty. */
  predicate Present(g: Option<string>) {
    g.Some? && g.value != []
  }

  /** `s[i..]` starts with the literal `lit` followed by a quote and a
      character that may stand inside the quotes. */
  predicate AttrAt(s: string, i: nat, lit: string) {
    i + |lit| + 1 < |s| && StartsWith(s[i..], lit) && IsQuote(s[i + |lit|]) && AttrChar(s[i + |lit| + 1])
  }

  /** The match `re.match` finds at position `i`, if any. */
  function MatchAt(s: string, i: nat): Option<LinkMatch>
    requires i <= |s|
  {
    var scheme := if StartsWith(s[i..], "https://") then 8 else if StartsWith(s[i..], "http://") then 7 else 0;
    if scheme > 0 && i + scheme < |s| && UrlChar(s[i + scheme]) then
      var e := UrlRun(s, i + scheme);
      Some(LinkMatch(Bare, i, e, s[i..e]))
    else if AttrAt(s, i, "href=") then
      var e := AttrRun(s, i + 6);
      Some(LinkMatch(Href, i, e, s[i + 6..e]))
    else if AttrAt(s, i, "src=") then
      var e := AttrRun(s, i + 5);
      Some(LinkMatch(Src, i, e, s[i + 5..e]))
    else None
  }

  /** What a match found in `s` looks like: a non-empty group at the end of
      a non-empty span, shaped as its alternative demands and as long as
      the greedy repetition makes it. */
  predicate Matched(s: string, m: LinkMatch) {
    && m.start < m.end <= |s|
    && m.link != []
    && |m.link| <= m.end - m.start
    && m.link == s[m.end - |m.link|..m.end]
    && (m.end < |s| ==> !(if m.alt == Bare then UrlChar(s[m.end]) else AttrChar(s[m.end])))
    && match m.alt
       case Bare =>
         && m.link == s[m.start..m.end]
         && (StartsWith(m.link, "http://") || StartsWith(m.link, "https://"))
         && (forall k :: m.start + 7 <= k < m.end ==> UrlChar(s[k]))
       case Href =>
         && m.start + 6 < m.end
         && m.link == s[m.start + 6..m.end]
         && s[m.start..m.start + 5] == "href=" && IsQuote(s[m.start + 5])
         && (forall k :: m.start + 6 <= k < m.end ==> AttrChar(s[k]))
       case Src =>
         && m.start + 5 < m.end
         && m.link == s[m.start + 5..m.end]
         && s[m.start..m.start + 4] == "src=" && IsQuote(s[m.start + 4])
         && (forall k :: m.start + 5 <= k < m.end ==> AttrChar(s[k]))
  }

  lemma MatchAtShape(s: string, i: nat)
    requires i <= |s|
    ensures MatchAt(s, i).Some? ==> MatchAt(s, i).value.start == i && Matched(s, MatchAt(s, i).value)
  {
    if MatchAt(s, i).Some? {
      match MatchAt(s, i).value.alt
      case Bare => BareShape(s, i);
      case Href => AttrShape(s, i, "href=", Href);
      case Src => AttrShape(s, i, "src=", Src);
    }
  }

  lemma BareShape(s: string, i: nat)
    requires i <= |s| && MatchAt(s, i).Some? && MatchAt(s, i).value.alt == Bare
    ensures MatchAt(s, i).value.start == i && Matched(s, MatchAt(s, i).value)
  {
    var m := MatchAt(s, i).value;
    var scheme := if StartsWith(s[i..], "https://") then 8 else 7;
    assert s[i..][..7] == s[i..i + 7];
    assert StartsWith(s[i..], "https://") ==> s[i..][..8] == s[i..i + 8];
    assert m.link[..7] == s[i..i + 7];
    assert scheme == 8 ==> m.link[..8] == s[i..i + 8];
    assert forall k :: i + 7 <= k < i + scheme ==> UrlChar(s[k]);
  }

  lemma AttrShape(s: string, i: nat, lit: string, alt: Alternative)
    requires i <= |s| && MatchAt(s, i).Some? && MatchAt(s, i).value.alt == alt
    requires (alt == Href && lit == "href=") || (alt == Src && lit == "src=")
    ensures MatchAt(s, i).value.start == i && Matched(s, MatchAt(s, i).value)
  {
    assert AttrAt(s, i, lit);
    assert s[i..][..|lit|] == s[i..i + |lit|];
  }

  /** The matches `re.finditer` yields from position `i` on, in order. */
  function FindFrom(s: string, i: nat): (ms: seq<LinkMatch>)
    requires i <= |s|
    ensures forall k :: 0 <= k < |ms| ==> i <= ms[k].start && Matched(s, ms[k])
    ensures forall k :: 0 <= k < |ms| - 1 ==> ms[k].end <= ms[k + 1].start
    decreases |s| - i
  {
    if i == |s| then []
    else
      MatchAtShape(s, i);
      match MatchAt(s, i)
      case Some(m) => [m] + FindFrom(s, m.end)
      case None => FindFrom(s, i + 1)
  }

  /** `re.finditer(pattern, body)`. */
  function FindLinks(body: string): seq<LinkMatch> {
    FindFrom(body, 0)
  }

  /** The group an alternative sets. */
  function GroupIndex(alt: Alternative): nat {
    match alt
    case Bare => 0
    case Href => 1
    case Src => 2
  }

  /** Of the three groups of a match, exactly one is one Python treats as
      true, the one its alternative sets, and it holds the match's link. */
  lemma OnePresentGroup(s: string, m: LinkMatch)
    requires Matched(s, m)
    ensures GroupIndex(m.alt) < 3 && Groups(m)[GroupIndex(m.alt)] == Some(m.link)
    ensures forall k :: 0 <= k < 3 ==> (Present(Groups(m)[k]) <==> k == GroupIndex(m.alt))
  {
  }

  /** No match is skipped: scanning from `i`, every position before the
      first match (or before the end, when there is none) has none. */
  lemma {:induction false} NothingSkipped(s: string, i: nat, k: nat)
    requires i <= k < |s|
    requires forall m :: m in FindFrom(s, i) ==> k < m.start
    ensures MatchAt(s, k).None?
    decreases k - i
  {
    MatchAtShape(s, i);
    if MatchAt(s, i).Some? {
      assert false;
    } else if k > i {
      assert FindFrom(s, i) == FindFrom(s, i + 1);
      NothingSkipped(s, i + 1, k);
    }
  }
}
