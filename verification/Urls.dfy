/** Links in a message that may get a preview: bare URLs and labelled links, outside code. */
module Urls {
  import opened Common
  import opened CodeRanges

  const MAX_LINKS := 5

  const HTTPS := "https://"
  const HTTP := "http://"

  datatype Link = Link(from: nat, end: nat)

  predicate IsWordChar(c: char) {
    'a' <= c <= 'z' || 'A' <= c <= 'Z' || '0' <= c <= '9'
  }

  predicate IsUrlChar(c: char) {
    '!' <= c <= '~' && c != '<' && c != '>' && c != '`'
  }

  /** Punctuation that a URL does not end with. */
  predicate IsTrailing(c: char) {
    c in ".,;:!?)]}'\"*_~"
  }

  /** A character of the URL of a labelled link: no space of any kind and none of the delimiters. */
  predicate IsLabelledUrlChar(c: char) {
    && !('\t' <= c <= '\n') && !('\U{000C}' <= c <= '\r') && c != ' '
    && c != '\U{00A0}' && c != '\U{1680}' && !('\U{2000}' <= c <= '\U{200A}') && c != '\U{2028}' && c != '\U{2029}'
    && c != '\U{202F}' && c != '\U{205F}' && c != '\U{3000}' && c != '\U{FEFF}'
    && c != '<' && c != '>' && c != '`' && c != '|'
  }

  predicate IsLabelChar(c: char) {
    c != '<' && c != '>' && c != '`' && c != '\n'
  }

  predicate HasPrefix(s: string, i: nat, prefix: string) {
    i + |prefix| <= |s| && s[i..i + |prefix|] == prefix
  }

  predicate HasScheme(s: string, i: nat) {
    HasPrefix(s, i, HTTPS) || HasPrefix(s, i, HTTP)
  }

  /** Where a run of URL characters ends. */
  function UrlRun(s: string, i: nat): (e: nat)
    requires i <= |s|
    decreases |s| - i
    ensures i <= e <= |s| && (forall k :: i <= k < e ==> IsUrlChar(s[k])) && (e < |s| ==> !IsUrlChar(s[e]))
  {
    if i < |s| && IsUrlChar(s[i]) then UrlRun(s, i + 1) else i
  }

  function LabelledRun(s: string, i: nat): (e: nat)
    requires i <= |s|
    decreases |s| - i
    ensures i <= e <= |s| && (forall k :: i <= k < e ==> IsLabelledUrlChar(s[k])) && (e < |s| ==> !IsLabelledUrlChar(s[e]))
  {
    if i < |s| && IsLabelledUrlChar(s[i]) then LabelledRun(s, i + 1) else i
  }

  function LabelRun(s: string, i: nat): (e: nat)
    requires i <= |s|
    decreases |s| - i
    ensures i <= e <= |s| && (forall k :: i <= k < e ==> IsLabelChar(s[k])) && (e < |s| ==> !IsLabelChar(s[e]))
  {
    if i < |s| && IsLabelChar(s[i]) then LabelRun(s, i + 1) else i
  }

  /** The end without trailing punctuation. */
  function Trimmed(s: string, i: nat, end: nat): (e: nat)
    requires i <= end <= |s|
    ensures i <= e <= end && (forall k :: e <= k < end ==> IsTrailing(s[k])) && (e > i ==> !IsTrailing(s[e - 1]))
  {
    if end > i && IsTrailing(s[end - 1]) then Trimmed(s, i, end - 1) else end
  }

  function TrimPrefix(s: string, prefix: string): string {
    if HasPrefix(s, 0, prefix) then s[|prefix|..] else s
  }

  /** A scheme and at least one character more. */
  predicate SchemeIn(s: string, i: nat, end: nat) {
    && end <= |s|
    && ((HasPrefix(s, i, HTTPS) && i + |HTTPS| < end) || (HasPrefix(s, i, HTTP) && i + |HTTP| < end))
  }

  lemma SchemeChars(scheme: string)
    requires scheme == HTTPS || scheme == HTTP
    ensures forall k :: 0 <= k < |scheme| ==> IsUrlChar(scheme[k])
    ensures scheme != "" && !IsTrailing(scheme[|scheme| - 1])
  {
  }

  /** Trimming stops at the scheme: all of it is URL characters, and it does not end in punctuation. */
  lemma SchemeStays(s: string, i: nat, scheme: string)
    requires scheme == HTTPS || scheme == HTTP
    requires HasPrefix(s, i, scheme)
    ensures var end := Trimmed(s, i, UrlRun(s, i)); i + |scheme| <= end && (end == i + |scheme| ==> s[i..end] == scheme)
  {
    SchemeChars(scheme);
    StaysBehind(s, i, scheme);
  }

  lemma StaysBehind(s: string, i: nat, prefix: string)
    requires prefix != "" && HasPrefix(s, i, prefix)
    requires (forall k :: 0 <= k < |prefix| ==> IsUrlChar(prefix[k])) && !IsTrailing(prefix[|prefix| - 1])
    ensures i + |prefix| <= Trimmed(s, i, UrlRun(s, i))
  {
    forall j | i <= j < i + |prefix| ensures s[j] == prefix[j - i] && IsUrlChar(s[j]) {
      assert s[j] == s[i..i + |prefix|][j - i];
    }
    assert UrlRun(s, i) >= i + |prefix| && s[i + |prefix| - 1] == prefix[|prefix| - 1];
  }

  lemma NothingAfterScheme(scheme: string)
    requires scheme == HTTPS || scheme == HTTP
    ensures TrimPrefix(TrimPrefix(scheme, HTTPS), HTTP) == ""
  {
    assert scheme[0..|scheme|] == scheme;
    if scheme == HTTPS {
      assert TrimPrefix(scheme, HTTPS) == "";
    }
  }

  /** The end of a bare URL that begins here. A scheme alone, or one followed by a slash, is no link. */
  function BareEnd(s: string, i: nat): (r: Option<nat>)
    requires i < |s|
    ensures r.Some? ==> SchemeIn(s, i, r.value) && (forall k :: i <= k < r.value ==> IsUrlChar(s[k]))
  {
    if HasScheme(s, i) && (i == 0 || !IsWordChar(s[i - 1])) then
      var end := Trimmed(s, i, UrlRun(s, i));
      var scheme := if HasPrefix(s, i, HTTPS) then HTTPS else HTTP;
      SchemeStays(s, i, scheme);
      NothingAfterScheme(scheme);
      var rest := TrimPrefix(TrimPrefix(s[i..end], HTTPS), HTTP);
      if rest != "" && rest[0] != '/' then Some(end) else None
    else None
  }

  /** A labelled link that begins here: the end of its URL and its own end. */
  function LabelledEnds(s: string, i: nat): (r: Option<(nat, nat)>)
    requires i < |s|
    ensures r.Some? ==> SchemeIn(s, i + 1, r.value.0) && r.value.0 < r.value.1 <= |s|
    ensures r.Some? ==> s[i] == '<' && (forall k :: i < k < r.value.0 ==> s[k] != '`')
  {
    if s[i] == '<' && HasScheme(s, i + 1) then
      var start := i + 1 + if HasPrefix(s, i + 1, HTTPS) then |HTTPS| else |HTTP|;
      var bar := LabelledRun(s, start);
      if bar > start && bar < |s| && s[bar] == '|' then
        var close := LabelRun(s, bar + 1);
        if close > bar + 1 && close < |s| && s[close] == '>' then
          assert forall k :: i < k < start ==> s[k] == s[i + 1..start][k - i - 1];
          Some((bar, close + 1))
        else None
      else None
    else None
  }

  /** The link found here, and where to go on. */
  function LinkAt(s: string, i: nat): (r: Option<(Link, nat)>)
    requires i < |s|
    ensures r.Some? ==> i <= r.value.0.from < r.value.0.end <= r.value.1 <= |s| && SchemeIn(s, r.value.0.from, r.value.0.end)
    ensures r.Some? ==> (forall k :: i <= k < r.value.0.end ==> s[k] != '`')
  {
    var labelled := LabelledEnds(s, i);
    if labelled.Some? then Some((Link(i + 1, labelled.value.0), labelled.value.1))
    else if BareEnd(s, i).Some? then Some((Link(i, BareEnd(s, i).value), BareEnd(s, i).value))
    else None
  }

  /** The links from a position on. */
  function Links(s: string, code: seq<Range>, i: nat): seq<Link>
    requires i <= |s|
    decreases |s| - i
  {
    if i == |s| then []
    else if Covered(code, i) || LinkAt(s, i).None? then Links(s, code, i + 1)
    else [LinkAt(s, i).value.0] + Links(s, code, LinkAt(s, i).value.1)
  }

  function Text(s: string, l: Link): string {
    if l.from <= l.end <= |s| then s[l.from..l.end] else ""
  }

  function Texts(s: string, links: seq<Link>): seq<string> {
    seq(|links|, k requires 0 <= k < |links| => Text(s, links[k]))
  }

  // ---- the algorithms ----

  /** The scan of a bare URL: over URL characters, back over trailing punctuation. */
  method ScanBare(s: string, i: nat) returns (r: Option<nat>)
    requires i < |s|
    ensures r == BareEnd(s, i)
  {
    r := None;
    if HasScheme(s, i) && (i == 0 || !IsWordChar(s[i - 1])) {
      var end := i;
      while end < |s| && IsUrlChar(s[end])
        invariant i <= end <= |s| && UrlRun(s, end) == UrlRun(s, i)
      {
        end := end + 1;
      }
      while end > i && IsTrailing(s[end - 1])
        invariant i <= end <= |s| && Trimmed(s, i, end) == Trimmed(s, i, UrlRun(s, i))
      {
        end := end - 1;
      }
      var rest := TrimPrefix(TrimPrefix(s[i..end], HTTPS), HTTP);
      if rest != "" && rest[0] != '/' { r := Some(end); }
    }
  }

  method ScanLink(s: string, i: nat) returns (r: Option<(Link, nat)>)
    requires i < |s|
    ensures r == LinkAt(s, i)
  {
    var labelled := LabelledEnds(s, i);
    if labelled.Some? {
      r := Some((Link(i + 1, labelled.value.0), labelled.value.1));
    } else {
      var end := ScanBare(s, i);
      r := if end.Some? then Some((Link(i, end.value), end.value)) else None;
    }
  }

  method ExtractURLs(s: string) returns (urls: seq<string>)
    ensures urls == Texts(s, Links(s, Reading(s, 0), 0))
  {
    var code := CodeRanges.CodeRanges(s);
    urls := ScanOutside(s, code);
  }

  /** The scan, skipping code. */
  method ScanOutside(s: string, code: seq<Range>) returns (urls: seq<string>)
    ensures urls == Texts(s, Links(s, code, 0))
  {
    urls := [];
    ghost var done: seq<Link> := [];
    var i := 0;
    while i < |s|
      invariant i <= |s| && urls == Texts(s, done)
      invariant done + Links(s, code, i) == Links(s, code, 0)
      decreases |s| - i
    {
      var inCode := InRanges(code, i);
      var found := None;
      if !inCode { found := ScanLink(s, i); }
      LinksOnce(s, code, i, done);
      if found.None? {
        i := i + 1;
      } else {
        var l := found.value.0;
        TextsMore(s, done, l);
        urls, done, i := urls + [s[l.from..l.end]], done + [l], found.value.1;
      }
    }
    assert done + [] == done;
  }

  /** One turn of the scan. */
  lemma LinksOnce(s: string, code: seq<Range>, i: nat, done: seq<Link>)
    requires i < |s|
    ensures Covered(code, i) || LinkAt(s, i).None? ==> done + Links(s, code, i + 1) == done + Links(s, code, i)
    ensures !Covered(code, i) && LinkAt(s, i).Some? ==>
              done + [LinkAt(s, i).value.0] + Links(s, code, LinkAt(s, i).value.1) == done + Links(s, code, i)
  {
  }

  lemma TextsMore(s: string, links: seq<Link>, l: Link)
    requires l.from <= l.end <= |s|
    ensures Texts(s, links + [l]) == Texts(s, links) + [s[l.from..l.end]]
  {
  }

  /** Candidates: none if there are too many; otherwise each URL once, in order, if it may be previewed. */
  method Candidates(s: string, previewable: string -> bool) returns (out: seq<string>)
    ensures var all := Texts(s, Links(s, Reading(s, 0), 0));
            out == if |all| > MAX_LINKS then [] else Filter(Firsts(all), previewable)
  {
    var all := ExtractURLs(s);
    if |all| > MAX_LINKS { return []; }
    out := FirstPreviewable(all, previewable);
  }

  method FirstPreviewable(all: seq<string>, previewable: string -> bool) returns (out: seq<string>)
    ensures out == Filter(Firsts(all), previewable)
  {
    out := [];
    var seen: set<string> := {};
    for i := 0 to |all|
      invariant out == Filter(Firsts(all[..i]), previewable) && seen == Elements(all[..i])
    {
      NextCandidate(all, i, previewable);
      if all[i] !in seen {
        seen := seen + {all[i]};
        if previewable(all[i]) { out := out + [all[i]]; }
      }
    }
    assert all[..|all|] == all;
  }

  /** What one more URL changes. */
  lemma NextCandidate(all: seq<string>, i: nat, p: string -> bool)
    requires i < |all|
    ensures Elements(all[..i + 1]) == Elements(all[..i]) + {all[i]}
    ensures Filter(Firsts(all[..i + 1]), p)
            == if all[i] in Elements(all[..i]) || !p(all[i]) then Filter(Firsts(all[..i]), p) else Filter(Firsts(all[..i]), p) + [all[i]]
  {
    FirstsMore(all, i);
    assert all[..i + 1] == all[..i] + [all[i]];
    FilterMore(Firsts(all[..i]), all[i], p);
  }

  function Filter(xs: seq<string>, p: string -> bool): seq<string> {
    if xs == [] then []
    else Filter(xs[..|xs| - 1], p) + if p(xs[|xs| - 1]) then [xs[|xs| - 1]] else []
  }

  lemma FilterMore(xs: seq<string>, x: string, p: string -> bool)
    ensures Filter(xs + [x], p) == Filter(xs, p) + if p(x) then [x] else []
  {
    assert (xs + [x])[..|xs|] == xs;
  }

  // ---- what the links are like ----

  /** Links from a position on: one after the other, each with its scheme, no character in code. */
  ghost predicate Sound(s: string, code: seq<Range>, links: seq<Link>, from: nat) {
    && (forall k :: 0 <= k < |links| ==> from <= links[k].from && SchemeIn(s, links[k].from, links[k].end))
    && (forall k :: 0 <= k < |links| ==> OutsideCode(code, links[k]))
    && (forall j, k :: 0 <= j < k < |links| ==> links[j].end <= links[k].from)
  }

  ghost predicate OutsideCode(code: seq<Range>, l: Link) {
    forall i :: l.from <= i < l.end ==> !Covered(code, i)
  }

  /** Where the scan looks after `i`. */
  ghost function Advance(s: string, code: seq<Range>, i: nat): (r: nat)
    requires i < |s|
    ensures i < r <= |s|
  {
    if Covered(code, i) || LinkAt(s, i).None? then i + 1 else LinkAt(s, i).value.1
  }

  lemma {:induction false} LinksAreSound(s: string, i: nat)
    requires i <= |s|
    ensures Sound(s, Reading(s, 0), Links(s, Reading(s, 0), i), i)
    decreases |s| - i
  {
    if i < |s| {
      LinksAreSound(s, Advance(s, Reading(s, 0), i));
      OnceSound(s, i);
    }
  }

  lemma OnceSound(s: string, i: nat)
    requires i < |s|
    requires var next := Advance(s, Reading(s, 0), i); Sound(s, Reading(s, 0), Links(s, Reading(s, 0), next), next)
    ensures Sound(s, Reading(s, 0), Links(s, Reading(s, 0), i), i)
  {
    var code := Reading(s, 0);
    if !Covered(code, i) && LinkAt(s, i).Some? {
      var found := LinkAt(s, i).value;
      InsideOrOutside(s, i, found.0.end);
      SoundMore(s, code, found.0, Links(s, code, found.1), i, found.1);
    }
  }

  lemma SoundMore(s: string, code: seq<Range>, l: Link, rest: seq<Link>, from: nat, next: nat)
    requires from <= l.from && l.end <= next && SchemeIn(s, l.from, l.end) && OutsideCode(code, l)
    requires Sound(s, code, rest, next)
    ensures Sound(s, code, [l] + rest, from)
  {
  }

  /** Every extracted URL begins with http:// or https:// and goes on after it, and lies outside code; the URLs are disjoint and in
      order of appearance. */
  lemma ExtractedLinks(s: string, k: nat)
    requires k < |Links(s, Reading(s, 0), 0)|
    ensures var links := Links(s, Reading(s, 0), 0);
            && links[k].from < links[k].end <= |s|
            && (k > 0 ==> links[k - 1].end <= links[k].from)
            && (forall i :: links[k].from <= i < links[k].end ==> !Covered(Reading(s, 0), i))
            && SchemeIn(Texts(s, links)[k], 0, |Texts(s, links)[k]|)
  {
    LinksAreSound(s, 0);
    var l := Links(s, Reading(s, 0), 0)[k];
    assert OutsideCode(Reading(s, 0), l);
    var scheme := if HasPrefix(s, l.from, HTTPS) && l.from + |HTTPS| < l.end then HTTPS else HTTP;
    assert Text(s, l)[0..|scheme|] == s[l.from..l.from + |scheme|];
  }

  /** The candidates are different links of the message that may be previewed, and all of them, in the order they first appear. */
  lemma CandidatesMean(all: seq<string>, p: string -> bool, u: string)
    ensures var out := Filter(Firsts(all), p);
            && Distinct(out) && (u in out <==> u in all && p(u))
            && forall i, j :: 0 <= i < j < |out| ==> Precedes(all, out[i], out[j])
  {
    FirstsKeepOrder(all);
    FilterMeans(Firsts(all), p, u);
    assert u in Firsts(all) <==> u in Elements(Firsts(all));
    assert u in all <==> u in Elements(all);
    forall i, j | 0 <= i < j < |Filter(Firsts(all), p)| ensures Precedes(all, Filter(Firsts(all), p)[i], Filter(Firsts(all), p)[j]) {
      var a, b := FilterKeepsOrder(Firsts(all), p, i, j);
    }
  }

  /** Where one and another of the kept come from. */
  lemma {:induction false} FilterKeepsOrder(xs: seq<string>, p: string -> bool, i: nat, j: nat) returns (a: nat, b: nat)
    requires i < j < |Filter(xs, p)|
    ensures a < b < |xs| && xs[a] == Filter(xs, p)[i] && xs[b] == Filter(xs, p)[j]
  {
    var n := |xs| - 1;
    var front := Filter(xs[..n], p);
    if j < |front| {
      a, b := FilterKeepsOrder(xs[..n], p, i, j);
    } else {
      a := FilterIsFrom(xs[..n], p, i);
      b := n;
    }
  }

  lemma {:induction false} FilterIsFrom(xs: seq<string>, p: string -> bool, i: nat) returns (a: nat)
    requires i < |Filter(xs, p)|
    ensures a < |xs| && xs[a] == Filter(xs, p)[i]
  {
    var n := |xs| - 1;
    if i < |Filter(xs[..n], p)| { a := FilterIsFrom(xs[..n], p, i); } else { a := n; }
  }

  lemma {:induction false} FilterMeans(xs: seq<string>, p: string -> bool, u: string)
    requires Distinct(xs)
    ensures Distinct(Filter(xs, p))
    ensures Elements(Filter(xs, p)) <= Elements(xs)
    ensures u in Filter(xs, p) <==> u in xs && p(u)
  {
    if xs != [] {
      var n := |xs| - 1;
      FilterMeans(xs[..n], p, u);
      assert xs[n] !in Elements(xs[..n]) && xs == xs[..n] + [xs[n]];
      assert Elements(xs) == Elements(xs[..n]) + {xs[n]};
      assert u in Filter(xs[..n], p) <==> u in Elements(Filter(xs[..n], p));
      if p(xs[n]) { DistinctMore(Filter(xs[..n], p), xs[n]); }
    }
  }

  // ---- no link is missed ----

  /** A link found at `j` whose scan goes on beyond `at`. */
  ghost predicate FoundAround(s: string, code: seq<Range>, links: seq<Link>, j: nat, at: nat) {
    && j <= at < |s| && !Covered(code, j) && LinkAt(s, j).Some?
    && at < LinkAt(s, j).value.1 && LinkAt(s, j).value.0 in links
  }

  /** Among the links found from `i` on is one whose scan goes on beyond `at`. */
  ghost predicate FoundFrom(s: string, code: seq<Range>, i: nat, at: nat)
    requires i <= |s|
  {
    exists j :: i <= j && FoundAround(s, code, Links(s, code, i), j, at)
  }

  /** A link that begins outside code is found, unless the position lies inside a link found before. */
  lemma {:induction false} NoLinkMissed(s: string, code: seq<Range>, i: nat, at: nat)
    requires i <= at < |s| && !Covered(code, at) && LinkAt(s, at).Some?
    ensures FoundFrom(s, code, i, at)
    decreases |s| - i
  {
    if at < Advance(s, code, i) {
      FoundHere(s, code, i, at);
    } else {
      NoLinkMissed(s, code, Advance(s, code, i), at);
      FoundLater(s, code, i, at);
    }
  }

  lemma FoundHere(s: string, code: seq<Range>, i: nat, at: nat)
    requires i <= at < |s| && at < Advance(s, code, i) && !Covered(code, at) && LinkAt(s, at).Some?
    ensures FoundFrom(s, code, i, at)
  {
    assert Links(s, code, i)[0] == LinkAt(s, i).value.0;
    assert FoundAround(s, code, Links(s, code, i), i, at);
  }

  lemma FoundLater(s: string, code: seq<Range>, i: nat, at: nat)
    requires i < |s| && FoundFrom(s, code, Advance(s, code, i), at)
    ensures FoundFrom(s, code, i, at)
  {
    var next := Advance(s, code, i);
    var j :| next <= j && FoundAround(s, code, Links(s, code, next), j, at);
    assert forall l :: l in Links(s, code, next) ==> l in Links(s, code, i);
    assert FoundAround(s, code, Links(s, code, i), j, at);
  }

  /** A bare link is the longest stretch of URL characters that does not end in trailing punctuation. */
  lemma BareIsLongest(s: string, i: nat, e: nat)
    requires i < |s| && BareEnd(s, i).Some?
    ensures var end := BareEnd(s, i).value;
            && i < end <= |s| && (forall k :: i <= k < end ==> IsUrlChar(s[k])) && !IsTrailing(s[end - 1])
            && (end < e <= |s| && (forall k :: i <= k < e ==> IsUrlChar(s[k])) ==> IsTrailing(s[e - 1]))
  {
    assert BareEnd(s, i).value == Trimmed(s, i, UrlRun(s, i));
    TrimmedIsLongest(s, i, e);
  }

  lemma TrimmedIsLongest(s: string, i: nat, e: nat)
    requires i <= |s|
    ensures var end := Trimmed(s, i, UrlRun(s, i));
            end < e <= |s| && (forall k :: i <= k < e ==> IsUrlChar(s[k])) ==> IsTrailing(s[e - 1])
  {
    if i <= e <= |s| && forall k :: i <= k < e ==> IsUrlChar(s[k]) { RunIsLongest(s, i, e); }
  }

  lemma {:induction false} RunIsLongest(s: string, i: nat, e: nat)
    requires i <= e <= |s| && forall k :: i <= k < e ==> IsUrlChar(s[k])
    ensures e <= UrlRun(s, i)
    decreases e - i
  {
    if i < e { RunIsLongest(s, i + 1, e); }
  }
}
