/** Which texts are links: stated on strings, for every message. */
module LinkTexts {
  import opened Common
  import opened CodeRanges
  import opened Urls

  predicate StartsWith(u: string, prefix: string) {
    |prefix| <= |u| && u[..|prefix|] == prefix
  }

  const BOTH := "https://http://"

  /** After the scheme something goes on that is not a slash. After "https://" another "http://" counts as scheme too. */
  predicate GoesOn(u: string) {
    if StartsWith(u, BOTH) then |u| > 15 && u[15] != '/'
    else if StartsWith(u, HTTPS) then |u| > 8 && u[8] != '/'
    else StartsWith(u, HTTP) && |u| > 7 && u[7] != '/'
  }

  /** Characters of a URL only, the last one no punctuation. */
  ghost predicate Solid(u: string) {
    u != "" && (forall k :: 0 <= k < |u| ==> IsUrlChar(u[k])) && !IsTrailing(u[|u| - 1])
  }

  lemma TrailingIsUrlChar(c: char)
    requires IsTrailing(c)
    ensures IsUrlChar(c)
  {
  }

  // ---- the bare URL in its place ----

  /** The stretch of URL characters from a position on is `n` long. */
  lemma {:induction false} RunLength(s: string, i: nat, n: nat)
    requires i + n <= |s| && (forall k :: i <= k < i + n ==> IsUrlChar(s[k])) && (i + n < |s| ==> !IsUrlChar(s[i + n]))
    ensures UrlRun(s, i) == i + n
    decreases n
  {
    if n > 0 { RunLength(s, i + 1, n - 1); }
  }

  lemma {:induction false} TrimLength(s: string, i: nat, e: nat, end: nat)
    requires i < e <= end <= |s| && !IsTrailing(s[e - 1]) && forall k :: e <= k < end ==> IsTrailing(s[k])
    ensures Trimmed(s, i, end) == e
    decreases end - e
  {
    if e < end { TrimLength(s, i, e, end - 1); }
  }

  /** The characters of `u` stand in the message from a position on. */
  ghost predicate Stands(s: string, i: nat, u: string) {
    i + |u| <= |s| && s[i..i + |u|] == u
  }

  lemma PrefixThere(s: string, i: nat, u: string, prefix: string)
    requires Stands(s, i, u) && |prefix| <= |u|
    ensures HasPrefix(s, i, prefix) <==> StartsWith(u, prefix)
  {
    assert s[i..i + |prefix|] == u[..|prefix|];
  }

  lemma TwoSchemes(u: string)
    requires StartsWith(u, HTTPS)
    ensures StartsWith(u, BOTH) <==> StartsWith(u[8..], HTTP)
  {
    if |u| >= 15 {
      var a, b := u[..8], u[8..][..7];
      assert u[..15] == a + b && (a + b)[8..] == b && (HTTPS + HTTP)[8..] == HTTP;
    }
  }

  lemma AfterPrefix(u: string, prefix: string)
    ensures TrimPrefix(u, prefix) == if StartsWith(u, prefix) then u[|prefix|..] else u
  {
    if |prefix| <= |u| { assert u[0..|prefix|] == u[..|prefix|]; }
  }

  /** Go's two TrimPrefix calls leave something that does not begin with a slash. */
  lemma RestOf(u: string)
    requires StartsWith(u, HTTPS) || StartsWith(u, HTTP)
    ensures var rest := TrimPrefix(TrimPrefix(u, HTTPS), HTTP); (rest != "" && rest[0] != '/') <==> GoesOn(u)
  {
    AfterPrefix(u, HTTPS);
    AfterPrefix(TrimPrefix(u, HTTPS), HTTP);
    if StartsWith(u, HTTPS) {
      TwoSchemes(u);
    } else {
      NotBoth(u);
    }
  }

  lemma NotBoth(u: string)
    ensures StartsWith(u, BOTH) ==> StartsWith(u, HTTPS)
  {
    if |u| >= 15 { assert u[..15][..8] == u[..8] && BOTH[..8] == HTTPS; }
  }

  /** A URL stands at the position, followed by `n` characters of punctuation and then no more URL characters. */
  ghost predicate UrlStands(s: string, i: nat, u: string, n: nat) {
    var end := i + |u| + n;
    && Stands(s, i, u) && Solid(u) && (StartsWith(u, HTTPS) || StartsWith(u, HTTP))
    && end <= |s| && (forall k :: i + |u| <= k < end ==> IsTrailing(s[k])) && (end < |s| ==> !IsUrlChar(s[end]))
  }

  lemma CharThere(s: string, i: nat, u: string, k: nat)
    requires Stands(s, i, u) && i <= k < i + |u|
    ensures s[k] == u[k - i]
  {
    assert s[k] == s[i..i + |u|][k - i];
  }

  /** The scan goes over URL characters and punctuation and comes back over the punctuation. */
  lemma ScanEnds(s: string, i: nat, m: nat, n: nat)
    requires m > 0 && i + m + n <= |s| && (i + m + n < |s| ==> !IsUrlChar(s[i + m + n]))
    requires forall k :: i <= k < i + m ==> IsUrlChar(s[k])
    requires !IsTrailing(s[i + m - 1]) && forall k :: i + m <= k < i + m + n ==> IsTrailing(s[k])
    ensures Trimmed(s, i, UrlRun(s, i)) == i + m
  {
    forall k | i + m <= k < i + m + n ensures IsUrlChar(s[k]) { TrailingIsUrlChar(s[k]); }
    RunLength(s, i, m + n);
    TrimLength(s, i, i + m, i + m + n);
  }

  lemma SolidThere(s: string, i: nat, u: string)
    requires Stands(s, i, u) && Solid(u)
    ensures (forall k :: i <= k < i + |u| ==> IsUrlChar(s[k])) && !IsTrailing(s[i + |u| - 1])
  {
    forall k | i <= k < i + |u| ensures IsUrlChar(s[k]) { CharThere(s, i, u, k); }
    CharThere(s, i, u, i + |u| - 1);
  }

  lemma EndsThere(s: string, i: nat, u: string, n: nat)
    requires UrlStands(s, i, u, n)
    ensures i < |s| && Trimmed(s, i, UrlRun(s, i)) == i + |u|
  {
    SolidThere(s, i, u);
    ScanEnds(s, i, |u|, n);
  }

  lemma SchemeThere(s: string, i: nat, u: string)
    requires Stands(s, i, u) && (StartsWith(u, HTTPS) || StartsWith(u, HTTP))
    ensures HasScheme(s, i)
  {
    if StartsWith(u, HTTPS) { PrefixThere(s, i, u, HTTPS); } else { PrefixThere(s, i, u, HTTP); }
  }

  /** What the scan makes of it. */
  lemma FoundThere(s: string, i: nat, u: string, n: nat)
    requires UrlStands(s, i, u, n) && (i == 0 || !IsWordChar(s[i - 1]))
    ensures i < |s| && LinkAt(s, i) == if GoesOn(u) then Some((Link(i, i + |u|), i + |u|)) else None
  {
    EndsThere(s, i, u, n);
    SchemeThere(s, i, u);
    BareThere(s, i, u);
    RestOf(u);
    NotLabelled(s, i);
  }

  lemma NotLabelled(s: string, i: nat)
    requires i < |s| && HasScheme(s, i)
    ensures LabelledEnds(s, i).None?
  {
    if HasPrefix(s, i, HTTPS) { CharThere(s, i, HTTPS, i); } else { CharThere(s, i, HTTP, i); }
  }

  lemma BareThere(s: string, i: nat, u: string)
    requires Stands(s, i, u) && i < |s| && HasScheme(s, i) && (i == 0 || !IsWordChar(s[i - 1]))
    requires Trimmed(s, i, UrlRun(s, i)) == i + |u|
    ensures var rest := TrimPrefix(TrimPrefix(u, HTTPS), HTTP);
            BareEnd(s, i) == if rest != "" && rest[0] != '/' then Some(i + |u|) else None
  {
    var end := Trimmed(s, i, UrlRun(s, i));
    assert s[i..end] == u;
  }

  // ---- messages that are just one link ----

  lemma CodeHasBackticks(s: string)
    ensures Reading(s, 0) != [] ==> '`' in s
  {
    ReadingIsProper(s, 0);
    if Reading(s, 0) != [] { assert s[Reading(s, 0)[0].0] == '`'; }
  }

  lemma JustOne(s: string, links: seq<Link>)
    ensures Texts(s, links) == [s] ==> |links| == 1 && Text(s, links[0]) == s
  {
    if |links| > 0 { assert Texts(s, links)[0] == Text(s, links[0]); }
  }

  /** A message of URL characters that begins with a scheme and does not end in punctuation yields itself, and nothing else, exactly if
      something goes on after its scheme. */
  lemma AddressYieldsItself(u: string)
    requires Solid(u) && (StartsWith(u, HTTPS) || StartsWith(u, HTTP))
    ensures Texts(u, Links(u, Reading(u, 0), 0)) == [u] <==> GoesOn(u)
  {
    CodeHasBackticks(u);
    FoundThere(u, 0, u, 0);
    if GoesOn(u) {
      assert Links(u, [], 0) == [Link(0, |u|)] + Links(u, [], |u|);
    } else {
      LinksAreSound(u, 1);
      var links := Links(u, [], 1);
      assert Links(u, [], 0) == links;
      JustOne(u, links);
    }
  }

  // ---- labelled links ----

  ghost predicate TargetFrom(u: string, from: nat) {
    forall k :: from <= k < |u| ==> IsLabelledUrlChar(u[k])
  }

  /** A scheme and more, without a character that ends the URL of a labelled link. */
  ghost predicate IsTarget(u: string) {
    || (StartsWith(u, HTTPS) && |u| > 8 && TargetFrom(u, 8))
    || (StartsWith(u, HTTP) && |u| > 7 && TargetFrom(u, 7))
  }

  ghost predicate IsLabel(caption: string) {
    caption != "" && forall k :: 0 <= k < |caption| ==> IsLabelChar(caption[k])
  }

  function Labelled(u: string, caption: string): string {
    "<" + u + "|" + caption + ">"
  }

  lemma {:induction false} TargetLength(s: string, i: nat, n: nat)
    requires i + n < |s| && (forall k :: i <= k < i + n ==> IsLabelledUrlChar(s[k])) && !IsLabelledUrlChar(s[i + n])
    ensures LabelledRun(s, i) == i + n
    decreases n
  {
    if n > 0 { TargetLength(s, i + 1, n - 1); }
  }

  lemma {:induction false} LabelLength(s: string, i: nat, n: nat)
    requires i + n < |s| && (forall k :: i <= k < i + n ==> IsLabelChar(s[k])) && !IsLabelChar(s[i + n])
    ensures LabelRun(s, i) == i + n
    decreases n
  {
    if n > 0 { LabelLength(s, i + 1, n - 1); }
  }

  lemma PartThere(s: string, i: nat, w: string, a: nat, part: string)
    requires Stands(s, i, w) && a + |part| <= |w| && w[a..a + |part|] == part
    ensures Stands(s, i + a, part)
  {
    var from := i + a;
    forall k | 0 <= k < |part| ensures s[from..from + |part|][k] == part[k] {
      CharThere(s, i, w, from + k);
      assert part[k] == w[a..a + |part|][k];
    }
  }

  /** The five pieces of a labelled link in their places. */
  lemma Pieces(s: string, i: nat, u: string, caption: string)
    requires Stands(s, i, Labelled(u, caption))
    ensures var bar := i + 1 + |u|;
            && bar + |caption| + 2 <= |s| && s[i] == '<' && Stands(s, i + 1, u) && s[bar] == '|'
            && Stands(s, bar + 1, caption) && s[bar + 1 + |caption|] == '>'
  {
    var w, bar := Labelled(u, caption), i + 1 + |u|;
    CharThere(s, i, w, i);
    CharThere(s, i, w, bar);
    CharThere(s, i, w, bar + 1 + |caption|);
    PartThere(s, i, w, 1, u);
    PartThere(s, i, w, 2 + |u|, caption);
  }

  lemma TargetThere(s: string, i: nat, u: string, m: nat)
    requires Stands(s, i, u) && m <= |u| && i + |u| < |s| && !IsLabelledUrlChar(s[i + |u|])
    requires TargetFrom(u, m)
    ensures LabelledRun(s, i + m) == i + |u|
  {
    forall k | i + m <= k < i + |u| ensures IsLabelledUrlChar(s[k]) { CharThere(s, i, u, k); }
    TargetLength(s, i + m, |u| - m);
  }

  lemma LabelThere(s: string, i: nat, caption: string)
    requires Stands(s, i, caption) && IsLabel(caption) && i + |caption| < |s| && s[i + |caption|] == '>'
    ensures LabelRun(s, i) == i + |caption|
  {
    forall k | i <= k < i + |caption| ensures IsLabelChar(s[k]) { CharThere(s, i, caption, k); }
    LabelLength(s, i, |caption|);
  }

  lemma SchemeStart(s: string, i: nat, u: string)
    requires Stands(s, i, u) && IsTarget(u)
    ensures HasScheme(s, i) && (HasPrefix(s, i, HTTPS) <==> StartsWith(u, HTTPS))
    ensures StartsWith(u, HTTPS) ==> |u| > 8 && TargetFrom(u, 8)
  {
    PrefixThere(s, i, u, HTTP);
    if |u| > 8 {
      PrefixThere(s, i, u, HTTPS);
    } else {
      SevenOnly(u);
      assert |u| == 8 && s[i..i + |u|] == u;
    }
  }

  lemma SevenOnly(u: string)
    requires |u| <= 8 && IsTarget(u)
    ensures |u| == 8 && !StartsWith(u, HTTPS)
  {
    PrefixChar(u, HTTP, 4);
    PrefixChar(u, HTTPS, 4);
  }

  lemma PrefixChar(u: string, prefix: string, k: nat)
    requires k < |prefix|
    ensures StartsWith(u, prefix) ==> u[k] == prefix[k]
  {
    if StartsWith(u, prefix) { assert u[..|prefix|][k] == u[k]; }
  }

  lemma LabelledThere(s: string, i: nat, u: string, caption: string)
    requires Stands(s, i, Labelled(u, caption)) && IsTarget(u) && IsLabel(caption)
    ensures i < |s| && s[i] == '<' && LabelledEnds(s, i) == Some((i + 1 + |u|, i + |Labelled(u, caption)|))
    ensures Stands(s, i + 1, u)
  {
    Pieces(s, i, u, caption);
    EndsFound(s, i, u, caption);
  }

  lemma EndsFound(s: string, i: nat, u: string, caption: string)
    requires IsTarget(u) && IsLabel(caption) && i + |u| + |caption| + 3 <= |s| && s[i] == '<' && Stands(s, i + 1, u)
    requires s[i + 1 + |u|] == '|' && Stands(s, i + 2 + |u|, caption) && s[i + 2 + |u| + |caption|] == '>'
    ensures LabelledEnds(s, i) == Some((i + 1 + |u|, i + 3 + |u| + |caption|))
  {
    var n := if StartsWith(u, HTTPS) then 8 else 7;
    SchemeStart(s, i + 1, u);
    TargetThere(s, i + 1, u, n);
    LabelThere(s, i + 2 + |u|, caption);
    EndsFrom(s, i, i + 1 + n, i + 1 + |u|, i + 2 + |u| + |caption|);
  }

  lemma EndsFrom(s: string, i: nat, start: nat, bar: nat, closing: nat)
    requires start < bar && bar + 1 < closing < |s| && i < |s| && s[i] == '<' && s[bar] == '|' && s[closing] == '>'
    requires HasScheme(s, i + 1) && start == i + 1 + if HasPrefix(s, i + 1, HTTPS) then 8 else 7
    requires LabelledRun(s, start) == bar && LabelRun(s, bar + 1) == closing
    ensures LabelledEnds(s, i) == Some((bar, closing + 1))
  {
  }

  /** A message that is just one labelled link yields its URL, and nothing else. */
  lemma LabelledYieldsItsUrl(u: string, caption: string)
    requires IsTarget(u) && IsLabel(caption)
    ensures var s := Labelled(u, caption); Texts(s, Links(s, Reading(s, 0), 0)) == [u]
  {
    var s := Labelled(u, caption);
    assert s[0..|s|] == s;
    CleanParts(u, caption);
    CodeHasBackticks(s);
    LabelledThere(s, 0, u, caption);
    assert Links(s, [], 0) == [Link(1, 1 + |u|)] + Links(s, [], |s|);
    assert Text(s, Link(1, 1 + |u|)) == u;
  }

  lemma CleanParts(u: string, caption: string)
    requires IsTarget(u) && IsLabel(caption)
    ensures '`' !in Labelled(u, caption)
  {
    forall k | 0 <= k < |u| ensures u[k] != '`' {
      if k < |HTTPS| { PrefixChar(u, HTTPS, k); }
      if k < |HTTP| { PrefixChar(u, HTTP, k); }
    }
  }

  // ---- links inside a message ----

  /** No angle bracket is left open before the position, and no scheme is joined to it by URL characters. */
  ghost predicate Separate(s: string, i: nat)
    requires i <= |s|
  {
    && (forall j :: 0 <= j < i && s[j] == '<' ==> exists k :: j < k < i && (s[k] == '<' || s[k] == '>'))
    && (forall j :: 0 <= j < i && HasScheme(s, j) ==> exists k :: j <= k < i && !IsUrlChar(s[k]))
  }

  /** Between its ends a labelled link has no angle bracket. */
  lemma LabelledIsClean(s: string, j: nat, k: nat)
    requires j < |s| && LabelledEnds(s, j).Some? && j < k < LabelledEnds(s, j).value.1 - 1
    ensures k < |s| && s[k] != '<' && s[k] != '>'
  {
    var start := j + 1 + if HasPrefix(s, j + 1, HTTPS) then |HTTPS| else |HTTP|;
    if k < start { assert s[k] == s[j + 1..start][k - j - 1]; }
  }

  /** No link that begins before the position reaches over it. */
  ghost predicate NoneAcross(s: string, i: nat)
    requires i <= |s|
  {
    forall j: nat :: j < i && LinkAt(s, j).Some? ==> LinkAt(s, j).value.1 <= i
  }

  lemma Extracted(s: string, i: nat)
    requires i < |s| && LinkAt(s, i).Some? && !Covered(Reading(s, 0), i) && NoneAcross(s, i)
    ensures LinkAt(s, i).value.0 in Links(s, Reading(s, 0), 0)
  {
    var code := Reading(s, 0);
    NoLinkMissed(s, code, 0, i);
    var j :| 0 <= j && FoundAround(s, code, Links(s, code, 0), j, i);
    assert j == i;
  }

  lemma NotAcross(s: string, j: nat, i: nat)
    requires j < i < |s| && LinkAt(s, j).Some? && (s[i] == '<' || Separate(s, i))
    ensures LinkAt(s, j).value.1 <= i
  {
    if LabelledEnds(s, j).Some? {
      forall k | j < k < LabelledEnds(s, j).value.1 - 1 ensures s[k] != '<' && s[k] != '>' { LabelledIsClean(s, j, k); }
    } else {
      assert HasScheme(s, j) && BareEnd(s, j).Some?;
    }
  }

  lemma SeparateIsClear(s: string, i: nat)
    requires i < |s| && (s[i] == '<' || Separate(s, i))
    ensures NoneAcross(s, i)
  {
    forall j: nat | j < i && LinkAt(s, j).Some? ensures LinkAt(s, j).value.1 <= i { NotAcross(s, j, i); }
  }

  lemma BracketIsClear(s: string, i: nat)
    requires i < |s| && s[i] == '<'
    ensures NoneAcross(s, i)
  {
    SeparateIsClear(s, i);
  }

  lemma BracketExtracts(s: string, i: nat)
    requires i < |s| && s[i] == '<' && LabelledEnds(s, i).Some? && !Covered(Reading(s, 0), i)
    ensures Link(i + 1, LabelledEnds(s, i).value.0) in Links(s, Reading(s, 0), 0)
  {
    BracketIsClear(s, i);
    assert LinkAt(s, i).Some? && LinkAt(s, i).value.0 == Link(i + 1, LabelledEnds(s, i).value.0);
    Extracted(s, i);
  }

  lemma TextThere(s: string, i: nat, u: string)
    requires Stands(s, i, u)
    ensures Text(s, Link(i, i + |u|)) == u
  {
  }

  /** Outside code a URL after a character that is no letter or digit is extracted as it stands, up to punctuation and the next
      character that cannot be part of it. */
  lemma UrlInText(s: string, i: nat, u: string, n: nat)
    requires UrlStands(s, i, u, n) && GoesOn(u) && (i == 0 || !IsWordChar(s[i - 1]))
    requires Separate(s, i) && !Covered(Reading(s, 0), i)
    ensures Link(i, i + |u|) in Links(s, Reading(s, 0), 0) && Text(s, Link(i, i + |u|)) == u
  {
    FoundThere(s, i, u, n);
    SeparateIsClear(s, i);
    Extracted(s, i);
  }

  /** Outside code the URL of a labelled link is extracted, wherever the link stands. */
  lemma LabelledInText(s: string, i: nat, u: string, caption: string)
    requires Stands(s, i, Labelled(u, caption)) && IsTarget(u) && IsLabel(caption) && !Covered(Reading(s, 0), i)
    ensures Link(i + 1, i + 1 + |u|) in Links(s, Reading(s, 0), 0) && Text(s, Link(i + 1, i + 1 + |u|)) == u
  {
    LabelledThere(s, i, u, caption);
    BracketExtracts(s, i);
    TextThere(s, i + 1, u);
  }

  // ---- and nothing else is a link ----

  /** How the URL of a link stands in the message: bare, or labelled. */
  ghost predicate StandsBare(s: string, i: nat, u: string) {
    (exists n :: UrlStands(s, i, u, n)) && GoesOn(u) && (i == 0 || !IsWordChar(s[i - 1]))
  }

  ghost predicate StandsLabelled(s: string, i: nat, u: string) {
    i > 0 && IsTarget(u) && exists caption :: IsLabel(caption) && Stands(s, i - 1, Labelled(u, caption))
  }

  /** The scheme is within the URL. */
  lemma SchemeOf(s: string, i: nat, end: nat, scheme: string)
    requires i + |scheme| <= end <= |s|
    ensures StartsWith(s[i..end], scheme) <==> HasPrefix(s, i, scheme)
  {
    assert s[i..end][..|scheme|] == s[i..i + |scheme|];
  }

  lemma SchemeWithin(s: string, i: nat, end: nat)
    requires SchemeIn(s, i, end)
    ensures var u := s[i..end]; |u| > 7 && (StartsWith(u, HTTPS) || StartsWith(u, HTTP)) && (StartsWith(u, HTTPS) <==> HasPrefix(s, i, HTTPS))
  {
    SchemeOf(s, i, end, HTTP);
    if i + 8 <= end {
      SchemeOf(s, i, end, HTTPS);
    } else {
      Fourth(s, i);
    }
  }

  /** No text has both schemes. */
  lemma Fourth(s: string, i: nat)
    ensures HasPrefix(s, i, HTTPS) ==> s[i + 4] == 's'
    ensures HasPrefix(s, i, HTTP) ==> s[i + 4] == ':'
  {
    if HasPrefix(s, i, HTTPS) { assert s[i..i + |HTTPS|][4] == s[i + 4]; }
    if HasPrefix(s, i, HTTP) { assert s[i..i + |HTTP|][4] == s[i + 4]; }
  }

  lemma BareMeans(s: string, i: nat)
    requires i < |s| && BareEnd(s, i).Some?
    ensures StandsBare(s, i, s[i..BareEnd(s, i).value])
  {
    var end, run := BareEnd(s, i).value, UrlRun(s, i);
    var u := s[i..end];
    BareIsLongest(s, i, end);
    SchemeWithin(s, i, end);
    RestOf(u);
    assert Solid(u) by {
      forall k | 0 <= k < |u| ensures IsUrlChar(u[k]) { assert u[k] == s[i + k]; }
      assert u[|u| - 1] == s[end - 1];
    }
    assert UrlStands(s, i, u, run - end);
  }

  lemma LabelledMeans(s: string, i: nat)
    requires i < |s| && LabelledEnds(s, i).Some?
    ensures StandsLabelled(s, i + 1, s[i + 1..LabelledEnds(s, i).value.0])
  {
    var bar, end := LabelledEnds(s, i).value.0, LabelledEnds(s, i).value.1;
    var start := i + 1 + if HasPrefix(s, i + 1, HTTPS) then |HTTPS| else |HTTP|;
    var u, caption := s[i + 1..bar], s[bar + 1..end - 1];
    SchemeWithin(s, i + 1, bar);
    assert TargetFrom(u, start - i - 1) by {
      forall k | start - i - 1 <= k < |u| ensures IsLabelledUrlChar(u[k]) { assert u[k] == s[i + 1 + k]; }
    }
    assert IsLabel(caption) by {
      forall k | 0 <= k < |caption| ensures IsLabelChar(caption[k]) { assert caption[k] == s[bar + 1 + k]; }
    }
    Assembled(s, i, bar, end);
  }

  lemma Assembled(s: string, i: nat, bar: nat, end: nat)
    requires i < bar < end - 1 < |s| && s[i] == '<' && s[bar] == '|' && s[end - 1] == '>'
    ensures Stands(s, i, Labelled(s[i + 1..bar], s[bar + 1..end - 1]))
  {
    var w := Labelled(s[i + 1..bar], s[bar + 1..end - 1]);
    assert |w| == end - i;
    assert s[i..end] == [s[i]] + s[i + 1..bar] + [s[bar]] + s[bar + 1..end - 1] + [s[end - 1]];
  }

  ghost predicate Placed(s: string, l: Link) {
    l.from <= l.end <= |s| && (StandsBare(s, l.from, Text(s, l)) || StandsLabelled(s, l.from, Text(s, l)))
  }

  lemma FoundIsPlaced(s: string, i: nat)
    requires i < |s| && LinkAt(s, i).Some?
    ensures Placed(s, LinkAt(s, i).value.0)
  {
    if LabelledEnds(s, i).Some? { LabelledMeans(s, i); } else { BareMeans(s, i); }
  }

  /** Where the scan found it. */
  lemma {:induction false} FoundBy(s: string, code: seq<Range>, i: nat, l: Link) returns (j: nat)
    requires i <= |s| && l in Links(s, code, i)
    ensures j < |s| && LinkAt(s, j).Some? && LinkAt(s, j).value.0 == l && !Covered(code, j)
    decreases |s| - i
  {
    if Covered(code, i) || LinkAt(s, i).None? {
      j := FoundBy(s, code, i + 1, l);
    } else if l == LinkAt(s, i).value.0 {
      j := i;
    } else {
      j := FoundBy(s, code, LinkAt(s, i).value.1, l);
    }
  }

  /** Every extracted URL stands in the message in one of the two ways. */
  lemma OnlyTheseAreLinks(s: string, l: Link)
    requires l in Links(s, Reading(s, 0), 0)
    ensures l.from <= l.end <= |s| && (StandsBare(s, l.from, Text(s, l)) || StandsLabelled(s, l.from, Text(s, l)))
  {
    var j := FoundBy(s, Reading(s, 0), 0, l);
    FoundIsPlaced(s, j);
  }
}
