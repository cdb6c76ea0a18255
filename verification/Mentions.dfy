/** Mentions in a message: tokens outside code, each target once, in the order they first appear. */
module Mentions {
  import opened Common
  import opened CodeRanges

  datatype Kind = Everyone | Here

  datatype Mention = User(id: Ulid) | All(kind: Kind)

  /** A token the pattern found; a user token whose id does not read is no mention. */
  datatype Token = Token(from: nat, end: nat, target: Option<Mention>)

  const CHANNEL := "<!channel>"
  const HERE := "<!here>"

  predicate IsAlphanumeric(c: char) {
    '0' <= c <= '9' || 'A' <= c <= 'Z' || 'a' <= c <= 'z'
  }

  predicate StartsWith(s: string, i: nat, prefix: string) {
    i + |prefix| <= |s| && s[i..i + |prefix|] == prefix
  }

  predicate IsUserToken(s: string, i: nat) {
    && i + 29 <= |s| && s[i] == '<' && s[i + 1] == '@' && s[i + 28] == '>'
    && forall k :: i + 2 <= k < i + 28 ==> IsAlphanumeric(s[k])
  }

  /** The token that begins at a position. `read` parses an id, strictly. */
  function TokenAt(s: string, i: nat, read: string -> Option<Ulid>): (t: Option<Token>)
    requires i < |s|
    ensures t.Some? ==> t.value.from == i < t.value.end <= |s| && s[i] == '<'
  {
    if IsUserToken(s, i) then
      var id := read(s[i + 2..i + 28]);
      Some(Token(i, i + 29, if id.Some? then Some(User(id.value)) else None))
    else if StartsWith(s, i, CHANNEL) then Some(Token(i, i + |CHANNEL|, Some(All(Everyone))))
    else if StartsWith(s, i, HERE) then Some(Token(i, i + |HERE|, Some(All(Here))))
    else None
  }

  /** All matches of the pattern from a position on, as a scan finds them: the leftmost first, none overlapping another. */
  function Tokens(s: string, i: nat, read: string -> Option<Ulid>): seq<Token>
    requires i <= |s|
    decreases |s| - i
  {
    if i == |s| then []
    else if TokenAt(s, i, read).None? then Tokens(s, i + 1, read)
    else [TokenAt(s, i, read).value] + Tokens(s, TokenAt(s, i, read).value.end, read)
  }

  /** Tokens contain no backtick, and no angle bracket opens inside one. */
  lemma TokenIsClean(s: string, i: nat, read: string -> Option<Ulid>)
    requires i < |s| && TokenAt(s, i, read).Some?
    ensures forall k :: i < k < TokenAt(s, i, read).value.end ==> s[k] != '<' && s[k] != '`'
  {
    var end := TokenAt(s, i, read).value.end;
    forall k | i < k < end ensures s[k] != '<' && s[k] != '`' {
      if !IsUserToken(s, i) { assert s[k] == s[i..end][k - i]; }
    }
  }

  /** The scan misses no match, since matches cannot overlap. */
  lemma {:induction false} EveryToken(s: string, i: nat, read: string -> Option<Ulid>, t: Token)
    requires i <= |s|
    ensures t in Tokens(s, i, read) <==> i <= t.from < |s| && TokenAt(s, t.from, read) == Some(t)
    decreases |s| - i
  {
    if i < |s| {
      if TokenAt(s, i, read).None? {
        EveryToken(s, i + 1, read, t);
      } else {
        EveryToken(s, TokenAt(s, i, read).value.end, read, t);
        TokenIsClean(s, i, read);
      }
    }
  }

  predicate Counts(code: seq<Range>, t: Token) {
    !Covered(code, t.from) && t.target.Some?
  }

  /** What the tokens outside code name, in order. */
  function Named(code: seq<Range>, tokens: seq<Token>): seq<Mention> {
    if tokens == [] then []
    else
      var last := tokens[|tokens| - 1];
      Named(code, tokens[..|tokens| - 1]) + if Counts(code, last) then [last.target.value] else []
  }

  method Parse(s: string, read: string -> Option<Ulid>) returns (out: seq<Mention>)
    ensures out == Firsts(Named(Reading(s, 0), Tokens(s, 0, read)))
  {
    out := [];
    var tokens := Tokens(s, 0, read);
    if tokens == [] { return; }
    var code := CodeRanges.CodeRanges(s);
    var seen: set<Mention> := {};
    for i := 0 to |tokens|
      invariant out == Firsts(Named(code, tokens[..i])) && seen == Elements(Named(code, tokens[..i]))
    {
      NextNamed(code, tokens, i);
      var inCode := InRanges(code, tokens[i].from);
      if !inCode && tokens[i].target.Some? && tokens[i].target.value !in seen {
        seen := seen + {tokens[i].target.value};
        out := out + [tokens[i].target.value];
      }
    }
    assert tokens[..|tokens|] == tokens;
  }

  /** What one more token changes. */
  lemma NextNamed(code: seq<Range>, tokens: seq<Token>, i: nat)
    requires i < |tokens|
    ensures var before, after := Named(code, tokens[..i]), Named(code, tokens[..i + 1]);
            if !Counts(code, tokens[i]) then after == before
            else
              var m := tokens[i].target.value;
              && Elements(after) == Elements(before) + {m}
              && Firsts(after) == if m in Elements(before) then Firsts(before) else Firsts(before) + [m]
  {
    assert tokens[..i + 1][..i] == tokens[..i];
    if Counts(code, tokens[i]) {
      var before := Named(code, tokens[..i]);
      var after := before + [tokens[i].target.value];
      FirstsMore(after, |before|);
      assert after[..|before|] == before && after[..|before| + 1] == after;
      assert Elements(after) == Elements(before) + {tokens[i].target.value};
    }
  }

  lemma {:induction false} NamedMeans(code: seq<Range>, tokens: seq<Token>, m: Mention)
    ensures m in Named(code, tokens) <==> exists k :: 0 <= k < |tokens| && Counts(code, tokens[k]) && tokens[k].target == Some(m)
  {
    if tokens != [] {
      var n := |tokens| - 1;
      NamedMeans(code, tokens[..n], m);
      if k :| 0 <= k < |tokens| && Counts(code, tokens[k]) && tokens[k].target == Some(m) {
        if k < n { assert tokens[..n][k] == tokens[k]; }
      }
    }
  }

  ghost predicate AllOutside(s: string, from: nat, end: nat) {
    forall k :: from <= k < end ==> !Covered(Reading(s, 0), k)
  }

  /** A token at a position names the target and has no character in code. */
  ghost predicate NamedAt(s: string, i: nat, read: string -> Option<Ulid>, m: Mention)
    requires i < |s|
  {
    && TokenAt(s, i, read).Some? && TokenAt(s, i, read).value.target == Some(m)
    && AllOutside(s, i, TokenAt(s, i, read).value.end)
  }

  lemma TokenCounts(s: string, i: nat, read: string -> Option<Ulid>)
    requires i < |s| && TokenAt(s, i, read).Some?
    ensures !Covered(Reading(s, 0), i) <==> AllOutside(s, i, TokenAt(s, i, read).value.end)
  {
    TokenIsClean(s, i, read);
    WholeStretch(s, i, TokenAt(s, i, read).value.end);
  }

  lemma WholeStretch(s: string, i: nat, end: nat)
    requires i < end <= |s| && forall k :: i <= k < end ==> s[k] != '`'
    ensures !Covered(Reading(s, 0), i) <==> AllOutside(s, i, end)
  {
    InsideOrOutside(s, i, end);
  }

  /** Tokens are found in order and apart. */
  lemma {:induction false} TokensAreApart(s: string, i: nat, read: string -> Option<Ulid>)
    requires i <= |s|
    ensures forall k :: 0 <= k < |Tokens(s, i, read)| ==> i <= Tokens(s, i, read)[k].from
    ensures forall j, k :: 0 <= j < k < |Tokens(s, i, read)| ==> Tokens(s, i, read)[j].end <= Tokens(s, i, read)[k].from
    decreases |s| - i
  {
    if i < |s| {
      TokensAreApart(s, if TokenAt(s, i, read).None? then i + 1 else TokenAt(s, i, read).value.end, read);
    }
  }

  /** What the first tokens name comes first. */
  lemma {:induction false} NamedPrefix(code: seq<Range>, tokens: seq<Token>, k: nat)
    requires k <= |tokens|
    ensures Named(code, tokens[..k]) <= Named(code, tokens)
    decreases |tokens|
  {
    if k == |tokens| {
      assert tokens[..k] == tokens;
    } else {
      var front := tokens[..|tokens| - 1];
      NamedPrefix(code, front, k);
      assert front[..k] == tokens[..k];
    }
  }

  /** Where a target precedes another, a token naming it outside code comes before any naming the other. */
  lemma NamedBefore(code: seq<Range>, tokens: seq<Token>, x: Mention, y: Mention, k: nat) returns (l: nat)
    requires Precedes(Named(code, tokens), x, y) && k < |tokens| && Counts(code, tokens[k]) && tokens[k].target == Some(y)
    ensures l < k && Counts(code, tokens[l]) && tokens[l].target == Some(x)
  {
    var before := Named(code, tokens[..k]);
    NamedPrefix(code, tokens, k + 1);
    NamedPrefix(code, tokens, k);
    assert tokens[..k + 1][..k] == tokens[..k];
    assert Named(code, tokens[..k + 1]) == before + [y];
    assert Named(code, tokens)[|before|] == y && Named(code, tokens)[..|before|] == before;
    NamedMeans(code, tokens[..k], x);
    l :| 0 <= l < k && Counts(code, tokens[..k][l]) && tokens[..k][l].target == Some(x);
  }

  /** A mention comes before another: before every token naming the other outside code there is one naming it. */
  ghost predicate ComesFirst(s: string, read: string -> Option<Ulid>, x: Mention, y: Mention) {
    forall q :: 0 <= q < |s| && NamedAt(s, q, read, y) ==> exists p :: 0 <= p < q && NamedAt(s, p, read, x)
  }

  lemma PrecedesMeans(s: string, read: string -> Option<Ulid>, x: Mention, y: Mention)
    requires Precedes(Named(Reading(s, 0), Tokens(s, 0, read)), x, y)
    ensures ComesFirst(s, read, x, y)
  {
    var code, tokens := Reading(s, 0), Tokens(s, 0, read);
    forall q | 0 <= q < |s| && NamedAt(s, q, read, y) ensures exists p :: 0 <= p < q && NamedAt(s, p, read, x) {
      var k := TokenIndex(s, q, read);
      TokenCounts(s, q, read);
      var l := NamedBefore(code, tokens, x, y, k);
      TokensAreApart(s, 0, read);
      EveryToken(s, 0, read, tokens[l]);
      TokenCounts(s, tokens[l].from, read);
      assert NamedAt(s, tokens[l].from, read, x);
    }
  }

  lemma TokenIndex(s: string, q: nat, read: string -> Option<Ulid>) returns (k: nat)
    requires q < |s| && TokenAt(s, q, read).Some?
    ensures k < |Tokens(s, 0, read)| && Tokens(s, 0, read)[k] == TokenAt(s, q, read).value
  {
    EveryToken(s, 0, read, TokenAt(s, q, read).value);
    k :| 0 <= k < |Tokens(s, 0, read)| && Tokens(s, 0, read)[k] == TokenAt(s, q, read).value;
  }

  /** A target is mentioned exactly if a token naming it stands anywhere in the text with no character in code; it is mentioned
      once, and of two targets the first one's first such token stands before every token naming the second. */
  lemma MentionsAreOutsideCode(s: string, read: string -> Option<Ulid>, m: Mention)
    ensures var out := Firsts(Named(Reading(s, 0), Tokens(s, 0, read)));
            && Distinct(out)
            && (m in out <==> exists i :: 0 <= i < |s| && NamedAt(s, i, read, m))
            && (forall i, j :: 0 <= i < j < |out| ==> ComesFirst(s, read, out[i], out[j]))
  {
    var code, tokens := Reading(s, 0), Tokens(s, 0, read);
    FirstsKeepOrder(Named(code, tokens));
    var out := Firsts(Named(code, tokens));
    forall i, j | 0 <= i < j < |out| ensures ComesFirst(s, read, out[i], out[j]) {
      PrecedesMeans(s, read, out[i], out[j]);
    }
    NamedMeans(code, tokens, m);
    assert m in Firsts(Named(code, tokens)) <==> m in Elements(Firsts(Named(code, tokens)));
    assert m in Named(code, tokens) <==> m in Elements(Named(code, tokens));
    if k :| 0 <= k < |tokens| && Counts(code, tokens[k]) && tokens[k].target == Some(m) {
      EveryToken(s, 0, read, tokens[k]);
      TokenCounts(s, tokens[k].from, read);
      assert NamedAt(s, tokens[k].from, read, m);
    }
    if i :| 0 <= i < |s| && NamedAt(s, i, read, m) {
      var t := TokenAt(s, i, read).value;
      EveryToken(s, 0, read, t);
      TokenCounts(s, i, read);
      var k :| 0 <= k < |tokens| && tokens[k] == t;
      assert Counts(code, tokens[k]) && tokens[k].target == Some(m);
    }
  }

  // ---- which texts mention whom ----

  /** The text stands at the position with no character in code. */
  ghost predicate StandsOutside(s: string, i: nat, w: string) {
    i + |w| <= |s| && s[i..i + |w|] == w && AllOutside(s, i, i + |w|)
  }

  ghost predicate IsId(x: string) {
    |x| == 26 && forall k :: 0 <= k < 26 ==> IsAlphanumeric(x[k])
  }

  function UserToken(x: string): string {
    "<@" + x + ">"
  }

  /** The id stands where a user token has it. */
  ghost predicate IdAt(s: string, i: nat, x: string) {
    IsId(x) && StandsOutside(s, i, UserToken(x))
  }

  lemma UserTokenChars(x: string)
    requires |x| == 26
    ensures var t := UserToken(x);
            && |t| == 29 && t[0] == '<' && t[1] == '@' && t[28] == '>' && t[2..28] == x
            && forall k :: 2 <= k < 28 ==> t[k] == x[k - 2]
  {
    var t := UserToken(x);
    forall k | 0 <= k < 26 ensures t[2..28][k] == x[k] { assert t[k + 2] == x[k]; }
  }

  /** A text of 29 characters by its parts. */
  lemma UserTokenParts(w: string)
    requires |w| == 29
    ensures w == UserToken(w[2..28]) <==> w[0] == '<' && w[1] == '@' && w[28] == '>'
  {
    UserTokenChars(w[2..28]);
  }

  lemma UserTokenThere(s: string, i: nat)
    requires i + 29 <= |s|
    ensures IsUserToken(s, i) <==> IsId(s[i + 2..i + 28]) && s[i..i + 29] == UserToken(s[i + 2..i + 28])
  {
    var x, w := s[i + 2..i + 28], s[i..i + 29];
    forall k | 0 <= k < 26 ensures w[2..28][k] == x[k] { assert w[2 + k] == s[i + 2 + k]; }
    assert w[2..28] == x;
    UserTokenParts(w);
    forall k | i + 2 <= k < i + 28 ensures x[k - i - 2] == s[k] {}
    forall k | 0 <= k < 26 ensures x[k] == s[i + 2 + k] {}
  }

  lemma TokenParts(s: string, i: nat, x: string)
    requires |x| == 26 && i + 29 <= |s| && s[i..i + 29] == UserToken(x)
    ensures s[i + 2..i + 28] == x
  {
    UserTokenChars(x);
    forall k | 0 <= k < 26 ensures s[i + 2..i + 28][k] == x[k] { assert s[i + 2 + k] == s[i..i + 29][k + 2]; }
  }

  /** The three patterns exclude each other. */
  lemma Apart(s: string, i: nat)
    ensures StartsWith(s, i, CHANNEL) ==> s[i + 2] == 'c'
    ensures StartsWith(s, i, HERE) ==> s[i + 2] == 'h'
    ensures (StartsWith(s, i, CHANNEL) || StartsWith(s, i, HERE)) ==> s[i + 1] == '!'
  {
    if StartsWith(s, i, CHANNEL) { assert s[i..i + |CHANNEL|][1] == s[i + 1] && s[i..i + |CHANNEL|][2] == s[i + 2]; }
    if StartsWith(s, i, HERE) { assert s[i..i + |HERE|][1] == s[i + 1] && s[i..i + |HERE|][2] == s[i + 2]; }
  }

  lemma GroupNamed(s: string, i: nat, read: string -> Option<Ulid>)
    requires i < |s|
    ensures NamedAt(s, i, read, All(Everyone)) <==> StandsOutside(s, i, "<!channel>")
    ensures NamedAt(s, i, read, All(Here)) <==> StandsOutside(s, i, "<!here>")
  {
    Apart(s, i);
  }

  lemma UserNamed(s: string, i: nat, read: string -> Option<Ulid>, id: Ulid, x: string)
    requires i < |s|
    ensures IdAt(s, i, x) && read(x) == Some(id) ==> NamedAt(s, i, read, User(id))
    ensures NamedAt(s, i, read, User(id)) ==> i + 29 <= |s| && IdAt(s, i, s[i + 2..i + 28]) && read(s[i + 2..i + 28]) == Some(id)
  {
    if i + 29 <= |s| {
      UserTokenThere(s, i);
      if IdAt(s, i, x) { TokenParts(s, i, x); }
    }
  }

  /** "<!channel>" anywhere outside code mentions everyone, "<!here>" those present, and nothing else does. */
  lemma GroupsMentionedBy(s: string, read: string -> Option<Ulid>)
    ensures var out := Firsts(Named(Reading(s, 0), Tokens(s, 0, read)));
            && (All(Everyone) in out <==> exists i :: StandsOutside(s, i, "<!channel>"))
            && (All(Here) in out <==> exists i :: StandsOutside(s, i, "<!here>"))
  {
    MentionsAreOutsideCode(s, read, All(Everyone));
    MentionsAreOutsideCode(s, read, All(Here));
    forall i: nat | i < |s|
      ensures NamedAt(s, i, read, All(Everyone)) <==> StandsOutside(s, i, "<!channel>")
      ensures NamedAt(s, i, read, All(Here)) <==> StandsOutside(s, i, "<!here>")
    {
      GroupNamed(s, i, read);
    }
  }

  /** A user is mentioned exactly by "<@", 26 letters or digits that read as the user's id, and ">", outside code. */
  lemma UsersMentionedBy(s: string, read: string -> Option<Ulid>, id: Ulid)
    ensures User(id) in Firsts(Named(Reading(s, 0), Tokens(s, 0, read))) <==> exists i, x :: IdAt(s, i, x) && read(x) == Some(id)
  {
    MentionsAreOutsideCode(s, read, User(id));
    if i: nat :| i < |s| && NamedAt(s, i, read, User(id)) { UserNamed(s, i, read, id, ""); }
    if i: nat, x :| IdAt(s, i, x) && read(x) == Some(id) {
      assert i < |s|;
      UserNamed(s, i, read, id, x);
    }
  }
}
