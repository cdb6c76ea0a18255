/** Splitting a search box into words to find and words to leave out. */
module SearchText {
  import opened Common

  const MAX_TERMS := 8
  const MAX_QUERY := 200

  datatype Parsed = Required | TooLong | Words(terms: seq<string>, excluded: seq<string>)

  /** unicode.IsSpace. */
  predicate IsSpace(c: char) {
    || c == ' ' || '\t' <= c <= '\r' || c == '\U{0085}' || c == '\U{00A0}'
    || c == '\U{1680}' || '\U{2000}' <= c <= '\U{200A}' || c == '\U{2028}' || c == '\U{2029}'
    || c == '\U{202F}' || c == '\U{205F}' || c == '\U{3000}'
  }

  // ---- tokens ----

  function Flush(cur: string): seq<string> {
    if cur == "" then [] else [cur]
  }

  /** The tokens of what is still to read, given the quote state and the token begun. */
  function Tokens(text: string, quoted: bool, cur: string): seq<string> {
    if text == "" then Flush(cur)
    else if text[0] == '"' then Tokens(text[1..], !quoted, cur + ['"'])
    else if !quoted && IsSpace(text[0]) then Flush(cur) + Tokens(text[1..], quoted, "")
    else Tokens(text[1..], quoted, cur + [text[0]])
  }

  method SplitSearchTokens(text: string) returns (tokens: seq<string>)
    ensures tokens == Tokens(text, false, "")
  {
    tokens := [];
    var cur, quoted := "", false;
    for i := 0 to |text|
      invariant tokens + Tokens(text[i..], quoted, cur) == Tokens(text, false, "")
    {
      var c := text[i];
      assert text[i..][0] == c && text[i..][1..] == text[i + 1..];
      if c == '"' {
        quoted := !quoted;
        cur := cur + [c];
      } else if !quoted && IsSpace(c) {
        if cur != "" { tokens := tokens + [cur]; }
        cur := "";
      } else {
        cur := cur + [c];
      }
    }
    if cur != "" { tokens := tokens + [cur]; }
  }

  function Join(tokens: seq<string>): string {
    if tokens == [] then "" else tokens[0] + Join(tokens[1..])
  }

  /** The text without its separators: the spaces outside quotes. */
  function Kept(text: string, quoted: bool): string {
    if text == "" then ""
    else if text[0] == '"' then ['"'] + Kept(text[1..], !quoted)
    else if !quoted && IsSpace(text[0]) then Kept(text[1..], quoted)
    else [text[0]] + Kept(text[1..], quoted)
  }

  lemma {:induction false} JoinAppend(a: seq<string>, b: seq<string>)
    ensures Join(a + b) == Join(a) + Join(b)
  {
    if a == [] {
      assert a + b == b;
    } else {
      assert (a + b)[1..] == a[1..] + b;
      JoinAppend(a[1..], b);
    }
  }

  /** Nothing but separators is lost and no token is empty. */
  lemma {:induction false} TokensKeepTheText(text: string, quoted: bool, cur: string)
    ensures Join(Tokens(text, quoted, cur)) == cur + Kept(text, quoted)
    ensures forall t :: t in Tokens(text, quoted, cur) ==> t != ""
    decreases |text|
  {
    if text == "" {
      assert Tokens(text, quoted, cur) == Flush(cur);
      if cur != "" { assert [cur][1..] == []; }
    } else if text[0] == '"' {
      TokensKeepTheText(text[1..], !quoted, cur + ['"']);
      assert cur + ['"'] + Kept(text[1..], !quoted) == cur + (['"'] + Kept(text[1..], !quoted));
    } else if !quoted && IsSpace(text[0]) {
      TokensKeepTheText(text[1..], quoted, "");
      JoinAppend(Flush(cur), Tokens(text[1..], quoted, ""));
      if cur != "" { assert [cur][1..] == []; }
    } else {
      TokensKeepTheText(text[1..], quoted, cur + [text[0]]);
      assert cur + [text[0]] + Kept(text[1..], quoted) == cur + ([text[0]] + Kept(text[1..], quoted));
    }
  }

  // ---- words ----

  function TrimPrefix(s: string, c: char): string {
    if s != "" && s[0] == c then s[1..] else s
  }

  function TrimSuffix(s: string, c: char): string {
    if s != "" && s[|s| - 1] == c then s[..|s| - 1] else s
  }

  /** The quotes around a token go, also one that is never closed. */
  function Unquote(tok: string): string {
    TrimSuffix(TrimPrefix(tok, '"'), '"')
  }

  predicate IsExcluded(tok: string) {
    tok != "" && tok[0] == '-'
  }

  function Word(tok: string): string {
    Unquote(TrimPrefix(tok, '-'))
  }

  /** The words of the tokens on one side, in order, without empty ones. */
  function WordsOf(tokens: seq<string>, excluded: bool): seq<string> {
    if tokens == [] then []
    else
      (if IsExcluded(tokens[0]) == excluded && Word(tokens[0]) != "" then [Word(tokens[0])] else []) + WordsOf(tokens[1..], excluded)
  }

  function Parse(text: string): Parsed {
    var tokens := Tokens(text, false, "");
    var terms, excluded := WordsOf(tokens, false), WordsOf(tokens, true);
    if |text| > MAX_QUERY then TooLong
    else if terms == [] then Required
    else if |terms| + |excluded| > MAX_TERMS then TooLong
    else Words(terms, excluded)
  }

  method ParseSearchText(text: string) returns (r: Parsed)
    ensures r == Parse(text)
  {
    if |text| > MAX_QUERY { return TooLong; }
    var tokens := SplitSearchTokens(text);
    var terms: seq<string>, excluded: seq<string> := [], [];
    for i := 0 to |tokens|
      invariant terms + WordsOf(tokens[i..], false) == WordsOf(tokens, false)
      invariant excluded + WordsOf(tokens[i..], true) == WordsOf(tokens, true)
    {
      var word := Unquote(TrimPrefix(tokens[i], '-'));
      NextWord(tokens, i, terms, false);
      NextWord(tokens, i, excluded, true);
      if word != "" {
        if IsExcluded(tokens[i]) { excluded := excluded + [word]; } else { terms := terms + [word]; }
      }
    }
    assert terms + [] == terms && excluded + [] == excluded;
    if terms == [] { return Required; }
    if |terms| + |excluded| > MAX_TERMS { return TooLong; }
    r := Words(terms, excluded);
  }

  lemma NextWord(tokens: seq<string>, i: nat, words: seq<string>, excluded: bool)
    requires i < |tokens|
    ensures words + WordsOf(tokens[i..], excluded)
            == (if IsExcluded(tokens[i]) == excluded && Word(tokens[i]) != "" then words + [Word(tokens[i])] else words)
               + WordsOf(tokens[i + 1..], excluded)
  {
    assert tokens[i..][0] == tokens[i] && tokens[i..][1..] == tokens[i + 1..];
  }

  // ---- a query written out reads back ----

  datatype Wanted = Wanted(word: string, excluded: bool, phrase: bool)

  /** A word with spaces is written as a phrase; one written plainly must not look like something else. */
  predicate Writable(w: Wanted) {
    && w.word != "" && '"' !in w.word
    && (!w.phrase ==> (forall c :: c in w.word ==> !IsSpace(c)) && (w.word[0] == '-' ==> w.excluded))
  }

  function Quoted(word: string): string {
    ['"'] + word + ['"']
  }

  function Body(w: Wanted): string {
    if w.phrase then Quoted(w.word) else w.word
  }

  function Written(w: Wanted): string {
    (if w.excluded then "-" else "") + Body(w)
  }

  /** The words with a space after each. */
  function Query(ws: seq<Wanted>): string {
    if ws == [] then "" else Written(ws[0]) + " " + Query(ws[1..])
  }

  function AllWritten(ws: seq<Wanted>): seq<string> {
    seq(|ws|, i requires 0 <= i < |ws| => Written(ws[i]))
  }

  function Chosen(ws: seq<Wanted>, excluded: bool): seq<string> {
    if ws == [] then []
    else (if ws[0].excluded == excluded then [ws[0].word] else []) + Chosen(ws[1..], excluded)
  }

  /** Inside quotes everything up to the closing quote belongs to the token. */
  lemma {:induction false} QuotedRun(word: string, rest: string, cur: string)
    requires '"' !in word
    ensures Tokens(word + ['"'] + rest, true, cur) == Tokens(rest, false, cur + word + ['"'])
    decreases |word|
  {
    var text := word + ['"'] + rest;
    if word == "" {
      assert text[1..] == rest && cur + word + ['"'] == cur + ['"'];
    } else {
      assert text[1..] == word[1..] + ['"'] + rest;
      QuotedRun(word[1..], rest, cur + [word[0]]);
      assert cur + [word[0]] + word[1..] + ['"'] == cur + word + ['"'];
    }
  }

  /** Outside quotes a token goes on to the next space. */
  lemma {:induction false} PlainRun(word: string, rest: string, cur: string)
    requires '"' !in word && (forall c :: c in word ==> !IsSpace(c)) && cur + word != ""
    ensures Tokens(word + " " + rest, false, cur) == [cur + word] + Tokens(rest, false, "")
    decreases |word|
  {
    var text := word + " " + rest;
    if word == "" {
      assert text[1..] == rest && cur + word == cur;
    } else {
      assert text[1..] == word[1..] + " " + rest;
      PlainRun(word[1..], rest, cur + [word[0]]);
      assert cur + [word[0]] + word[1..] == cur + word;
    }
  }

  lemma QuotedToken(word: string, rest: string, cur: string)
    requires '"' !in word
    ensures Tokens(Quoted(word) + " " + rest, false, cur) == [cur + Quoted(word)] + Tokens(rest, false, "")
  {
    var text := Quoted(word) + " " + rest;
    assert text[1..] == word + ['"'] + (" " + rest);
    QuotedRun(word, " " + rest, cur + ['"']);
    assert (" " + rest)[1..] == rest;
    assert cur + ['"'] + word + ['"'] == cur + Quoted(word);
  }

  lemma WrittenIsOneToken(w: Wanted, rest: string)
    requires Writable(w)
    ensures Tokens(Written(w) + " " + rest, false, "") == [Written(w)] + Tokens(rest, false, "")
  {
    if w.excluded {
      MinusFirst(Body(w) + " " + rest);
      BodyIsOneToken(w, rest, "-");
      assert Written(w) == "-" + Body(w);
      assert Written(w) + " " + rest == "-" + (Body(w) + " " + rest);
    } else {
      assert Written(w) == Body(w) && "" + Body(w) == Body(w);
      BodyIsOneToken(w, rest, "");
    }
  }

  lemma MinusFirst(text: string)
    ensures Tokens("-" + text, false, "") == Tokens(text, false, "-")
  {
    assert ("-" + text)[1..] == text && "" + ['-'] == "-";
  }

  lemma BodyIsOneToken(w: Wanted, rest: string, cur: string)
    requires Writable(w)
    ensures Tokens(Body(w) + " " + rest, false, cur) == [cur + Body(w)] + Tokens(rest, false, "")
  {
    if w.phrase { QuotedToken(w.word, rest, cur); } else { PlainRun(w.word, rest, cur); }
  }

  lemma {:induction false} QueryTokens(ws: seq<Wanted>, rest: string)
    requires forall i :: 0 <= i < |ws| ==> Writable(ws[i])
    ensures Tokens(Query(ws) + rest, false, "") == AllWritten(ws) + Tokens(rest, false, "")
  {
    if ws == [] {
      assert Query(ws) + rest == rest;
    } else {
      QueryTokens(ws[1..], rest);
      WrittenIsOneToken(ws[0], Query(ws[1..]) + rest);
      assert Query(ws) + rest == Written(ws[0]) + " " + (Query(ws[1..]) + rest);
      assert AllWritten(ws) == [Written(ws[0])] + AllWritten(ws[1..]);
    }
  }

  lemma WrittenWord(w: Wanted)
    requires Writable(w)
    ensures IsExcluded(Written(w)) == w.excluded && Word(Written(w)) == w.word
  {
    assert Written(w) == if w.excluded then "-" + Body(w) else Body(w);
    assert w.excluded ==> Written(w)[1..] == Body(w);
    BodyWord(w);
  }

  lemma BodyWord(w: Wanted)
    requires Writable(w)
    ensures Unquote(Body(w)) == w.word && Body(w) != "" && (Body(w)[0] == '-' ==> w.excluded)
  {
    if w.phrase {
      assert TrimPrefix(Body(w), '"') == w.word + ['"'];
      assert (w.word + ['"'])[..|w.word|] == w.word;
    } else {
      assert w.word[0] in w.word && w.word[|w.word| - 1] in w.word;
    }
  }

  lemma {:induction false} WrittenWords(ws: seq<Wanted>, excluded: bool)
    requires forall i :: 0 <= i < |ws| ==> Writable(ws[i])
    ensures WordsOf(AllWritten(ws), excluded) == Chosen(ws, excluded)
  {
    if ws != [] {
      WrittenWord(ws[0]);
      assert AllWritten(ws)[1..] == AllWritten(ws[1..]);
      WrittenWords(ws[1..], excluded);
    }
  }

  ghost predicate SomeRequired(ws: seq<Wanted>) {
    exists i :: 0 <= i < |ws| && !ws[i].excluded
  }

  /** What is answered to a text of some length whose words are the given ones: too long if it has over 200 characters; only words
      to leave out are not enough; over eight words, those to leave out included, are too many; otherwise the words of each side in
      order. */
  ghost predicate Answers(r: Parsed, size: nat, ws: seq<Wanted>) {
    && (r == TooLong <==> size > 200 || (SomeRequired(ws) && |ws| > 8))
    && (r == Required <==> size <= 200 && !SomeRequired(ws))
    && (r.Words? ==> r == Words(Chosen(ws, false), Chosen(ws, true)))
  }

  lemma WordsAnswer(text: string, ws: seq<Wanted>)
    requires WordsOf(Tokens(text, false, ""), false) == Chosen(ws, false) && WordsOf(Tokens(text, false, ""), true) == Chosen(ws, true)
    ensures Answers(Parse(text), |text|, ws)
  {
    ChosenSizes(ws);
  }

  /** Words written plainly or, spaces and all, as phrases read back as exactly those words, each on its side and in order, unless they
      are too long, too many or only to be left out. */
  lemma WrittenReadsBack(ws: seq<Wanted>)
    requires forall i :: 0 <= i < |ws| ==> Writable(ws[i])
    ensures Answers(Parse(Query(ws)), |Query(ws)|, ws)
  {
    QueryTokens(ws, "");
    assert Query(ws) + "" == Query(ws) && AllWritten(ws) + [] == AllWritten(ws);
    WrittenWords(ws, false);
    WrittenWords(ws, true);
    WordsAnswer(Query(ws), ws);
  }

  // ---- a quote that is never closed ----

  lemma {:induction false} OpenRun(word: string, cur: string)
    requires '"' !in word && cur + word != ""
    ensures Tokens(word, true, cur) == [cur + word]
    decreases |word|
  {
    if word == "" {
      assert cur + word == cur;
    } else {
      OpenRun(word[1..], cur + [word[0]]);
      assert cur + [word[0]] + word[1..] == cur + word;
    }
  }

  /** A last phrase whose quote is never closed. */
  function OpenPhrase(word: string, excluded: bool): string {
    (if excluded then ['-', '"'] else ['"']) + word
  }

  lemma OpenToken(word: string, excluded: bool)
    requires '"' !in word
    ensures Tokens(OpenPhrase(word, excluded), false, "") == [OpenPhrase(word, excluded)]
  {
    var text := OpenPhrase(word, excluded);
    if excluded {
      assert text[1..] == ['"'] + word && text[1..][1..] == word && "" + ['-'] + ['"'] == ['-', '"'];
      OpenRun(word, ['-', '"']);
    } else {
      assert text[1..] == word && "" + ['"'] == ['"'];
      OpenRun(word, ['"']);
    }
  }

  lemma OpenWord(word: string, excluded: bool)
    requires word != "" && '"' !in word
    ensures IsExcluded(OpenPhrase(word, excluded)) == excluded && Word(OpenPhrase(word, excluded)) == word
  {
    var text := OpenPhrase(word, excluded);
    var quoted := ['"'] + word;
    assert if excluded then text[1..] == quoted else text == quoted;
    assert TrimPrefix(quoted, '"') == word && word[|word| - 1] in word;
  }

  lemma {:induction false} WordsJoined(a: seq<string>, b: seq<string>, excluded: bool)
    ensures WordsOf(a + b, excluded) == WordsOf(a, excluded) + WordsOf(b, excluded)
  {
    if a == [] {
      assert a + b == b;
    } else {
      assert (a + b)[1..] == a[1..] + b;
      WordsJoined(a[1..], b, excluded);
    }
  }

  lemma {:induction false} ChosenMore(ws: seq<Wanted>, w: Wanted, excluded: bool)
    ensures Chosen(ws + [w], excluded) == Chosen(ws, excluded) + if w.excluded == excluded then [w.word] else []
  {
    var more := ws + [w];
    if ws == [] {
      assert more[1..] == [];
    } else {
      assert more[0] == ws[0] && more[1..] == ws[1..] + [w];
      ChosenMore(ws[1..], w, excluded);
      assert Chosen(more, excluded) == (if ws[0].excluded == excluded then [ws[0].word] else []) + Chosen(more[1..], excluded);
    }
  }

  lemma OpenWords(ws: seq<Wanted>, word: string, out: bool, excluded: bool)
    requires (forall i :: 0 <= i < |ws| ==> Writable(ws[i])) && word != "" && '"' !in word
    ensures WordsOf(AllWritten(ws) + [OpenPhrase(word, out)], excluded) == Chosen(ws + [Wanted(word, out, true)], excluded)
  {
    WordsJoined(AllWritten(ws), [OpenPhrase(word, out)], excluded);
    WrittenWords(ws, excluded);
    OpenWord(word, out);
    ChosenMore(ws, Wanted(word, out, true), excluded);
    assert [OpenPhrase(word, out)][1..] == [];
  }

  /** A quote that is never closed runs to the end of the text, and is dropped: the rest reads as if it were closed there. */
  lemma OpenQuoteReadsBack(ws: seq<Wanted>, word: string, excluded: bool)
    requires (forall i :: 0 <= i < |ws| ==> Writable(ws[i])) && word != "" && '"' !in word
    ensures var text := Query(ws) + OpenPhrase(word, excluded); Answers(Parse(text), |text|, ws + [Wanted(word, excluded, true)])
  {
    QueryTokens(ws, OpenPhrase(word, excluded));
    OpenToken(word, excluded);
    OpenWords(ws, word, excluded, false);
    OpenWords(ws, word, excluded, true);
    WordsAnswer(Query(ws) + OpenPhrase(word, excluded), ws + [Wanted(word, excluded, true)]);
  }

  lemma {:induction false} ChosenSizes(ws: seq<Wanted>)
    ensures |Chosen(ws, false)| + |Chosen(ws, true)| == |ws|
    ensures SomeRequired(ws) <==> Chosen(ws, false) != []
  {
    if ws != [] {
      ChosenSizes(ws[1..]);
      forall i | 0 < i < |ws| ensures ws[1..][i - 1] == ws[i] {}
      assert SomeRequired(ws) <==> !ws[0].excluded || SomeRequired(ws[1..]);
    }
  }

  // ---- the driving term ----

  /** splitDriverTerm: the first of the longest terms leads. */
  method SplitDriverTerm(terms: seq<string>) returns (driver: string, rest: seq<string>, ghost at: nat)
    requires terms != []
    ensures at < |terms| && driver == terms[at] && rest == terms[..at] + terms[at + 1..]
    ensures forall j :: 0 <= j < |terms| ==> |terms[j]| <= |driver|
    ensures forall j :: 0 <= j < at ==> |terms[j]| < |driver|
  {
    var best := 0;
    for i := 0 to |terms|
      invariant best < |terms|
      invariant forall j :: 0 <= j < i ==> |terms[j]| <= |terms[best]|
      invariant forall j :: 0 <= j < best ==> |terms[j]| < |terms[best]|
    {
      if |terms[i]| > |terms[best]| { best := i; }
    }
    at := best;
    driver, rest := terms[best], terms[..best] + terms[best + 1..];
  }
}
