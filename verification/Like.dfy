/** SQL LIKE with a backslash escape, and the pattern that means "contains" (section 9.7.1 of the PostgreSQL manual). */
module Like {
  /** No backslash is left without a character to escape; matching a pattern with one is an error in SQL. */
  predicate WellFormed(p: string)
    decreases |p|
  {
    if p == "" then true
    else if p[0] == '\\' then |p| >= 2 && WellFormed(p[2..])
    else WellFormed(p[1..])
  }

  /** `%` matches any text, `_` any one character, a backslash makes the next character literal. */
  ghost predicate Matches(s: string, p: string)
    requires WellFormed(p)
    decreases |p|
  {
    if p == "" then s == ""
    else if p[0] == '%' then exists k :: 0 <= k <= |s| && Matches(s[k..], p[1..])
    else if p[0] == '_' then s != "" && Matches(s[1..], p[1..])
    else if p[0] == '\\' then s != "" && s[0] == p[1] && Matches(s[1..], p[2..])
    else s != "" && s[0] == p[0] && Matches(s[1..], p[1..])
  }

  function EscapedChar(c: char): string {
    if c == '\\' || c == '%' || c == '_' then ['\\', c] else [c]
  }

  /** One pass of likeEscaper. */
  function Escaped(t: string): string {
    if t == "" then "" else EscapedChar(t[0]) + Escaped(t[1..])
  }

  /** The term is normalised first and escaped then. `normalize` stands for NFKC and lower case. */
  method LikePattern(term: string, normalize: string -> string) returns (p: string)
    ensures p == "%" + Escaped(normalize(term)) + "%"
  {
    var n := normalize(term);
    var out := "";
    for i := 0 to |n|
      invariant out + Escaped(n[i..]) == Escaped(n)
    {
      assert n[i..][1..] == n[i + 1..];
      out := out + EscapedChar(n[i]);
    }
    p := "%" + out + "%";
  }

  ghost predicate OccursAt(s: string, t: string, i: nat) {
    i + |t| <= |s| && s[i..i + |t|] == t
  }

  /** What follows the first, possibly escaped, character. */
  lemma EscapedTail(t: string, rest: string)
    requires t != ""
    ensures var p := Escaped(t) + rest;
            var n := |EscapedChar(t[0])|;
            p != "" && p[0] == EscapedChar(t[0])[0] && (n == 2 ==> |p| >= 2 && p[1] == t[0]) && |p| >= n
            && p[n..] == Escaped(t[1..]) + rest
  {
    assert Escaped(t) + rest == EscapedChar(t[0]) + (Escaped(t[1..]) + rest);
  }

  lemma {:induction false} EscapedIsWellFormed(t: string, rest: string)
    requires WellFormed(rest)
    ensures WellFormed(Escaped(t) + rest)
  {
    if t == "" {
      assert Escaped(t) + rest == rest;
    } else {
      EscapedIsWellFormed(t[1..], rest);
      EscapedTail(t, rest);
    }
  }

  /** An escaped text matches itself and nothing else. */
  lemma {:induction false} EscapedIsLiteral(s: string, t: string, rest: string)
    requires WellFormed(rest)
    ensures WellFormed(Escaped(t) + rest)
    ensures Matches(s, Escaped(t) + rest) <==> OccursAt(s, t, 0) && Matches(s[|t|..], rest)
    decreases |t|
  {
    EscapedIsWellFormed(t, rest);
    if t == "" {
      assert Escaped(t) + rest == rest && s[0..] == s;
    } else {
      EscapedTail(t, rest);
      if s != "" {
        EscapedIsLiteral(s[1..], t[1..], rest);
        if |t| <= |s| {
          assert s[1..][|t| - 1..] == s[|t|..];
          assert s[..|t|] == [s[0]] + s[1..][..|t| - 1];
          assert t == [t[0]] + t[1..];
        }
      }
    }
  }

  lemma PercentMatchesAll(s: string)
    ensures WellFormed("%") && Matches(s, "%")
  {
    assert s[|s|..] == "" && "%"[1..] == "" && Matches(s[|s|..], "%"[1..]);
  }

  /** The pattern of a term is never rejected and matches exactly the texts that contain the term. */
  lemma PatternMeansContains(s: string, t: string)
    ensures WellFormed("%" + Escaped(t) + "%")
    ensures Matches(s, "%" + Escaped(t) + "%") <==> exists i: nat :: OccursAt(s, t, i)
  {
    var p := "%" + Escaped(t) + "%";
    PercentMatchesAll("");
    EscapedIsWellFormed(t, "%");
    assert p[1..] == Escaped(t) + "%";
    forall k | 0 <= k <= |s| ensures Matches(s[k..], p[1..]) <==> OccursAt(s, t, k) {
      EscapedIsLiteral(s[k..], t, "%");
      if k + |t| <= |s| {
        PercentMatchesAll(s[k..][|t|..]);
        assert s[k..][..|t|] == s[k..k + |t|];
      }
    }
  }
}
