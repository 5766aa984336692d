/** Key patterns: the regular expressions `keys` compiles, and the globs they stand for. */
module Patterns {

  // ----- regular expressions of the fragment in use: characters, dots, and stars after them -----

  predicate InClass(r: char, c: char) {
    if r == '.' then c != '\n' else c == r
  }

  /** Full match of an expression against a text. */
  predicate RegexMatches(r: string, s: string)
    decreases |r|, |s|
  {
    if r == [] then s == []
    else if |r| >= 2 && r[1] == '*' then
      RegexMatches(r[2..], s) || (s != [] && InClass(r[0], s[0]) && RegexMatches(r, s[1..]))
    else s != [] && InClass(r[0], s[0]) && RegexMatches(r[1..], s[1..])
  }

  /** `search.replace("*", ".*")`. */
  function Dotted(p: string): string {
    if p == [] then [] else (if p[0] == '*' then ['.', '*'] else [p[0]]) + Dotted(p[1..])
  }

  /** No character of the pattern but the star is special in an expression. */
  predicate OnlyStarsSpecial(p: string) {
    forall i :: 0 <= i < |p| ==> p[i] !in ['.', '^', '$', '+', '?', '{', '}', '[', ']', '\\', '|', '(', ')']
  }

  // ----- globs -----

  predicate OneLine(s: string) {
    '\n' !in s
  }

  function Stars(p: string): nat {
    if p == [] then 0 else (if p[0] == '*' then 1 else 0) + Stars(p[1..])
  }

  /** The pattern with its stars replaced, in order, by the given texts. */
  function Filled(p: string, texts: seq<string>): string
    requires |texts| == Stars(p)
  {
    if p == [] then []
    else if p[0] == '*' then texts[0] + Filled(p[1..], texts[1..])
    else [p[0]] + Filled(p[1..], texts)
  }

  ghost predicate Fills(p: string, texts: seq<string>, s: string) {
    && |texts| == Stars(p)
    && Filled(p, texts) == s
    && forall i :: 0 <= i < |texts| ==> OneLine(texts[i])
  }

  /** A text matches a glob if one-line texts for the stars turn the one into the other. */
  ghost predicate GlobMatches(p: string, s: string) {
    exists texts :: Fills(p, texts, s)
  }

  lemma DottedStar(p: string)
    requires p != [] && p[0] == '*'
    ensures Dotted(p) == ['.', '*'] + Dotted(p[1..]) && Dotted(p)[2..] == Dotted(p[1..])
  {}

  lemma DottedLiteral(p: string)
    requires p != [] && p[0] != '*' && OnlyStarsSpecial(p)
    ensures Dotted(p) == [p[0]] + Dotted(p[1..]) && Dotted(p)[1..] == Dotted(p[1..])
    ensures p[0] != '.' && !(|Dotted(p)| >= 2 && Dotted(p)[1] == '*')
    ensures OnlyStarsSpecial(p[1..])
  {
    assert p[0] !in ['.', '^', '$', '+', '?', '{', '}', '[', ']', '\\', '|', '(', ')'];
    if |p| > 1 && p[1] == '*' { DottedStar(p[1..]); }
  }

  /** A dot-star takes any one-line text. */
  lemma {:induction false} DotStarTakes(r: string, w: string, t: string)
    requires |r| >= 2 && r[0] == '.' && r[1] == '*' && OneLine(w) && RegexMatches(r[2..], t)
    ensures RegexMatches(r, w + t)
  {
    if w == [] {
      assert w + t == t;
    } else {
      DotStarTakes(r, w[1..], t);
      assert (w + t)[1..] == w[1..] + t;
    }
  }

  lemma {:induction false} FilledMatches(p: string, texts: seq<string>, s: string)
    requires OnlyStarsSpecial(p) && Fills(p, texts, s)
    ensures RegexMatches(Dotted(p), s)
  {
    if p != [] {
      if p[0] == '*' {
        DottedStar(p);
        FilledMatches(p[1..], texts[1..], Filled(p[1..], texts[1..]));
        DotStarTakes(Dotted(p), texts[0], Filled(p[1..], texts[1..]));
      } else {
        DottedLiteral(p);
        FilledMatches(p[1..], texts, s[1..]);
      }
    }
  }

  lemma {:induction false} MatchIsFilled(p: string, s: string) returns (texts: seq<string>)
    requires OnlyStarsSpecial(p) && RegexMatches(Dotted(p), s)
    ensures Fills(p, texts, s)
    decreases |p|, |s|
  {
    if p == [] {
      texts := [];
    } else if p[0] == '*' {
      DottedStar(p);
      if RegexMatches(Dotted(p[1..]), s) {
        var rest := MatchIsFilled(p[1..], s);
        texts := [[]] + rest;
        assert texts[1..] == rest;
      } else {
        var rest := MatchIsFilled(p, s[1..]);
        texts := [[s[0]] + rest[0]] + rest[1..];
        assert texts[1..] == rest[1..];
        assert s == [s[0]] + s[1..];
      }
    } else {
      DottedLiteral(p);
      texts := MatchIsFilled(p[1..], s[1..]);
    }
  }

  /** Compiling a pattern whose only special character is the star, the way `keys` does, gives
      an expression that matches exactly what the glob matches. */
  lemma PatternIsGlob(p: string, s: string)
    requires OnlyStarsSpecial(p)
    ensures RegexMatches(Dotted(p), s) <==> GlobMatches(p, s)
  {
    if RegexMatches(Dotted(p), s) {
      var texts := MatchIsFilled(p, s);
    }
    if texts :| Fills(p, texts, s) {
      FilledMatches(p, texts, s);
    }
  }

  /** A lone star matches the texts of one line. */
  lemma {:induction false} StarMatches(s: string)
    ensures RegexMatches(Dotted("*"), s) <==> OneLine(s)
  {
    DottedStar("*");
    if s != [] {
      StarMatches(s[1..]);
      assert s == [s[0]] + s[1..];
    }
  }
}
