/** The prefix rewrite of MoveDirectoryTree
    (internal/storage/directory_sql_repository.go): which rows the equality-or-LIKE
    filter selects, and what the concatenation with substr makes of them. */
module SqlPrefix {
  import opened Base
  import opened PathStrings

  /** strings.ReplaceAll for a one-character pattern. */
  function ReplaceAll(s: string, c: char, with: string): string {
    if s == "" then "" else (if s[0] == c then with else [s[0]]) + ReplaceAll(s[1..], c, with)
  }

  function EscapeLikePattern(s: string): string {
    ReplaceAll(ReplaceAll(ReplaceAll(s, '\\', "\\\\"), '%', "\\%"), '_', "\\_")
  }

  /** One character, escaped when LIKE would read it as more than itself. */
  function EscapeChar(c: char): string {
    if c == '\\' || c == '%' || c == '_' then ['\\', c] else [c]
  }

  function EscapeOnePass(s: string): string {
    if s == "" then "" else EscapeChar(s[0]) + EscapeOnePass(s[1..])
  }

  /** LIKE with ESCAPE '\': '%' stands for any text, '_' for any character, and a
      backslash makes the next character literal. */
  predicate Like(text: string, pattern: string)
    decreases |pattern|, |text|
  {
    if pattern == "" then text == ""
    else if pattern[0] == '\\' then
      |pattern| >= 2 && text != "" && text[0] == pattern[1] && Like(text[1..], pattern[2..])
    else if pattern[0] == '%' then
      Like(text, pattern[1..]) || (text != "" && Like(text[1..], pattern))
    else text != "" && (pattern[0] == '_' || text[0] == pattern[0]) && Like(text[1..], pattern[1..])
  }

  /** The WHERE clause on parent_path. */
  predicate Selected(parentPath: string, src: string) {
    parentPath == src || Like(parentPath, EscapeLikePattern(src) + "/%")
  }

  /** substr(s, start), counting characters from 1. */
  function Substr(s: string, start: nat): string
    requires start >= 1
  {
    if start - 1 <= |s| then s[start - 1..] else ""
  }

  /** The SET clause on parent_path. */
  function Rewritten(parentPath: string, src: string, dst: string): string {
    dst + Substr(parentPath, |src| + 1)
  }

  // ----- escaping

  lemma {:induction false} ReplaceAppend(a: string, b: string, c: char, with: string)
    ensures ReplaceAll(a + b, c, with) == ReplaceAll(a, c, with) + ReplaceAll(b, c, with)
  {
    if a == "" {
      assert a + b == b;
    } else {
      assert (a + b)[1..] == a[1..] + b;
      ReplaceAppend(a[1..], b, c, with);
    }
  }

  lemma ReplaceOne(x: char, c: char, with: string)
    ensures ReplaceAll([x], c, with) == if x == c then with else [x]
  {}

  lemma ReplaceTwo(x: char, y: char, c: char, with: string)
    requires x != c && y != c
    ensures ReplaceAll([x, y], c, with) == [x, y]
  {
    assert [x, y] == [x] + [y];
    ReplaceAppend([x], [y], c, with);
    ReplaceOne(x, c, with);
    ReplaceOne(y, c, with);
  }

  lemma EscapeLikeChar(c: char)
    ensures EscapeLikePattern([c]) == EscapeChar(c)
  {
    ReplaceOne(c, '\\', "\\\\");
    if c == '\\' {
      ReplaceTwo('\\', '\\', '%', "\\%");
      ReplaceTwo('\\', '\\', '_', "\\_");
    } else {
      ReplaceOne(c, '%', "\\%");
      if c == '%' { ReplaceTwo('\\', '%', '_', "\\_"); } else { ReplaceOne(c, '_', "\\_"); }
    }
  }

  /** The three chained replacements escape each character exactly once. */
  lemma {:induction false} ChainIsOnePass(s: string)
    ensures EscapeLikePattern(s) == EscapeOnePass(s)
  {
    if s != "" {
      ChainIsOnePass(s[1..]);
      EscapeLikeChar(s[0]);
      var x, rest := [s[0]], s[1..];
      assert s == x + rest;
      ReplaceAppend(x, rest, '\\', "\\\\");
      var x1, r1 := ReplaceAll(x, '\\', "\\\\"), ReplaceAll(rest, '\\', "\\\\");
      ReplaceAppend(x1, r1, '%', "\\%");
      ReplaceAppend(ReplaceAll(x1, '%', "\\%"), ReplaceAll(r1, '%', "\\%"), '_', "\\_");
    }
  }

  // ----- matching

  lemma {:induction false} LikePercent(text: string)
    ensures Like(text, "%")
    decreases |text|
  {
    assert "%"[1..] == "";
    if text != "" {
      LikePercent(text[1..]);
    }
  }

  lemma LikeEscapedChar(text: string, c: char, rest: string)
    ensures Like(text, EscapeChar(c) + rest) <==> text != "" && text[0] == c && Like(text[1..], rest)
  {}

  /** Matching an escaped text followed by more pattern is matching that text
      literally. */
  lemma {:induction false} LikeEscaped(text: string, s: string, rest: string)
    ensures Like(text, EscapeOnePass(s) + rest) <==> s <= text && Like(text[|s|..], rest)
    decreases |s|
  {
    if s == "" {
      assert EscapeOnePass(s) + rest == rest;
      assert text[0..] == text;
    } else {
      LikeEscapedChar(text, s[0], EscapeOnePass(s[1..]) + rest);
      assert EscapeOnePass(s) + rest == EscapeChar(s[0]) + (EscapeOnePass(s[1..]) + rest);
      if text != "" && text[0] == s[0] {
        LikeEscaped(text[1..], s[1..], rest);
        assert s <= text <==> s[1..] <= text[1..] by {
          assert s == [s[0]] + s[1..] && text == [text[0]] + text[1..];
        }
        if s <= text {
          assert text[1..][|s[1..]|..] == text[|s|..];
        }
      }
    }
  }

  /** The pattern matches exactly the texts that begin with src and a separator,
      whatever '%', '_' or '\' src itself contains. */
  lemma SelectorExact(text: string, src: string)
    ensures Like(text, EscapeLikePattern(src) + "/%") <==> src + "/" <= text
  {
    ChainIsOnePass(src);
    LikeEscaped(text, src, "/%");
    if src <= text {
      var t := text[|src|..];
      assert "/%"[1..] == "%";
      if t != "" && t[0] == '/' {
        LikePercent(t[1..]);
        assert text[..|src| + 1] == src + "/";
      }
    }
  }

  // ----- the rewrite as a re-parenting

  /** The filter selects exactly the rows at or below the moved folder. */
  lemma SelectsDescendants(src: Path, p: Path)
    requires Canonical(src) && Canonical(p) && src != []
    ensures Selected(Render(p), Render(src)) <==> src <= p
  {
    SelectorExact(Render(p), Render(src));
    BelowIsPathPrefix(src, p);
  }

  /** On a selected row the SET clause writes the rebased path. */
  lemma RewritesByRebasing(src: Path, dst: Path, p: Path)
    requires Canonical(src) && Canonical(dst) && Canonical(p)
    requires src != [] && dst != [] && src <= p
    ensures Rewritten(Render(p), Render(src), Render(dst)) == Render(Rebase(src, dst, p))
  {
    var rest := p[|src|..];
    assert p == src + rest;
    TailAppend(src, rest);
    TailAppend(dst, rest);
    assert Substr(Render(p), |Render(src)| + 1) == Tail(rest);
  }

  /** One UPDATE over parent_path is a re-parenting of the rows it covers. */
  lemma UpdateIsRebase(src: Path, dst: Path, p: Path)
    requires Canonical(src) && Canonical(dst) && Canonical(p)
    requires src != [] && dst != []
    ensures (if Selected(Render(p), Render(src)) then Rewritten(Render(p), Render(src), Render(dst)) else Render(p))
         == Render(Rebase(src, dst, p))
  {
    SelectsDescendants(src, p);
    if src <= p {
      RewritesByRebasing(src, dst, p);
    }
  }
}
