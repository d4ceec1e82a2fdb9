/** Shell-style matching as `fnmatch.fnmatch(name, pattern)` does it on a
    POSIX host (no case folding): the whole name must match; `*` matches any
    run of characters, `?` any one character, every other character itself.
    Patterns with a `[...]` class are handed to `classGlob`, which stands for
    fnmatch's bracket translation. */
module Glob {
  import opened Common

  predicate Literal(p: string) {
    '*' !in p && '?' !in p && '[' !in p
  }

  /** Anchored match of `p` (made of `*`, `?` and literals) against all of `s`. */
  predicate WildMatch(p: string, s: string)
    decreases |p|, |s|
  {
    if |p| == 0 then |s| == 0
    else if p[0] == '*' then WildMatch(p[1..], s) || (|s| > 0 && WildMatch(p, s[1..]))
    else if p[0] == '?' then |s| > 0 && WildMatch(p[1..], s[1..])
    else |s| > 0 && s[0] == p[0] && WildMatch(p[1..], s[1..])
  }

  predicate Fnmatch(name: string, pattern: string, classGlob: (string, string) -> bool) {
    if '[' in pattern then classGlob(name, pattern) else WildMatch(pattern, name)
  }

  /** `?` stands for exactly one character, whichever it is. */
  lemma QuestionMatchesOneChar(p: string, c: char, s: string)
    ensures WildMatch("?" + p, [c] + s) <==> WildMatch(p, s)
    ensures !WildMatch("?" + p, [])
  {
    assert ("?" + p)[1..] == p;
    assert ([c] + s)[1..] == s;
  }

  /** `*` alone matches every name. */
  lemma {:induction false} StarMatchesAll(s: string)
    ensures WildMatch("*", s)
    decreases |s|
  {
    if |s| > 0 {
      StarMatchesAll(s[1..]);
    }
  }

  /** A pattern with no wildcard matches exactly the name equal to it. */
  lemma {:induction false} LiteralMatchesOnlyItself(p: string, s: string)
    requires Literal(p)
    ensures WildMatch(p, s) <==> s == p
    decreases |p|
  {
    if |p| > 0 && |s| > 0 {
      assert p == [p[0]] + p[1..];
      assert s == [s[0]] + s[1..];
      LiteralMatchesOnlyItself(p[1..], s[1..]);
    }
  }

  /** `*` followed by a literal tail matches exactly the names that end in the tail
      (so "*.pdf" matches "/Users/x/doc.pdf"). */
  lemma {:induction false} StarThenLiteral(lit: string, s: string)
    requires Literal(lit)
    ensures WildMatch("*" + lit, s) <==> IsSuffix(lit, s)
    decreases |s|
  {
    var p := "*" + lit;
    assert p[1..] == lit;
    LiteralMatchesOnlyItself(lit, s);
    if |s| > 0 {
      StarThenLiteral(lit, s[1..]);
      assert |lit| <= |s[1..]| ==> s[1..][|s[1..]| - |lit|..] == s[|s| - |lit|..];
    }
  }

  /** Matching is case-sensitive: "*.pdf" matches "/x/doc.pdf" and
      "*.PDF" does not. */
  lemma GlobIsCaseSensitive(classGlob: (string, string) -> bool)
    ensures Fnmatch("/x/doc.pdf", "*.pdf", classGlob)
    ensures !Fnmatch("/x/doc.pdf", "*.PDF", classGlob)
  {
    var name := "/x/doc.pdf";
    assert name[|name| - 4..] == ".pdf";
    assert "*.pdf" == "*" + ".pdf";
    StarThenLiteral(".pdf", name);
    assert "*.PDF" == "*" + ".PDF";
    StarThenLiteral(".PDF", name);
  }
}
