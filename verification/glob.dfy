/** Shell-style title patterns as `fnmatch.fnmatchcase` reads them: the whole
    title must match, letters are compared exactly (no case folding), `*`
    stands for any run of characters, `?` for exactly one character, and every
    other character for itself. There is no escape character, and `/` and a
    leading `.` are ordinary characters. */
module Glob {

  predicate IsWildcard(c: char) {
    c == '*' || c == '?'
  }

  /** A pattern with no wildcard at all. */
  predicate Literal(pattern: string) {
    forall i :: 0 <= i < |pattern| ==> !IsWildcard(pattern[i])
  }

  /** Whether `name` matches `pattern` in full. */
  predicate Matches(pattern: string, name: string)
    decreases |pattern| + |name|
  {
    if |pattern| == 0 then
      |name| == 0
    else if pattern[0] == '*' then
      // the star stands for nothing more, or swallows one more character
      Matches(pattern[1..], name) || (|name| > 0 && Matches(pattern, name[1..]))
    else
      && |name| > 0
      && (pattern[0] == '?' || pattern[0] == name[0])
      && Matches(pattern[1..], name[1..])
  }

  /** Reference meaning of a pattern: each star is replaced by some substring
      of the name, chosen all at once rather than one character at a time. */
  ghost predicate Denotes(pattern: string, name: string)
    decreases |pattern|
  {
    if |pattern| == 0 then
      |name| == 0
    else if pattern[0] == '*' then
      exists k :: 0 <= k <= |name| && Denotes(pattern[1..], name[k..])
    else
      && |name| > 0
      && (pattern[0] == '?' || pattern[0] == name[0])
      && Denotes(pattern[1..], name[1..])
  }

  /** The character-by-character matcher agrees with the reference meaning. */
  lemma {:induction false} MatchesIffDenotes(pattern: string, name: string)
    ensures Matches(pattern, name) <==> Denotes(pattern, name)
    decreases |pattern| + |name|
  {
    if |pattern| == 0 {
    } else if pattern[0] == '*' {
      if Matches(pattern, name) {
        if Matches(pattern[1..], name) {
          MatchesIffDenotes(pattern[1..], name);
          assert name[0..] == name;
        } else {
          MatchesIffDenotes(pattern, name[1..]);
          var k :| 0 <= k <= |name[1..]| && Denotes(pattern[1..], name[1..][k..]);
          assert name[1..][k..] == name[k + 1..];
        }
      }
      if Denotes(pattern, name) {
        var k :| 0 <= k <= |name| && Denotes(pattern[1..], name[k..]);
        if k == 0 {
          assert name[0..] == name;
          MatchesIffDenotes(pattern[1..], name);
        } else {
          assert name[1..][k - 1..] == name[k..];
          assert Denotes(pattern, name[1..]);
          MatchesIffDenotes(pattern, name[1..]);
        }
      }
    } else if |name| > 0 {
      MatchesIffDenotes(pattern[1..], name[1..]);
    }
  }

  /** A pattern without wildcards matches exactly the identical title. */
  lemma {:induction false} LiteralMatchesItselfOnly(pattern: string, name: string)
    requires Literal(pattern)
    ensures Matches(pattern, name) <==> name == pattern
    decreases |pattern|
  {
    if |pattern| > 0 {
      assert !IsWildcard(pattern[0]);
      if |name| > 0 {
        LiteralMatchesItselfOnly(pattern[1..], name[1..]);
        if name[1..] == pattern[1..] && name[0] == pattern[0] {
          assert name == [name[0]] + name[1..];
          assert pattern == [pattern[0]] + pattern[1..];
        }
      }
    }
  }

  /** A literal prefix shared by pattern and name can be stripped. */
  lemma {:induction false} StripLiteralPrefix(prefix: string, pattern: string, name: string)
    requires Literal(prefix)
    ensures Matches(prefix + pattern, prefix + name) <==> Matches(pattern, name)
    decreases |prefix|
  {
    if |prefix| > 0 {
      assert !IsWildcard(prefix[0]);
      assert (prefix + pattern)[1..] == prefix[1..] + pattern;
      assert (prefix + name)[1..] == prefix[1..] + name;
      StripLiteralPrefix(prefix[1..], pattern, name);
    } else {
      assert prefix + pattern == pattern;
      assert prefix + name == name;
    }
  }

  /** A leading star absorbs any run of characters in front of a match. */
  lemma StarAbsorbs(pattern: string, skipped: string, name: string)
    requires Matches(pattern, name)
    ensures Matches("*" + pattern, skipped + name)
  {
    var p := "*" + pattern;
    var t := skipped + name;
    assert p[1..] == pattern;
    assert t[|skipped|..] == name;
    MatchesIffDenotes(pattern, name);
    assert Denotes(p, t);
    MatchesIffDenotes(p, t);
  }

  /** A pattern made of a literal, one star and another literal matches
      every title that starts and ends with those literals, whatever lies
      between them. */
  lemma StarBetweenLiterals(before: string, middle: string, after: string)
    requires Literal(before) && Literal(after)
    ensures Matches(before + "*" + after, before + middle + after)
  {
    LiteralMatchesItselfOnly(after, after);
    StarAbsorbs(after, middle, after);
    StripLiteralPrefix(before, "*" + after, middle + after);
    assert before + "*" + after == before + ("*" + after);
    assert before + middle + after == before + (middle + after);
  }

  /** The match is anchored at the end: a pattern ending in an ordinary
      character only matches titles ending in that character. */
  lemma {:induction false} MatchEndsWithLastLiteral(pattern: string, c: char, name: string)
    requires !IsWildcard(c)
    requires Matches(pattern + [c], name)
    ensures |name| > 0 && name[|name| - 1] == c
    decreases |pattern| + |name|
  {
    var p := pattern + [c];
    if |pattern| == 0 {
      assert p == [c];
      assert Matches(p[1..], name[1..]);
    } else if pattern[0] == '*' {
      assert p[1..] == pattern[1..] + [c];
      if Matches(p[1..], name) {
        MatchEndsWithLastLiteral(pattern[1..], c, name);
      } else {
        MatchEndsWithLastLiteral(pattern, c, name[1..]);
      }
    } else {
      assert p[1..] == pattern[1..] + [c];
      MatchEndsWithLastLiteral(pattern[1..], c, name[1..]);
    }
  }

  /** `title_matches_any_pattern`: some pattern of the list matches the
      title; patterns are tried in order and the first success decides. */
  predicate AnyMatches(title: string, patterns: seq<string>)
    ensures AnyMatches(title, patterns) <==>
              exists i :: 0 <= i < |patterns| && Matches(patterns[i], title)
  {
    && |patterns| > 0
    && (Matches(patterns[0], title) || AnyMatches(title, patterns[1..]))
  }
}
