/**
 * Candidate matches of a search: the LIKE pattern that stands for a query, and the
 * merging of title and transcript matches into one hit a video.
 *
 * Case folding is a function of one character, the same for the database and the
 * program; LIKE is the pattern language of section 9.7.1 of the PostgreSQL manual.
 */
module SearchIndex {
  import opened Common
  import opened Strings

  type Fold = char -> char

  // --------------------------------------------------------- LIKE and escaping

  /** A text matches a pattern: `%` any run, `_` any one character, `\` takes the next character as itself. */
  predicate Like(fold: Fold, pattern: string, text: string)
    decreases |pattern| + |text|
  {
    if pattern == "" then text == ""
    else if pattern[0] == '%' then
      Like(fold, pattern[1..], text) || (text != "" && Like(fold, pattern, text[1..]))
    else if pattern[0] == '_' then text != "" && Like(fold, pattern[1..], text[1..])
    else if pattern[0] == '\\' then
      |pattern| > 1 && text != "" && fold(pattern[1]) == fold(text[0]) && Like(fold, pattern[2..], text[1..])
    else text != "" && fold(pattern[0]) == fold(text[0]) && Like(fold, pattern[1..], text[1..])
  }

  /** The pattern does not end in the middle of an escape, which the database refuses. */
  predicate WellFormed(pattern: string) {
    pattern == "" ||
    if pattern[0] == '\\' then |pattern| > 1 && WellFormed(pattern[2..]) else WellFormed(pattern[1..])
  }

  predicate IsWildcard(c: char) {
    c == '\\' || c == '%' || c == '_'
  }

  function EscapeLike(needle: string): string {
    if needle == "" then ""
    else (if IsWildcard(needle[0]) then ['\\', needle[0]] else [needle[0]]) + EscapeLike(needle[1..])
  }

  function Needle(query: string): string {
    "%" + EscapeLike(query) + "%"
  }

  predicate SameFolded(fold: Fold, a: string, b: string) {
    |a| == |b| && forall i :: 0 <= i < |a| ==> fold(a[i]) == fold(b[i])
  }

  predicate StartsWith(fold: Fold, text: string, query: string) {
    |query| <= |text| && SameFolded(fold, text[..|query|], query)
  }

  /** The query stands somewhere in the text as a contiguous run, case aside. */
  ghost predicate Occurs(fold: Fold, query: string, text: string) {
    exists i :: 0 <= i <= |text| && StartsWith(fold, text[i..], query)
  }

  /** An escaped query followed by `%` matches exactly the texts that start with the query. */
  lemma {:induction false} EscapedPrefix(fold: Fold, query: string, text: string)
    ensures Like(fold, EscapeLike(query) + "%", text) <==> StartsWith(fold, text, query)
  {
    var pattern := EscapeLike(query) + "%";
    if query == "" {
      assert pattern == "%";
      AnyRun(fold, text);
    } else {
      var rest := EscapeLike(query[1..]) + "%";
      assert pattern == if IsWildcard(query[0]) then ['\\', query[0]] + rest else [query[0]] + rest;
      assert IsWildcard(query[0]) ==> pattern[2..] == rest;
      assert !IsWildcard(query[0]) ==> pattern[1..] == rest;
      if text != "" {
        EscapedPrefix(fold, query[1..], text[1..]);
        StartsWithStep(fold, query, text);
      }
    }
  }

  lemma {:induction false} AnyRun(fold: Fold, text: string)
    ensures Like(fold, "%", text)
  {
    if text != "" {
      AnyRun(fold, text[1..]);
    }
  }

  lemma StartsWithStep(fold: Fold, query: string, text: string)
    requires query != "" && text != ""
    ensures StartsWith(fold, text, query) <==> fold(text[0]) == fold(query[0]) && StartsWith(fold, text[1..], query[1..])
  {
    if fold(text[0]) == fold(query[0]) && StartsWith(fold, text[1..], query[1..]) {
      forall i | 0 <= i < |query|
        ensures fold(text[..|query|][i]) == fold(query[i])
      {
        if i > 0 {
          assert text[1..][..|query[1..]|][i - 1] == text[i] && query[1..][i - 1] == query[i];
        }
      }
    }
    if StartsWith(fold, text, query) {
      assert text[..|query|][0] == text[0];
      forall i | 0 <= i < |query| - 1
        ensures fold(text[1..][..|query| - 1][i]) == fold(query[1..][i])
      {
        assert text[..|query|][i + 1] == text[i + 1];
      }
    }
  }

  /** The pattern sent for a query matches exactly the texts the query occurs in, whatever characters it has. */
  lemma {:induction false} NeedleMatchesOccurrences(fold: Fold, query: string, text: string)
    ensures Like(fold, Needle(query), text) <==> Occurs(fold, query, text)
  {
    var tail := EscapeLike(query) + "%";
    assert Needle(query)[1..] == tail;
    EscapedPrefix(fold, query, text);
    assert text[0..] == text;
    if text != "" {
      NeedleMatchesOccurrences(fold, query, text[1..]);
      if Occurs(fold, query, text[1..]) {
        var i :| 0 <= i <= |text[1..]| && StartsWith(fold, text[1..][i..], query);
        assert text[1..][i..] == text[i + 1..];
      }
      if Occurs(fold, query, text) && !StartsWith(fold, text, query) {
        var i :| 0 <= i <= |text| && StartsWith(fold, text[i..], query);
        assert text[1..][i - 1..] == text[i..];
      }
    }
  }

  lemma {:induction false} EscapedIsWellFormed(needle: string)
    ensures WellFormed(EscapeLike(needle) + "%")
  {
    if needle != "" {
      EscapedIsWellFormed(needle[1..]);
      var rest := EscapeLike(needle[1..]) + "%";
      var pattern := EscapeLike(needle) + "%";
      assert pattern == if IsWildcard(needle[0]) then ['\\', needle[0]] + rest else [needle[0]] + rest;
      assert IsWildcard(needle[0]) ==> pattern[2..] == rest;
      assert !IsWildcard(needle[0]) ==> pattern[1..] == rest;
    }
  }

  /** The database accepts the pattern of every query. */
  lemma NeedleIsWellFormed(query: string)
    ensures WellFormed(Needle(query))
  {
    EscapedIsWellFormed(query);
    assert Needle(query)[1..] == EscapeLike(query) + "%";
  }
}
